/** The authentication mode chosen with `--auth`, and the converter that turns
    the command-line text into a mode and back. */
module AuthConverter {
  import opened JavaText

  /** How the audit log identifies the user behind a change. */
  datatype Authentication = Application | Database | Anonymous

  /** `Authentication.name()`: the Java constant's name. */
  function Name(a: Authentication): (n: string)
    ensures n != [] && forall k :: 0 <= k < |n| ==> IsAsciiUpper(n[k])
  {
    match a
    case Application => "APPLICATION"
    case Database => "DATABASE"
    case Anonymous => "ANONYMOUS"
  }

  /** Different modes have different names. */
  lemma NameInjective(a: Authentication, b: Authentication)
    requires Name(a) == Name(b)
    ensures a == b
  {
  }

  /** `valueOf` finds every mode by its name. */
  lemma ValueOfName(a: Authentication)
    ensures ValueOf(Name(a)) == Ok(a)
  {
  }

  /** What `Authentication.valueOf` throws for a string that names no constant. */
  datatype ConvertError = NoEnumConstant(name: string)

  /** `Authentication.valueOf(s)`: the constant whose name is exactly s. */
  function ValueOf(s: string): (r: Result<Authentication, ConvertError>)
    ensures r.Ok? ==> Name(r.value) == s
    ensures r.Err? <==> forall a :: Name(a) != s
    ensures r.Err? ==> r.error == NoEnumConstant(s)
  {
    if s == "APPLICATION" then Ok(Application)
    else if s == "DATABASE" then Ok(Database)
    else if s == "ANONYMOUS" then Ok(Anonymous)
    else Err(NoEnumConstant(s))
  }

  /** `read`: null stays null; otherwise the trimmed, upper-cased text must be
      exactly the name of a mode. */
  function Read(value: Option<string>): (r: Result<Option<Authentication>, ConvertError>)
    ensures value.None? ==> r == Ok(None)
    ensures value.Some? && r.Ok? ==> r.value.Some? && Name(r.value.value) == ToUpperCase(Trim(value.value))
    ensures value.Some? ==> (r.Err? <==> forall a :: Name(a) != ToUpperCase(Trim(value.value)))
    ensures value.Some? && r.Err? ==> r.error == NoEnumConstant(ToUpperCase(Trim(value.value)))
  {
    match value
    case None => Ok(None)
    case Some(s) =>
      match ValueOf(ToUpperCase(Trim(s)))
      case Ok(a) => Ok(Some(a))
      case Err(e) => Err(e)
  }

  /** `write`: null stays null; otherwise the mode's name in lower case. */
  function Write(value: Option<Authentication>): (r: Option<string>)
    ensures value.None? <==> r.None?
    ensures r.Some? ==> forall k :: 0 <= k < |r.value| ==> IsAsciiLower(r.value[k])
    ensures r.Some? ==> ToUpperCase(r.value) == Name(value.value)
  {
    match value
    case None => None
    case Some(a) =>
      var n := Name(a);
      UpperOfLowerCapitals(n);
      Some(ToLowerCase(n))
  }

  /** Reading what was written gives back the same mode (or null). */
  lemma {:induction false} ReadWrite(v: Option<Authentication>)
    ensures Read(Write(v)) == Ok(v)
  {
    if v.Some? {
      var w := Write(v).value;
      TrimUnchanged(w);
      assert ToUpperCase(Trim(w)) == Name(v.value);
      ValueOfName(v.value);
    }
  }

  /** Writing a mode that was read gives the input trimmed and lower-cased. */
  lemma {:induction false} WriteRead(s: string)
    requires Read(Some(s)).Ok?
    ensures Write(Read(Some(s)).value) == Some(ToLowerCase(Trim(s)))
  {
    var t := Trim(s);
    var a := Read(Some(s)).value.value;
    assert Name(a) == ToUpperCase(t);
    LowerOfUpper(t);
  }

  /** Surrounding white space and letter case make no difference to `read`. */
  lemma {:induction false} ReadTolerant(pre: string, s: string, post: string, t: string)
    requires Blank(pre) && Blank(post)
    requires ToUpperCase(s) == ToUpperCase(t)
    ensures Read(Some(pre + s + post)) == Read(Some(t))
  {
    TrimIgnoresPadding(pre, s, post);
    UpperTrim(s);
    UpperTrim(t);
  }

  /** The spelling used in the `--auth` help text, padded and in mixed case. */
  lemma ReadPaddedMixedCase()
    ensures Read(Some("  Anonymous ")) == Ok(Some(Anonymous))
  {
    TrimAnonymous();
    UpperAnonymous();
  }

  lemma TrimAnonymous()
    ensures Trim("  Anonymous ") == "Anonymous"
  {
    assert "  Anonymous " == "  " + "Anonymous" + " ";
    assert Blank("  ") && Blank(" ");
    TrimIgnoresPadding("  ", "Anonymous", " ");
    TrimUnchanged("Anonymous");
  }

  lemma UpperAnonymous()
    ensures ToUpperCase("Anonymous") == "ANONYMOUS"
  {
    var u := ToUpperCase("Anonymous");
    assert u[0] == 'A' && u[1] == 'N' && u[2] == 'O' && u[3] == 'N' && u[4] == 'Y'
        && u[5] == 'M' && u[6] == 'O' && u[7] == 'U' && u[8] == 'S';
  }

  /** The default mode is written as "database". */
  lemma WriteDatabase()
    ensures Write(Some(Database)) == Some("database")
  {
    var w := ToLowerCase("DATABASE");
    assert w[0] == 'd' && w[1] == 'a' && w[2] == 't' && w[3] == 'a'
        && w[4] == 'b' && w[5] == 'a' && w[6] == 's' && w[7] == 'e';
    assert w == "database";
  }
}
