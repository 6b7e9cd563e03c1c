/** The few pieces of java.lang.String and java.lang.Integer behaviour that the
    name-handling code relies on: null references, string conversion of null,
    lastIndexOf, trim, ASCII case mapping and decimal rendering of an int. */
module JavaText {

  /** A Java reference that may be null. */
  datatype Option<+T> = None | Some(value: T)

  /** A Java result that either returns a value or throws. */
  datatype Result<+T, +E> = Ok(value: T) | Err(error: E)

  /** What string concatenation `"..." + s` appends for a possibly-null String:
      the text itself, or the four letters "null". */
  function JavaStr(s: Option<string>): (r: string)
    ensures s.Some? ==> r == s.value
    ensures s.None? ==> r == "null"
  {
    match s
    case Some(v) => v
    case None => "null"
  }

  /** `s.lastIndexOf(c)`: the index of the last occurrence of c, or -1. */
  function LastIndexOf(s: string, c: char): (r: int)
    ensures -1 <= r < |s|
    ensures r == -1 <==> c !in s
    ensures 0 <= r ==> s[r] == c
    ensures forall k :: r < k < |s| ==> s[k] != c
  {
    if s == [] then -1
    else if s[|s| - 1] == c then |s| - 1
    else
      var r := LastIndexOf(s[..|s| - 1], c);
      assert s == s[..|s| - 1] + [s[|s| - 1]];
      r
  }

  /** Java's trim treats every character at or below U+0020 as white space. */
  predicate IsTrimmable(c: char) {
    c <= ' '
  }

  /** Every character of t is white space in the sense of trim. */
  predicate Blank(t: string) {
    forall k :: 0 <= k < |t| ==> IsTrimmable(t[k])
  }

  /** Drops the white space at the front of s. */
  function TrimStart(s: string): (r: string)
    ensures |r| <= |s| && r == s[|s| - |r|..]
    ensures Blank(s[..|s| - |r|])
    ensures r != [] ==> !IsTrimmable(r[0])
  {
    if s != [] && IsTrimmable(s[0]) then TrimStart(s[1..]) else s
  }

  /** Drops the white space at the back of s. */
  function TrimEnd(s: string): (r: string)
    ensures |r| <= |s| && r == s[..|r|]
    ensures Blank(s[|r|..])
    ensures r != [] ==> !IsTrimmable(r[|r| - 1])
  {
    if s != [] && IsTrimmable(s[|s| - 1]) then TrimEnd(s[..|s| - 1]) else s
  }

  /** r is what remains of s once its first i characters and everything after
      the next |r| characters are cut off, and both cut-off parts are white
      space. */
  ghost predicate TrimsTo(s: string, i: int, r: string) {
    0 <= i <= |s| - |r| && Blank(s[..i]) && r == s[i..i + |r|] && Blank(s[i + |r|..])
  }

  /** `s.trim()`: the longest middle part of s that neither starts nor ends
      with white space; everything cut off on either side is white space. */
  function Trim(s: string): (r: string)
    ensures r != [] ==> !IsTrimmable(r[0]) && !IsTrimmable(r[|r| - 1])
    ensures exists i :: TrimsTo(s, i, r)
  {
    TrimCuts(s);
    TrimEnd(TrimStart(s))
  }

  /** What TrimStart and then TrimEnd cut off lies at the two ends of s and
      is white space. */
  lemma TrimCuts(s: string)
    ensures TrimsTo(s, |s| - |TrimStart(s)|, TrimEnd(TrimStart(s)))
  {
    var front := TrimStart(s);
    CutTwice(s, front, TrimEnd(front));
  }

  /** Cutting white space off the front of s and then off the back of what
      is left leaves a middle part of s with white space on both sides. */
  lemma CutTwice(s: string, front: string, r: string)
    requires |front| <= |s| && front == s[|s| - |front|..] && Blank(s[..|s| - |front|])
    requires |r| <= |front| && r == front[..|r|] && Blank(front[|r|..])
    ensures TrimsTo(s, |s| - |front|, r)
  {
    var i := |s| - |front|;
    assert r == s[i..i + |r|] by {
      assert s[i..][..|r|] == s[i..i + |r|];
    }
    assert s[i + |r|..] == front[|r|..];
  }

  /** A string with no white space at either end is its own trim. */
  lemma {:induction false} TrimUnchanged(s: string)
    requires s != [] ==> !IsTrimmable(s[0]) && !IsTrimmable(s[|s| - 1])
    ensures Trim(s) == s
  {
    assert TrimStart(s) == s;
    assert TrimEnd(s) == s;
  }

  /** Trimming a second time changes nothing. */
  lemma {:induction false} TrimIdempotent(s: string)
    ensures Trim(Trim(s)) == Trim(s)
  {
    TrimUnchanged(Trim(s));
  }

  /** Surrounding white space does not survive a trim. */
  lemma {:induction false} TrimIgnoresPadding(pre: string, s: string, post: string)
    requires Blank(pre) && Blank(post)
    ensures Trim(pre + s + post) == Trim(s)
  {
    assert pre + s + post == pre + (s + post);
    TrimStartPadding(pre, s + post);
    TrimStartAppend(s, post);
    var f := TrimStart(s);
    if f == [] {
      assert TrimStart(post) == [] by { TrimStartPadding(post, []); assert post + [] == post; }
      assert Trim(pre + s + post) == TrimEnd(TrimStart(post)) == [];
      assert Trim(s) == TrimEnd(f) == [];
    } else {
      TrimEndPadding(f, post);
      assert Trim(pre + s + post) == TrimEnd(f + post) == TrimEnd(f) == Trim(s);
    }
  }

  lemma {:induction false} TrimStartPadding(pre: string, s: string)
    requires Blank(pre)
    ensures TrimStart(pre + s) == TrimStart(s)
    decreases |pre|
  {
    if pre != [] {
      assert (pre + s)[1..] == pre[1..] + s;
      TrimStartPadding(pre[1..], s);
    } else {
      assert pre + s == s;
    }
  }

  /** The front of s + t is trimmed inside s unless s is all white space. */
  lemma {:induction false} TrimStartAppend(s: string, t: string)
    ensures TrimStart(s + t) == if TrimStart(s) == [] then TrimStart(t) else TrimStart(s) + t
    decreases |s|
  {
    if s == [] {
      assert s + t == t;
    } else if IsTrimmable(s[0]) {
      assert (s + t)[1..] == s[1..] + t;
      TrimStartAppend(s[1..], t);
    }
  }

  lemma {:induction false} TrimEndPadding(s: string, post: string)
    requires Blank(post)
    ensures TrimEnd(s + post) == TrimEnd(s)
    decreases |post|
  {
    if post == [] {
      assert s + post == s;
    } else {
      var n := |post| - 1;
      assert (s + post)[..|s + post| - 1] == s + post[..n];
      TrimEndPadding(s, post[..n]);
    }
  }

  predicate IsAsciiUpper(c: char) { 'A' <= c <= 'Z' }

  predicate IsAsciiLower(c: char) { 'a' <= c <= 'z' }

  /** The ASCII alphabet in each case, letter k of one matching letter k of
      the other. */
  const LowerLetters := "abcdefghijklmnopqrstuvwxyz"
  const UpperLetters := "ABCDEFGHIJKLMNOPQRSTUVWXYZ"

  /** `Character.toUpperCase` restricted to ASCII. */
  function UpperChar(c: char): (u: char)
    ensures !IsAsciiLower(u)
    ensures IsAsciiLower(c) <==> IsAsciiUpper(u) && u != c
    ensures !IsAsciiLower(c) ==> u == c
    ensures forall k :: 0 <= k < 26 && c == LowerLetters[k] ==> u == UpperLetters[k]
  {
    if IsAsciiLower(c) then (c as int - 'a' as int + 'A' as int) as char else c
  }

  /** `Character.toLowerCase` restricted to ASCII. */
  function LowerChar(c: char): (l: char)
    ensures !IsAsciiUpper(l)
    ensures IsAsciiUpper(c) <==> IsAsciiLower(l) && l != c
    ensures !IsAsciiUpper(c) ==> l == c
    ensures forall k :: 0 <= k < 26 && c == UpperLetters[k] ==> l == LowerLetters[k]
  {
    if IsAsciiUpper(c) then (c as int - 'A' as int + 'a' as int) as char else c
  }

  /** `s.toUpperCase()`, ASCII letters only. */
  function ToUpperCase(s: string): (r: string)
    ensures |r| == |s|
    ensures forall k :: 0 <= k < |s| ==> r[k] == UpperChar(s[k])
  {
    if s == [] then [] else [UpperChar(s[0])] + ToUpperCase(s[1..])
  }

  /** `s.toLowerCase()`, ASCII letters only. */
  function ToLowerCase(s: string): (r: string)
    ensures |r| == |s|
    ensures forall k :: 0 <= k < |s| ==> r[k] == LowerChar(s[k])
  {
    if s == [] then [] else [LowerChar(s[0])] + ToLowerCase(s[1..])
  }

  /** Lower-casing after upper-casing is the same as lower-casing alone. */
  lemma {:induction false} LowerOfUpper(s: string)
    ensures ToLowerCase(ToUpperCase(s)) == ToLowerCase(s)
  {
    if s != [] {
      LowerOfUpper(s[1..]);
      assert ToUpperCase(s) == [UpperChar(s[0])] + ToUpperCase(s[1..]);
    }
  }

  /** Upper-casing undoes lower-casing on a string of capital letters. */
  lemma {:induction false} UpperOfLowerCapitals(s: string)
    requires forall k :: 0 <= k < |s| ==> IsAsciiUpper(s[k])
    ensures ToUpperCase(ToLowerCase(s)) == s
  {
    if s != [] {
      UpperOfLowerCapitals(s[1..]);
      assert ToLowerCase(s) == [LowerChar(s[0])] + ToLowerCase(s[1..]);
    }
  }

  /** Upper-casing never turns white space into text or text into white space,
      so trimming and upper-casing can be done in either order. */
  lemma {:induction false} UpperTrim(s: string)
    ensures ToUpperCase(Trim(s)) == Trim(ToUpperCase(s))
  {
    UpperTrimStart(s);
    UpperTrimEnd(TrimStart(s));
  }

  lemma {:induction false} UpperTrimStart(s: string)
    ensures ToUpperCase(TrimStart(s)) == TrimStart(ToUpperCase(s))
    decreases |s|
  {
    if s != [] {
      assert ToUpperCase(s)[1..] == ToUpperCase(s[1..]);
      if IsTrimmable(s[0]) {
        UpperTrimStart(s[1..]);
      }
    }
  }

  lemma {:induction false} UpperTrimEnd(s: string)
    ensures ToUpperCase(TrimEnd(s)) == TrimEnd(ToUpperCase(s))
    decreases |s|
  {
    if s != [] {
      var n := |s| - 1;
      var u := ToUpperCase(s);
      UpperPrefix(s, n);
      if IsTrimmable(s[n]) {
        UpperTrimEnd(s[..n]);
      }
    }
  }

  /** Upper-casing commutes with taking a prefix. */
  lemma {:induction false} UpperPrefix(s: string, n: nat)
    requires n <= |s|
    ensures ToUpperCase(s[..n]) == ToUpperCase(s)[..n]
  {
    var a, b := ToUpperCase(s[..n]), ToUpperCase(s)[..n];
    assert forall k :: 0 <= k < n ==> a[k] == b[k];
  }

  /** The decimal digit for 0 <= d < 10. */
  function DigitChar(d: nat): (c: char)
    requires d < 10
    ensures '0' <= c <= '9'
  {
    ('0' as int + d) as char
  }

  /** The number a string of decimal digits denotes. */
  function DecimalValue(s: string): nat
    requires forall k :: 0 <= k < |s| ==> '0' <= s[k] <= '9'
  {
    if s == [] then 0 else 10 * DecimalValue(s[..|s| - 1]) + (s[|s| - 1] as int - '0' as int)
  }

  /** The decimal digits of n, most significant first, without leading zeros. */
  function NatToDecimal(n: nat): (r: string)
    ensures r != []
    ensures forall k :: 0 <= k < |r| ==> '0' <= r[k] <= '9'
    ensures |r| > 1 ==> r[0] != '0'
    ensures DecimalValue(r) == n
  {
    if n < 10 then [DigitChar(n)]
    else
      var r := NatToDecimal(n / 10) + [DigitChar(n % 10)];
      assert r[..|r| - 1] == NatToDecimal(n / 10);
      r
  }

  /** `Integer.toString(i)`: the decimal digits, after a minus sign when negative. */
  function IntToString(i: int): (r: string)
    ensures r != [] && (r[0] == '-' <==> i < 0)
    ensures forall k :: 0 < k < |r| ==> '0' <= r[k] <= '9'
    ensures i >= 0 ==> '0' <= r[0] <= '9' && DecimalValue(r) == i
    ensures i < 0 ==> |r| > 1 && DecimalValue(r[1..]) == -i
    ensures i >= 0 && |r| > 1 ==> r[0] != '0'
    ensures i < 0 ==> r[1] != '0'
  {
    if i < 0 then "-" + NatToDecimal(-i) else NatToDecimal(i)
  }
}
