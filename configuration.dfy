/** The run's configuration: the audited table, split into schema and table,
    the connection settings with their defaults, and the JDBC URL built from
    them once and then cached. */
module Config {
  import opened JavaText
  import opened AuthConverter

  /** The schema assumed when the table name carries no schema prefix. */
  const PublicSchema := "public"

  const DefaultConfigProperty := "pgauditor.current_user"
  const DefaultHostname := "localhost"
  const DefaultPort := 5432

  /** The fixed front of every connection URL. */
  const UrlScheme := "jdbc:postgresql://"

  /** The query part that asks the driver for a read-only session. */
  const ReadOnlyQuery := "?readOnly=true&currentSchema="

  /** The two parts setRawTable cuts a table name into. */
  datatype TableName = TableName(schema: string, tableOnly: string)

  /** There is a '.' somewhere after the first character. */
  predicate HasSchemaPrefix(raw: string) {
    exists i :: 0 < i < |raw| && raw[i] == '.'
  }

  /** The split performed by setRawTable: at the last '.', provided it is not
      the first character; the suffix keeps the dot. Otherwise the schema is
      "public" and the whole name is the table. */
  function SplitTable(raw: string): (t: TableName)
    ensures forall k :: 0 < k < |t.tableOnly| ==> t.tableOnly[k] != '.'
    ensures HasSchemaPrefix(raw) ==>
              t.schema != [] && t.schema + t.tableOnly == raw
              && t.tableOnly != [] && t.tableOnly[0] == '.'
    ensures !HasSchemaPrefix(raw) ==> t == TableName(PublicSchema, raw)
  {
    var index := LastIndexOf(raw, '.');
    if index > 0 then
      assert raw[..index] + raw[index..] == raw;
      TableName(raw[..index], raw[index..])
    else
      assert !HasSchemaPrefix(raw);
      TableName(PublicSchema, raw)
  }

  /** When the last '.' sits at index i > 0, the schema is everything before it
      and the table is everything from it on, dot included. */
  lemma {:induction false} SplitAtLastDot(raw: string, i: nat)
    requires 0 < i < |raw| && raw[i] == '.'
    requires forall k :: i < k < |raw| ==> raw[k] != '.'
    ensures SplitTable(raw) == TableName(raw[..i], raw[i..])
  {
  }

  /** `tableWithSchema`: schema, a dot, and the table part. */
  function QualifiedName(t: TableName): string {
    t.schema + "." + t.tableOnly
  }

  /** Because the table part keeps its dot, qualifying a qualified name again
      doubles the dot: the result is the raw name with one extra '.' inserted
      before its last '.'. */
  lemma {:induction false} QualifiedNameDoublesDot(raw: string)
    requires HasSchemaPrefix(raw)
    ensures var t := SplitTable(raw);
            QualifiedName(t) == t.schema + "." + raw[|t.schema|..]
            && QualifiedName(t)[|t.schema|..|t.schema| + 2] == ".."
  {
    var t := SplitTable(raw);
    assert raw[|t.schema|..] == t.tableOnly;
  }

  /** "public.user" splits into "public" and ".user". */
  lemma SplitPublicUser()
    ensures SplitTable("public.user") == TableName("public", ".user")
  {
    var s := "public.user";
    assert s[6] == '.' && s[7] == 'u' && s[8] == 's' && s[9] == 'e' && s[10] == 'r';
    SplitAtLastDot(s, 6);
    assert s[..6] == "public" && s[6..] == ".user";
  }

  /** A schema s and a dot-free table t, written "s.t", split into s and
      ".t"; the qualified name is then "s..t" (so "public.user" gives
      "public..user"). */
  lemma {:induction false} SplitSchemaAndTable(s: string, t: string)
    requires s != [] && '.' !in t
    ensures SplitTable(s + "." + t) == TableName(s, "." + t)
    ensures QualifiedName(SplitTable(s + "." + t)) == s + ".." + t
  {
    var raw := s + "." + t;
    assert raw[|s|] == '.';
    assert forall k :: |s| < k < |raw| ==> raw[k] == t[k - |s| - 1];
    SplitAtLastDot(raw, |s|);
    assert raw[..|s|] == s && raw[|s|..] == "." + t;
    assert s + "." + ("." + t) == s + ".." + t;
  }

  /** The schema keeps every '.' but the last one. */
  lemma SplitDottedSchema()
    ensures SplitTable("a.b.c") == TableName("a.b", ".c")
  {
    var s := "a.b.c";
    assert s[3] == '.' && s[4] == 'c';
    SplitAtLastDot(s, 3);
    assert s[..3] == "a.b" && s[3..] == ".c";
  }

  /** A name whose only '.' is its first character is not qualified. */
  lemma SplitLeadingDot()
    ensures SplitTable(".user") == TableName("public", ".user")
  {
    assert !HasSchemaPrefix(".user");
  }

  /** The host as it appears in the URL; null becomes "localhost". */
  function HostPart(hostname: Option<string>): string {
    match hostname
    case Some(h) => h
    case None => DefaultHostname
  }

  /** The port as it appears in the URL; null becomes "5432". */
  function PortPart(port: Option<int>): string {
    match port
    case Some(p) => IntToString(p)
    case None => "5432"
  }

  /** The JDBC URL getConnectionString builds. A null database or schema is
      written out as "null", as Java string concatenation does. */
  function ConnectionUrl(hostname: Option<string>, port: Option<int>,
                         database: Option<string>, schema: Option<string>): (url: string)
    ensures |UrlScheme| <= |url| && url[..|UrlScheme|] == UrlScheme
    ensures var tail := ReadOnlyQuery + JavaStr(schema);
            |tail| <= |url| && url[|url| - |tail|..] == tail
  {
    var middle := HostPart(hostname) + ":" + PortPart(port) + "/" + JavaStr(database);
    var tail := ReadOnlyQuery + JavaStr(schema);
    var url := UrlScheme + middle + tail;
    assert url[..|UrlScheme|] == UrlScheme;
    assert url[|url| - |tail|..] == tail;
    url
  }

  /** A null host or port gives the same URL as "localhost" and 5432. */
  lemma ConnectionUrlDefaults(database: Option<string>, schema: Option<string>)
    ensures ConnectionUrl(None, None, database, schema)
            == ConnectionUrl(Some(DefaultHostname), Some(DefaultPort), database, schema)
  {
    DefaultPortText();
  }

  /** The default port is rendered as the four digits "5432". */
  lemma DefaultPortText()
    ensures IntToString(DefaultPort) == "5432"
  {
    assert NatToDecimal(5) == "5";
    assert NatToDecimal(54) == "54";
    assert NatToDecimal(543) == "543";
  }

  /** The URL for the default host and port, an unset database and schema
      "public". */
  lemma DefaultUrlText()
    ensures ConnectionUrl(Some(DefaultHostname), Some(DefaultPort), None, Some(PublicSchema))
            == UrlScheme + "localhost:5432/null" + ReadOnlyQuery + "public"
  {
    DefaultPortText();
    assert "localhost" + ":" + "5432" + "/" + "null" == "localhost:5432/null";
  }

  class Configuration {
    /** The `--table` argument as given. */
    var rawTable: Option<string>
    var authentication: Authentication
    var configProperty: string
    var drop: bool
    var applicationName: Option<string>
    var version: bool
    var verbose: Option<bool>
    var hostname: Option<string>
    var username: Option<string>
    var database: Option<string>
    var port: Option<int>
    var password: Option<string>

    /** Derived from rawTable by SetRawTable. */
    var schema: Option<string>
    var tableOnly: Option<string>
    var tableWithSchema: Option<string>

    /** The URL cache, filled by the first GetConnectionString. */
    var connectionString: Option<string>

    /** The derived table fields always agree with rawTable: all unset before
        the first SetRawTable, and its split afterwards. */
    ghost predicate TableFieldsAgree()
      reads this
    {
      match rawTable
      case None => schema.None? && tableOnly.None? && tableWithSchema.None?
      case Some(raw) =>
        var t := SplitTable(raw);
        schema == Some(t.schema) && tableOnly == Some(t.tableOnly)
        && tableWithSchema == Some(QualifiedName(t))
    }

    /** A fresh configuration holds the declared defaults and nothing else. */
    constructor ()
      ensures authentication == Database
      ensures configProperty == DefaultConfigProperty
      ensures !drop && !version
      ensures hostname == Some(DefaultHostname) && port == Some(DefaultPort)
      ensures rawTable.None? && applicationName.None? && verbose.None?
      ensures username.None? && database.None? && password.None?
      ensures connectionString.None?
      ensures TableFieldsAgree()
    {
      rawTable := None;
      authentication := Database;
      configProperty := DefaultConfigProperty;
      drop := false;
      applicationName := None;
      version := false;
      verbose := None;
      hostname := Some(DefaultHostname);
      username := None;
      database := None;
      port := Some(DefaultPort);
      password := None;
      schema := None;
      tableOnly := None;
      tableWithSchema := None;
      connectionString := None;
    }

    /** Stores the raw name and derives schema, table and qualified name. */
    method SetRawTable(raw: string)
      modifies this`rawTable, this`schema, this`tableOnly, this`tableWithSchema
      ensures rawTable == Some(raw)
      ensures schema == Some(SplitTable(raw).schema)
      ensures tableOnly == Some(SplitTable(raw).tableOnly)
      ensures tableWithSchema == Some(schema.value + "." + tableOnly.value)
      ensures TableFieldsAgree()
    {
      rawTable := Some(raw);
      var index := LastIndexOf(raw, '.');
      if index > 0 {
        schema := Some(raw[..index]);
        tableOnly := Some(raw[index..]);
      } else {
        schema := Some(PublicSchema);
        tableOnly := Some(raw);
      }
      tableWithSchema := Some(schema.value + "." + tableOnly.value);
    }

    /** Builds the URL from the current settings on the first call and returns
        the cached value on every later one. */
    method GetConnectionString() returns (url: string)
      modifies this`connectionString
      ensures connectionString == Some(url)
      ensures old(connectionString).Some? ==> url == old(connectionString).value
      ensures old(connectionString).None? ==> url == ConnectionUrl(hostname, port, database, schema)
    {
      if connectionString.None? {
        connectionString := Some(ConnectionUrl(hostname, port, database, schema));
      }
      url := connectionString.value;
    }
  }

  /** Once the URL has been built, changing the table does not change it: the
      second URL still names the first table's schema. */
  method StaleSchemaAfterRetarget(c: Configuration, first: string, second: string)
    returns (before: string, after: string)
    requires c.connectionString.None?
    modifies c
    ensures before == after
    ensures var tail := ReadOnlyQuery + SplitTable(first).schema;
            |tail| <= |after| && after[|after| - |tail|..] == tail
    ensures c.schema == Some(SplitTable(second).schema)
  {
    c.SetRawTable(first);
    before := c.GetConnectionString();
    c.SetRawTable(second);
    after := c.GetConnectionString();
  }

  /** A default configuration connects to the local server on the standard
      port, in the schema split off the table name; the database, never set,
      is written as "null" (for "public.user", DefaultUrlText spells it out). */
  method DefaultUrl(raw: string) returns (url: string)
    ensures url == ConnectionUrl(Some(DefaultHostname), Some(DefaultPort), None, Some(SplitTable(raw).schema))
  {
    var c := new Configuration();
    c.SetRawTable(raw);
    var host, port, database, schema := c.hostname, c.port, c.database, c.schema;
    url := c.GetConnectionString();
    assert url == ConnectionUrl(host, port, database, schema);
  }
}
