# pgauditor name handling, modelled in Dafny

PgAuditor is a command-line tool for auditing changes to one PostgreSQL table. Its help text (Configuration.java:7) promises that it introspects the table and prints the DDL for auditing it. The `run` method as written (PgAuditor.java:57-73) connects with a URL that asks the driver for a read-only session, and prints the table's and its columns' metadata. This model covers the code that handles names and settings:

- **Configuration** (`configuration.dfy`, module `Config`) holds the run's settings as a class with fields.
  - `SetRawTable` splits a possibly schema-qualified table name at its last `.`, unless that dot is the first character. The split keeps the dot in the table part. So `"public.user"` becomes schema `"public"` and table `".user"`, and its qualified name is `"public..user"`. A name without a usable dot gets schema `"public"`.
  - `GetConnectionString` builds the JDBC URL on its first call and caches it. A later call returns the cached URL even if the table changed in between.
  - The constructor sets the declared defaults.
- **AuthenticationTypeConverter** (`auth_converter.dfy`, module `AuthConverter`) converts between text and the three authentication modes. `Read` trims the text, upper-cases it and looks up the mode by its exact name. `Write` gives the mode's name in lower case. Both map null to null.
- **PgAuditor** (`pg_auditor.dfy`, module `Auditor`) derives the audit table name `"aud_" + tableOnly` and the three trigger names. It also holds the enum-type and sequence name constants. `DropTriggerIfExists` asks the catalog whether a trigger exists. If it does, the method prints one `DROP TRIGGER IF EXISTS … ON schema.table;` line. If the trigger does not exist, it prints nothing. If the query returns no row, it fails. The method is private, and the shown code never calls it (`run` does not), so the tool as written prints no DROP lines.
- **Java string behaviour** (`java_text.dfy`, module `JavaText`) models the parts of Java's string handling the code relies on:
  - a null reference is an `Option`, and concatenating a null gives `"null"`;
  - `lastIndexOf`;
  - `trim`, which removes the characters at or below U+0020 from both ends of the string;
  - ASCII `toUpperCase` and `toLowerCase`;
  - `Integer.toString`.

The integration tests expect the audit table `aud_user` for `"public.user"` (BaselineAuditTest.java:62,84). The code produces `aud_.user`, and that is what the model proves (`Auditor.AuditNamePublicUser`).

The database query in `DropTriggerIfExists` is a parameter of the method: a function from the prepared query (its SQL text and its positional parameters) to `Option<bool>`. `None` stands for "the query returned no row". Standard output is a `Console` object whose line log the method extends.

## Model

| member | source | states |
|---|---|---|
| `JavaText.JavaStr` | src/main/java/org/voidzero/pgauditor/Configuration.java:144-146 | concatenating a non-null string gives its text; a null gives "null" |
| `JavaText.LastIndexOf` | src/main/java/org/voidzero/pgauditor/Configuration.java:68 | -1 exactly when the character is absent; otherwise an index holding it, with no occurrence after it |
| `JavaText.TrimStart` | src/main/java/org/voidzero/pgauditor/AuthenticationTypeConverter.java:18 | result is a suffix of the input, everything cut off is white space, and the result does not start with white space |
| `JavaText.TrimEnd` | src/main/java/org/voidzero/pgauditor/AuthenticationTypeConverter.java:18 | result is a prefix of the input, everything cut off is white space, and the result does not end with white space |
| `JavaText.Trim` | src/main/java/org/voidzero/pgauditor/AuthenticationTypeConverter.java:18 | result is a contiguous middle part of the input, with only white space cut on either side, and neither starts nor ends with white space |
| `JavaText.TrimUnchanged` | src/main/java/org/voidzero/pgauditor/AuthenticationTypeConverter.java:18 | a string without white space at either end is its own trim |
| `JavaText.TrimIdempotent` | src/main/java/org/voidzero/pgauditor/AuthenticationTypeConverter.java:18 | trimming twice equals trimming once |
| `JavaText.TrimIgnoresPadding` | src/main/java/org/voidzero/pgauditor/AuthenticationTypeConverter.java:18 | white space added on either side does not change the trim |
| `JavaText.UpperChar` | src/main/java/org/voidzero/pgauditor/AuthenticationTypeConverter.java:18 | maps the k-th lower-case ASCII letter to the k-th capital and leaves every other character unchanged |
| `JavaText.LowerChar` | src/main/java/org/voidzero/pgauditor/AuthenticationTypeConverter.java:26 | maps the k-th capital ASCII letter to the k-th lower-case letter and leaves every other character unchanged |
| `JavaText.ToUpperCase` | src/main/java/org/voidzero/pgauditor/AuthenticationTypeConverter.java:18 | same length, each character upper-cased in place |
| `JavaText.ToLowerCase` | src/main/java/org/voidzero/pgauditor/AuthenticationTypeConverter.java:26 | same length, each character lower-cased in place |
| `JavaText.LowerOfUpper` | src/main/java/org/voidzero/pgauditor/AuthenticationTypeConverter.java:18-26 | lower-casing after upper-casing equals lower-casing alone |
| `JavaText.UpperOfLowerCapitals` | src/main/java/org/voidzero/pgauditor/AuthenticationTypeConverter.java:18-26 | upper-casing undoes lower-casing on a string of capitals |
| `JavaText.UpperTrim` | src/main/java/org/voidzero/pgauditor/AuthenticationTypeConverter.java:18 | trimming and upper-casing commute |
| `JavaText.NatToDecimal` | src/main/java/org/voidzero/pgauditor/Configuration.java:142 | non-empty decimal digits without a leading zero, whose value is the number |
| `JavaText.IntToString` | src/main/java/org/voidzero/pgauditor/Configuration.java:142 | a minus sign exactly for negative numbers, followed by decimal digits whose value is the number's magnitude, with no leading zero (zero is "0") |
| `AuthConverter.Name` | src/main/java/org/voidzero/pgauditor/AuthenticationTypeConverter.java:26 | each constant's name is a non-empty string of capitals |
| `AuthConverter.NameInjective` | src/main/java/org/voidzero/pgauditor/AuthenticationTypeConverter.java:18 | different modes have different names |
| `AuthConverter.ValueOf` | src/main/java/org/voidzero/pgauditor/AuthenticationTypeConverter.java:18 | succeeds exactly when some mode has that exact name, and returns that mode; otherwise fails with a no-constant error naming the text |
| `AuthConverter.Read` | src/main/java/org/voidzero/pgauditor/AuthenticationTypeConverter.java:14-19 | null reads as null; otherwise fails exactly when the trimmed, upper-cased text names no mode, and on success returns the mode so named, and on failure the no-constant error naming the trimmed, upper-cased text |
| `AuthConverter.Write` | src/main/java/org/voidzero/pgauditor/AuthenticationTypeConverter.java:22-27 | null writes as null; otherwise all lower-case letters whose upper-casing is the mode's name |
| `AuthConverter.ReadWrite` | src/main/java/org/voidzero/pgauditor/AuthenticationTypeConverter.java:14-27 | read(write(v)) == v for null and every mode |
| `AuthConverter.WriteRead` | src/main/java/org/voidzero/pgauditor/AuthenticationTypeConverter.java:14-27 | for any accepted text, write(read(s)) is s trimmed and lower-cased |
| `AuthConverter.ReadTolerant` | src/main/java/org/voidzero/pgauditor/AuthenticationTypeConverter.java:18 | surrounding white space and letter case do not change what read returns |
| `AuthConverter.ReadPaddedMixedCase` | src/main/java/org/voidzero/pgauditor/AuthenticationTypeConverter.java:18 | "  Anonymous " reads as ANONYMOUS |
| `AuthConverter.WriteDatabase` | src/main/java/org/voidzero/pgauditor/AuthenticationTypeConverter.java:26 | DATABASE writes as "database" |
| `Config.SplitTable` | src/main/java/org/voidzero/pgauditor/Configuration.java:68-75 | with a dot after the first character: a non-empty schema and a table part that starts with the dot and together rebuild the raw name exactly; otherwise schema "public" and the raw name unchanged; the table part never has a dot past its first character |
| `Config.SplitAtLastDot` | src/main/java/org/voidzero/pgauditor/Configuration.java:68-72 | when the last dot is at i > 0, the schema is the prefix before i and the table the suffix from i |
| `Config.SplitPublicUser` | src/main/java/org/voidzero/pgauditor/Configuration.java:68-72 | "public.user" splits into "public" and ".user" |
| `Config.SplitDottedSchema` | src/main/java/org/voidzero/pgauditor/Configuration.java:68-72 | the schema keeps every dot but the last: "a.b.c" gives "a.b" and ".c" |
| `Config.SplitLeadingDot` | src/main/java/org/voidzero/pgauditor/Configuration.java:68-75 | a name whose only dot is first is unqualified: ".user" gives "public" and ".user" |
| `Config.QualifiedNameDoublesDot` | src/main/java/org/voidzero/pgauditor/Configuration.java:71-78 | for a qualified name the qualified form has two dots in a row after the schema |
| `Config.SplitSchemaAndTable` | src/main/java/org/voidzero/pgauditor/Configuration.java:68-78 | for a schema s and a dot-free table t, "s.t" splits into s and ".t", and its qualified name is "s..t" (so "public.user" gives "public..user") |
| `Config.ConnectionUrl` | src/main/java/org/voidzero/pgauditor/Configuration.java:139-146 | every URL starts "jdbc:postgresql://" and ends with the read-only request and the schema (or "null") |
| `Config.ConnectionUrlDefaults` | src/main/java/org/voidzero/pgauditor/Configuration.java:139-142 | a null host and port give the same URL as "localhost" and 5432 |
| `Config.DefaultPortText` | src/main/java/org/voidzero/pgauditor/Configuration.java:42 | the default port renders as "5432" |
| `Config.DefaultUrlText` | src/main/java/org/voidzero/pgauditor/Configuration.java:139-146 | default host and port, unset database and schema "public" give ".../localhost:5432/null?readOnly=true&currentSchema=public" |
| `Config.Configuration.constructor` | src/main/java/org/voidzero/pgauditor/Configuration.java:10-60 | defaults: DATABASE, "pgauditor.current_user", drop and version false, host "localhost", port 5432, everything else unset, no cached URL |
| `Config.Configuration.SetRawTable` | src/main/java/org/voidzero/pgauditor/Configuration.java:66-79 | stores the raw name unchanged, sets schema and table to its split and the qualified name to schema + "." + table, and keeps the derived fields in agreement with the raw name |
| `Config.Configuration.GetConnectionString` | src/main/java/org/voidzero/pgauditor/Configuration.java:137-149 | the first call builds the URL from the current settings and caches it; later calls return the cached URL unchanged |
| `Config.StaleSchemaAfterRetarget` | src/main/java/org/voidzero/pgauditor/Configuration.java:137-148 | after the URL is built, setting another table leaves the URL identical and still naming the first schema, while the schema field moves on |
| `Config.DefaultUrl` | src/main/java/org/voidzero/pgauditor/Configuration.java:137-148 | a fresh configuration with only the table set yields the URL for "localhost", 5432, a null database and the table's schema |
| `Auditor.TriggerSuffix` | src/main/java/org/voidzero/pgauditor/PgAuditor.java:51-53 | every suffix has 15 characters and ends in "_trigger" |
| `Auditor.AuditTableName` | src/main/java/org/voidzero/pgauditor/PgAuditor.java:50 | every audit table name starts with "aud_" |
| `Auditor.TriggerName` | src/main/java/org/voidzero/pgauditor/PgAuditor.java:51-53 | every trigger name starts with its audit table name and is 15 characters longer |
| `Auditor.TriggerNameInjective` | src/main/java/org/voidzero/pgauditor/PgAuditor.java:51-53 | a trigger name determines its audit table and its operation, so the three names are pairwise distinct |
| `Auditor.AuditNameIgnoresSchema` | src/main/java/org/voidzero/pgauditor/PgAuditor.java:50 | the audit table name for "s.t" is "aud_." + t, whatever the schema s |
| `Auditor.AuditNamePublicUser` | src/main/java/org/voidzero/pgauditor/PgAuditor.java:50 | raw table "public" + "." + "user" gives audit table "aud_" + "." + "user", i.e. "aud_.user" with the dot kept |
| `Auditor.FixedNamesDistinct` | src/main/java/org/voidzero/pgauditor/PgAuditor.java:13-20 | the fixed enum-type and sequence names differ from each other and from every audit table and trigger name |
| `Auditor.DropTriggerStatement` | src/main/java/org/voidzero/pgauditor/PgAuditor.java:98 | the printed statement ends with ";" |
| `Auditor.DropTriggerStatementInjective` | src/main/java/org/voidzero/pgauditor/PgAuditor.java:98 | different triggers on one table give different statements |
| `Auditor.DropTriggerLines` | src/main/java/org/voidzero/pgauditor/PgAuditor.java:91-99 | no row: the no-row error and nothing printed; true: exactly the one DROP statement; false: nothing |
| `Auditor.DropAllTriggersDistinct` | src/main/java/org/voidzero/pgauditor/PgAuditor.java:95-99 | the drop statements for a table's three triggers are pairwise distinct |
| `Auditor.Console.PrintLine` | src/main/java/org/voidzero/pgauditor/PgAuditor.java:98 | appends exactly the printed line to the output |
| `Auditor.PgAuditor.constructor` | src/main/java/org/voidzero/pgauditor/PgAuditor.java:48-54 | keeps the configuration and derives the audit table name and the insert, update and delete trigger names from its table part; for a configuration whose table fields agree with its raw table, the audit table name is "aud_" followed by the part of that raw table from its last dot |
| `Auditor.PgAuditor.DropTriggerIfExists` | src/main/java/org/voidzero/pgauditor/PgAuditor.java:75-100 | sends the existence query with parameters (trigger, table, schema); extends the output by exactly the lines DropTriggerLines gives, or fails with the no-row error and prints nothing |

## Left out

- `PgAuditor.run` (PgAuditor.java:56-73) is left out: it opens a driver connection and prints table metadata, and all of that is I/O.
- TableMetadata.java and ColumnMetadata.java are not part of this model. They are catalog-query plumbing and plain beans.
- Main.java and the `@Arg`/`@Command` command-line binding are left out. They live in an external argument-parsing library. The model's class fields are public, and they stand in for what the binding assigns.
- The `toString` methods are left out. They only format debug output.
- The getters of Configuration are left out: Dafny code reads the fields directly.
- `AuthenticationTypeConverter.getType` is left out: it only returns a class object for reflection.
- Case mapping covers ASCII letters only, and the model assumes a default locale in which ASCII letters map to ASCII letters. Java's `toUpperCase`/`toLowerCase` also convert non-ASCII letters in every locale, for example dotless `ı` to `I`, so `read` accepts more spellings than the model does.
- Under a Turkish or Azerbaijani default locale the mapping of `i` and `I` differs. There `read("application")` fails, because upper-casing gives `APPLİCATİON`, and `write(APPLICATION)` gives `applıcatıon`. The model does not cover these locales.
- `SetRawTable` takes a non-null string. Java throws a NullPointerException for a null argument, and the model leaves that case out.
- `Config.Configuration.GetConnectionString` does not model Java's 32-bit `Integer`: the port is an unbounded integer. Any value that a Java `Integer` can hold is rendered the same way.
- `Auditor.PgAuditor.DropTriggerIfExists` models only one database failure, the query returning no row. Driver exceptions raised while preparing or running the query are not modelled. The SQL NULL case of `getBoolean` is also not modelled, because `EXISTS` never yields NULL.
- No identifier-length limit is enforced by the code (PgAuditor.java:50-53), so the model states none.
- `Config.ConnectionUrl` promises only that the URL ends with the read-only request followed by the schema. The schema is not escaped. A schema containing `&`, taken from a raw table such as `x&readOnly=false.t`, adds further query parameters after `readOnly=true`, and the model says nothing about how the driver reads them.
