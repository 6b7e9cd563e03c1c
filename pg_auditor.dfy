/** The names the auditor generates for one table, and the step that prints a
    DROP TRIGGER statement for a trigger the catalog says exists. */
module Auditor {
  import opened JavaText
  import opened Config

  /** The enum type that tags each audit row with its operation. */
  const EnumTypeName := "pgauditor_operation"

  /** The sequence that numbers audit rows across all audit tables. */
  const SequenceName := "pgauditor_audit_seq"

  /** The front of every audit table name. */
  const AuditPrefix := "aud_"

  /** The row operations a trigger fires on. */
  datatype Operation = Insert | Update | Delete

  /** What follows the audit table name in each trigger's name. */
  function TriggerSuffix(op: Operation): (s: string)
    ensures |s| == 15 && s[0] == '_' && s[7..] == "_trigger"
  {
    match op
    case Insert => "_insert_trigger"
    case Update => "_update_trigger"
    case Delete => "_delete_trigger"
  }

  /** The audit table name: the prefix and the table part of the configured
      name, or "null" when no table was set. */
  function AuditTableName(tableOnly: Option<string>): (n: string)
    ensures |AuditPrefix| <= |n| && n[..|AuditPrefix|] == AuditPrefix
  {
    AuditPrefix + JavaStr(tableOnly)
  }

  /** The trigger fired by op: the audit table name and the operation's suffix. */
  function TriggerName(auditTable: string, op: Operation): (n: string)
    ensures |n| == |auditTable| + 15 && n[..|auditTable|] == auditTable
  {
    auditTable + TriggerSuffix(op)
  }

  /** A trigger name determines both its audit table and its operation, so the
      three triggers of one table are pairwise distinct, and no trigger of one
      table is named like a trigger of another. */
  lemma {:induction false} TriggerNameInjective(a: string, op: Operation, b: string, op': Operation)
    requires TriggerName(a, op) == TriggerName(b, op')
    ensures a == b && op == op'
  {
    var n := TriggerName(a, op);
    assert |a| == |b|;
    assert a == n[..|a|] == b;
    assert TriggerSuffix(op) == n[|a|..] == TriggerSuffix(op');
    assert TriggerSuffix(op)[1] == TriggerSuffix(op')[1];
  }

  /** The audit table's name depends only on the part of the raw name after
      its last '.', never on the schema: "s.t" names the same audit table
      whatever s is. */
  lemma {:induction false} AuditNameIgnoresSchema(s1: string, s2: string, t: string)
    requires '.' !in t
    ensures AuditTableName(Some(SplitTable(s1 + "." + t).tableOnly))
            == AuditTableName(Some(SplitTable(s2 + "." + t).tableOnly))
            == AuditPrefix + "." + t
  {
    assert AuditTableName(Some("." + t)) == AuditPrefix + "." + t;
    assert SplitTable(s1 + "." + t).tableOnly == "." + t by { SplitAfterSchema(s1, t); }
    assert SplitTable(s2 + "." + t).tableOnly == "." + t by { SplitAfterSchema(s2, t); }
  }

  lemma {:induction false} SplitAfterSchema(s: string, t: string)
    requires '.' !in t
    ensures SplitTable(s + "." + t).tableOnly == "." + t
  {
    if s == [] {
      assert s + "." + t == "." + t;
      assert !HasSchemaPrefix("." + t);
    } else {
      SplitSchemaAndTable(s, t);
    }
  }

  /** The raw table "public.user" gets the audit table "aud_.user", not
      "aud_user": the dot stays. */
  lemma AuditNamePublicUser()
    ensures AuditTableName(Some(SplitTable(PublicSchema + "." + "user").tableOnly))
            == AuditPrefix + "." + "user"
  {
    SplitAfterSchema(PublicSchema, "user");
  }

  /** The fixed enum-type and sequence names never coincide with an audit
      table or trigger name, whatever the table. */
  lemma {:induction false} FixedNamesDistinct(tableOnly: Option<string>, op: Operation)
    ensures var audit := AuditTableName(tableOnly);
            EnumTypeName != audit && SequenceName != audit
            && EnumTypeName != TriggerName(audit, op) && SequenceName != TriggerName(audit, op)
            && EnumTypeName != SequenceName
  {
    var audit := AuditTableName(tableOnly);
    assert audit[0] == 'a' && EnumTypeName[0] == 'p' && SequenceName[0] == 'p';
    assert TriggerName(audit, op)[0] == 'a';
    assert EnumTypeName[10] != SequenceName[10];
  }

  /** The existence query dropTriggerIfExists sends, before its parameters
      are bound. */
  const TriggerExistsSql :=
    "SELECT EXISTS ( " +
    "      SELECT 1 " +
    "      FROM pg_trigger trg " +
    "        INNER JOIN pg_class tbl ON trg.tgrelid = tbl.oid " +
    "        INNER JOIN pg_namespace n ON tbl.relnamespace = n.oid " +
    "      WHERE trg.tgname = ? " +
    "        AND trg.tgrelid = ?::regclass " +
    "        AND n.nspname = ?" +
    "  );"

  /** A prepared statement: the SQL text and its positional parameters. */
  datatype Query = Query(sql: string, parameters: seq<string>)

  /** The existence query for one trigger: parameter 1 is the trigger name,
      2 the table name, 3 the schema name. */
  function TriggerExistsQuery(triggerName: string, schemaName: string, tableName: string): Query {
    Query(TriggerExistsSql, [triggerName, tableName, schemaName])
  }

  /** The failure raised when the query returns no row. */
  datatype SqlError = SqlException(message: string)

  const NoRowError := SqlException("Failed to execute query: " + TriggerExistsSql)

  /** The statement printed for an existing trigger. */
  function DropTriggerStatement(triggerName: string, schemaName: string, tableName: string): (s: string)
    ensures |s| > 0 && s[|s| - 1] == ';'
  {
    "DROP TRIGGER IF EXISTS " + triggerName + " ON " + schemaName + "." + tableName + ";"
  }

  /** Different triggers on the same table give different statements. */
  lemma {:induction false} DropTriggerStatementInjective(t1: string, t2: string, schemaName: string, tableName: string)
    requires DropTriggerStatement(t1, schemaName, tableName) == DropTriggerStatement(t2, schemaName, tableName)
    ensures t1 == t2
  {
    var head := "DROP TRIGGER IF EXISTS ";
    var tail := " ON " + schemaName + "." + tableName + ";";
    var s1 := DropTriggerStatement(t1, schemaName, tableName);
    assert s1 == head + t1 + tail;
    assert DropTriggerStatement(t2, schemaName, tableName) == head + t2 + tail;
    assert |t1| == |t2|;
    assert t1 == s1[|head|..|head| + |t1|] == t2;
  }

  /** The lines dropTriggerIfExists prints, given what the existence query
      returned: None when it returned no row. */
  function DropTriggerLines(exists_: Option<bool>, triggerName: string, schemaName: string, tableName: string)
    : (r: Result<seq<string>, SqlError>)
    ensures r.Err? <==> exists_.None?
    ensures r.Err? ==> r.error == NoRowError
    ensures r.Ok? ==> |r.value| <= 1
    ensures r.Ok? ==> (r.value != [] <==> exists_ == Some(true))
    ensures r.Ok? && r.value != [] ==> r.value[0] == DropTriggerStatement(triggerName, schemaName, tableName)
  {
    match exists_
    case None => Err(NoRowError)
    case Some(true) => Ok([DropTriggerStatement(triggerName, schemaName, tableName)])
    case Some(false) => Ok([])
  }

  /** The three triggers of one table, dropped in turn, print three different
      statements when all three exist. */
  lemma {:induction false} DropAllTriggersDistinct(auditTable: string, schemaName: string, tableName: string)
    ensures var lines := seq(3, i requires 0 <= i < 3 =>
              DropTriggerStatement(TriggerName(auditTable, [Insert, Update, Delete][i]), schemaName, tableName));
            forall i, j :: 0 <= i < j < 3 ==> lines[i] != lines[j]
  {
    var ops := [Insert, Update, Delete];
    forall i, j | 0 <= i < j < 3
      ensures DropTriggerStatement(TriggerName(auditTable, ops[i]), schemaName, tableName)
              != DropTriggerStatement(TriggerName(auditTable, ops[j]), schemaName, tableName)
    {
      if DropTriggerStatement(TriggerName(auditTable, ops[i]), schemaName, tableName)
         == DropTriggerStatement(TriggerName(auditTable, ops[j]), schemaName, tableName) {
        DropTriggerStatementInjective(TriggerName(auditTable, ops[i]), TriggerName(auditTable, ops[j]), schemaName, tableName);
        TriggerNameInjective(auditTable, ops[i], auditTable, ops[j]);
      }
    }
  }

  /** The process's standard output, as the lines printed so far. */
  class Console {
    var lines: seq<string>

    constructor ()
      ensures lines == []
    {
      lines := [];
    }

    method PrintLine(line: string)
      modifies this
      ensures lines == old(lines) + [line]
    {
      lines := lines + [line];
    }
  }

  class PgAuditor {
    const config: Configuration
    const auditTableName: string
    const insertTriggerName: string
    const updateTriggerName: string
    const deleteTriggerName: string

    /** Derives the generated names once, from the table part of the
        configuration as it is at construction time. */
    constructor (config: Configuration)
      ensures this.config == config
      ensures auditTableName == AuditTableName(config.tableOnly)
      ensures config.TableFieldsAgree() && config.rawTable.Some? ==>
                auditTableName == AuditPrefix + SplitTable(config.rawTable.value).tableOnly
      ensures insertTriggerName == TriggerName(auditTableName, Insert)
      ensures updateTriggerName == TriggerName(auditTableName, Update)
      ensures deleteTriggerName == TriggerName(auditTableName, Delete)
    {
      this.config := config;
      var audit := AuditPrefix + JavaStr(config.tableOnly);
      auditTableName := audit;
      insertTriggerName := audit + "_insert_trigger";
      updateTriggerName := audit + "_update_trigger";
      deleteTriggerName := audit + "_delete_trigger";
    }

    /** Asks the catalog whether the trigger exists on schemaName.tableName
        and prints its DROP statement if so; fails, printing nothing, when the
        query returns no row. */
    method DropTriggerIfExists(out: Console, catalog: Query -> Option<bool>,
                               triggerName: string, schemaName: string, tableName: string)
      returns (error: Option<SqlError>)
      modifies out
      ensures var r := DropTriggerLines(catalog(TriggerExistsQuery(triggerName, schemaName, tableName)),
                                        triggerName, schemaName, tableName);
              match r
              case Ok(printed) => error.None? && out.lines == old(out.lines) + printed
              case Err(e) => error == Some(e) && out.lines == old(out.lines)
    {
      var row := catalog(Query(TriggerExistsSql, [triggerName, tableName, schemaName]));
      if row.None? {
        return Some(NoRowError);
      }
      if row.value {
        out.PrintLine("DROP TRIGGER IF EXISTS " + triggerName + " ON " + schemaName + "." + tableName + ";");
      }
      error := None;
    }
  }
}
