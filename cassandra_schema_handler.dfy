/**
 * Schema management for Cassandra: the text of the keyspace, table and index statements, the
 * order in which they are issued, and the validation of an existing table against the metadata.
 * The statements that would be executed are returned as a sequence, in issue order.
 */
module CassandraSchemaHandler {
  import opened Wrappers
  import opened Text
  import opened Metadata
  import opened CassandraUtils

  /**
   * The store-manager settings the handler consults: the auto-create switches, the
   * multitenancy tenant id, the naming factory, the type manager and the schema (keyspace)
   * chosen for each class.
   */
  datatype StoreManager = StoreManager(
    autoCreateTables: bool,
    autoCreateColumns: bool,
    autoCreateConstraints: bool,
    tenantId: Option<string>,
    naming: NamingFactory,
    typeManager: TypeManager,
    schemaNameForClass: ClassMeta -> Option<string>)

  /**
   * What the driver reports about existing tables (queried by schema and table name): whether
   * the table exists, and the rows of `system.schema_columns` describing its columns.
   */
  datatype Catalogue = Catalogue(
    tableExists: (Option<string>, string) -> bool,
    columnRows: (Option<string>, string) -> seq<Row>)

  /** `[schema.]table`. */
  function Qualified(schema: Option<string>, table: string): string {
    match schema
    case None => table
    case Some(s) => s + "." + table
  }

  // ---------------------------------------------------------------------------------------
  // Keyspace and index statements
  // ---------------------------------------------------------------------------------------

  const DefaultReplication: string := "{'class': 'SimpleStrategy', 'replication_factor' : 3}"

  /**
   * `createSchema`: the replication property (the SimpleStrategy default without properties,
   * "null" when the property is absent) and, when `durable_writes` is given and is not "true"
   * (ignoring case), durable writes switched off.
   */
  function CreateKeyspaceCql(schemaName: string, props: Option<map<string, string>>): (r: string)
    ensures |r| >= 30 && r[..30] == "CREATE KEYSPACE IF NOT EXISTS "
  {
    var replication := match props
      case None => DefaultReplication
      case Some(p) => OrNull(if "replication" in p then Some(p["replication"]) else None);
    var durable := props.Some? && "durable_writes" in props.value && !EqualsIgnoreCase(props.value["durable_writes"], "true");
    "CREATE KEYSPACE IF NOT EXISTS " + schemaName + " WITH replication = " + replication
      + (if durable then " AND durable_writes=false" else "")
  }

  /**
   * The keyspace statement for every input: the SimpleStrategy default without properties;
   * otherwise the given replication text, or "null" when it is absent, followed by
   * " AND durable_writes=false" exactly when `durable_writes` is given and is not "true"
   * ignoring case.
   */
  lemma CreateKeyspaceCqlCases(schemaName: string, props: Option<map<string, string>>)
    ensures props.None? ==>
      CreateKeyspaceCql(schemaName, props) == "CREATE KEYSPACE IF NOT EXISTS " + schemaName + " WITH replication = " + DefaultReplication
    ensures props.Some? && "replication" !in props.value ==>
      CreateKeyspaceCql(schemaName, props) == "CREATE KEYSPACE IF NOT EXISTS " + schemaName + " WITH replication = null"
        + (if "durable_writes" in props.value && !EqualsIgnoreCase(props.value["durable_writes"], "true") then " AND durable_writes=false" else "")
    ensures props.Some? && "replication" in props.value ==>
      CreateKeyspaceCql(schemaName, props) == "CREATE KEYSPACE IF NOT EXISTS " + schemaName + " WITH replication = " + props.value["replication"]
        + (if "durable_writes" in props.value && !EqualsIgnoreCase(props.value["durable_writes"], "true") then " AND durable_writes=false" else "")
  {
    if props.Some? && "replication" !in props.value {
      Text.AppendAssoc("CREATE KEYSPACE IF NOT EXISTS " + schemaName + " WITH replication = ", "null",
        if "durable_writes" in props.value && !EqualsIgnoreCase(props.value["durable_writes"], "true") then " AND durable_writes=false" else "");
    }
  }

  /** `deleteSchema`: the keyspace name follows the fixed prefix, and can be read back from it. */
  function DropKeyspaceCql(schemaName: string): (r: string)
    ensures |r| == 24 + |schemaName| && r[..24] == "DROP KEYSPACE IF EXISTS " && r[24..] == schemaName
  {
    "DROP KEYSPACE IF EXISTS " + schemaName
  }

  predicate IsCreateIndex(s: string) {
    |s| >= 13 && s[..13] == "CREATE INDEX "
  }

  predicate IsCreateTable(s: string) {
    |s| >= 13 && s[..13] == "CREATE TABLE "
  }

  /** `createIndexCQL`: `CREATE INDEX <idx> ON [<schema>.]<table> (<col>)`. */
  function CreateIndexCql(indexName: string, schema: Option<string>, table: string, column: string): string {
    "CREATE INDEX " + indexName + " ON " + Qualified(schema, table) + " (" + column + ")"
  }

  /** Every index statement starts with `CREATE INDEX `. */
  lemma CreateIndexCqlIsIndex(indexName: string, schema: Option<string>, table: string, column: string)
    ensures IsCreateIndex(CreateIndexCql(indexName, schema, table, column))
  {
    var r := CreateIndexCql(indexName, schema, table, column);
    assert r == "CREATE INDEX " + (indexName + " ON " + Qualified(schema, table) + " (" + column + ")");
  }

  /** The schema prefix is present exactly when a schema is given. */
  lemma CreateIndexCqlSchemaPrefix(indexName: string, schema: Option<string>, table: string, column: string)
    ensures schema.Some? ==>
      (CreateIndexCql(indexName, schema, table, column) == "CREATE INDEX " + indexName + " ON " + schema.value + "." + table + " (" + column + ")")
    ensures schema.None? ==>
      (CreateIndexCql(indexName, schema, table, column) == "CREATE INDEX " + indexName + " ON " + table + " (" + column + ")")
  {
  }

  /** An index statement is never a table statement. */
  lemma IndexIsNotTable(s: string)
    ensures !(IsCreateIndex(s) && IsCreateTable(s))
  {
    if IsCreateIndex(s) {
      assert s[7] == "CREATE INDEX "[7];
    }
  }

  // ---------------------------------------------------------------------------------------
  // Column definitions
  // ---------------------------------------------------------------------------------------

  /** The separator written before a column: none while `firstCol` holds, a comma after. */
  function Sep(firstCol: bool): string {
    if firstCol then "" else ","
  }

  /** A list of definitions appended one by one under the `firstCol` rule: joined by commas, or each preceded by one. */
  function Separated(firstCol: bool, defs: seq<string>): string {
    if firstCol then Join(",", defs) else PrefixEach(",", defs)
  }

  /** Appending two lists under the `firstCol` rule: the flag still holds after the first only if it added nothing. */
  lemma SeparatedAppend(firstCol: bool, xs: seq<string>, ys: seq<string>)
    ensures Separated(firstCol, xs + ys) == Separated(firstCol, xs) + Separated(firstCol && xs == [], ys)
  {
    if firstCol {
      if xs == [] {
        assert xs + ys == ys;
      } else {
        JoinAppend(",", xs, ys);
      }
    } else {
      PrefixEachAppend(",", xs, ys);
    }
  }

  /** A single definition under the `firstCol` rule. */
  lemma SeparatedOne(firstCol: bool, d: string)
    ensures Separated(firstCol, [d]) == Sep(firstCol) + d
  {
    if firstCol {
      assert "" + d == d;
    } else {
      PrefixEachOne(",", d);
    }
  }

  /** Appends one definition under the `firstCol` rule. */
  method AppendColumn(columns0: string, firstCol0: bool, def: string) returns (columns: string)
    ensures columns == columns0 + (Sep(firstCol0) + def)
  {
    columns := columns0;
    if !firstCol0 {
      columns := columns + ",";
      AppendAssoc(columns0, ",", def);
    }
    columns := columns + def;
  }

  /** The members an embedded chain's last member expands to. */
  function EmbeddedMembersOf(chain: seq<Member>): seq<Member>
    requires chain != []
  {
    chain[|chain| - 1].embeddedMembers
  }

  /**
   * The column definitions `createSchemaForEmbeddedMember` appends for the chain `chain`:
   * nested single-valued embedded members recurse with the chain extended by that member,
   * embedded collections and maps add nothing, every other member with a resolved type adds
   * one column named from `chain` (not including the member itself).
   */
  function EmbeddedDefs(sm: StoreManager, chain: seq<Member>): seq<string>
    requires chain != []
    decreases chain[|chain| - 1], 1, 0
  {
    EmbeddedDefsUpTo(sm, chain, |EmbeddedMembersOf(chain)|)
  }

  function EmbeddedDefsUpTo(sm: StoreManager, chain: seq<Member>, n: nat): seq<string>
    requires chain != [] && n <= |EmbeddedMembersOf(chain)|
    decreases chain[|chain| - 1], 0, n
  {
    if n == 0 then []
    else EmbeddedDefsUpTo(sm, chain, n - 1) + EmbeddedMemberDefs(sm, chain, EmbeddedMembersOf(chain)[n - 1])
  }

  function EmbeddedMemberDefs(sm: StoreManager, chain: seq<Member>, m: Member): seq<string>
    requires chain != [] && m in EmbeddedMembersOf(chain)
    decreases chain[|chain| - 1], 0, 0
  {
    if m.relation != NoRelation && m.embedded then
      if IsRelationSingleValued(m.relation) then
        assert (chain + [m])[|chain + [m]| - 1] == m;
        EmbeddedDefs(sm, chain + [m])
      else []
    else
      match ColumnTypeForMember(m, sm.typeManager).typeName
      case None => []
      case Some(t) => [sm.naming.embeddedColumnName(chain) + " " + t]
  }

  /** Embedded collections and maps inside an embedded object add no column. */
  lemma EmbeddedCollectionAddsNothing(sm: StoreManager, chain: seq<Member>, m: Member)
    requires chain != [] && m in EmbeddedMembersOf(chain)
    requires m.relation != NoRelation && m.embedded && !IsRelationSingleValued(m.relation)
    ensures EmbeddedMemberDefs(sm, chain, m) == []
  {
  }

  /** One member of the embedded loop appends the text of its own definitions. */
  lemma EmbeddedDefsStep(sm: StoreManager, chain: seq<Member>, i: nat, sep: string)
    requires chain != [] && i < |EmbeddedMembersOf(chain)|
    ensures PrefixEach(sep, EmbeddedDefsUpTo(sm, chain, i + 1)) ==
      PrefixEach(sep, EmbeddedDefsUpTo(sm, chain, i)) + PrefixEach(sep, EmbeddedMemberDefs(sm, chain, EmbeddedMembersOf(chain)[i]))
    ensures EmbeddedDefsUpTo(sm, chain, i + 1) != [] <==>
      EmbeddedDefsUpTo(sm, chain, i) != [] || EmbeddedMemberDefs(sm, chain, EmbeddedMembersOf(chain)[i]) != []
  {
    var prev := EmbeddedDefsUpTo(sm, chain, i);
    var step := EmbeddedMemberDefs(sm, chain, EmbeddedMembersOf(chain)[i]);
    assert EmbeddedDefsUpTo(sm, chain, i + 1) == prev + step;
    assert |prev + step| == |prev| + |step|;
    PrefixEachAppend(sep, prev, step);
  }

  /**
   * `createSchemaForEmbeddedMember`: the text appended for the embedded chain `mmds`, each
   * column preceded by a comma unless `firstCol` held on entry (the flag is never cleared
   * inside), and whether any column was added.
   */
  method CreateSchemaForEmbeddedMember(sm: StoreManager, mmds: seq<Member>, firstCol: bool) returns (appended: string, columnAdded: bool)
    requires mmds != []
    ensures appended == PrefixEach(Sep(firstCol), EmbeddedDefs(sm, mmds))
    ensures columnAdded <==> EmbeddedDefs(sm, mmds) != []
    decreases mmds[|mmds| - 1], 1
  {
    appended := "";
    columnAdded := false;
    var members := mmds[|mmds| - 1].embeddedMembers;
    for i := 0 to |members|
      invariant appended == PrefixEach(Sep(firstCol), EmbeddedDefsUpTo(sm, mmds, i))
      invariant columnAdded <==> EmbeddedDefsUpTo(sm, mmds, i) != []
    {
      var text, added := EmbeddedMemberColumns(sm, mmds, members[i], firstCol);
      EmbeddedDefsStep(sm, mmds, i, Sep(firstCol));
      appended := appended + text;
      if added {
        columnAdded := true;
      }
    }
  }

  /** The body of the loop of `createSchemaForEmbeddedMember` for one member of the embedded class. */
  method EmbeddedMemberColumns(sm: StoreManager, mmds: seq<Member>, mmd: Member, firstCol: bool) returns (text: string, added: bool)
    requires mmds != [] && mmd in EmbeddedMembersOf(mmds)
    ensures text == PrefixEach(Sep(firstCol), EmbeddedMemberDefs(sm, mmds, mmd))
    ensures added <==> EmbeddedMemberDefs(sm, mmds, mmd) != []
    decreases mmds[|mmds| - 1], 0
  {
    text, added := "", false;
    if mmd.relation != NoRelation && mmd.embedded {
      if IsRelationSingleValued(mmd.relation) {
        assert (mmds + [mmd])[|mmds + [mmd]| - 1] == mmd;
        text, added := CreateSchemaForEmbeddedMember(sm, mmds + [mmd], firstCol);
      }
    } else {
      var cassandraType := ColumnTypeForMember(mmd, sm.typeManager).typeName;
      if cassandraType.Some? {
        var colName := sm.naming.embeddedColumnName(mmds);
        var column := colName + " " + cassandraType.value;
        PrefixEachOne(Sep(firstCol), column);
        text := AppendColumn("", firstCol, column);
        added := true;
      }
    }
  }

  /** The columns of one member of the class itself: an embedded single-valued member expands, any other embedded member adds nothing. */
  function MemberDefs(sm: StoreManager, m: Member): seq<string> {
    if m.embedded then
      (if IsRelationSingleValued(m.relation) then EmbeddedDefs(sm, [m]) else [])
    else
      match ColumnTypeForMember(m, sm.typeManager).typeName
      case None => []
      case Some(t) => [sm.naming.columnName(m) + " " + t]
  }

  /** All member column definitions of the first `n` members, in member-position order. */
  function ColumnDefsUpTo(sm: StoreManager, cmd: ClassMeta, n: nat): seq<string>
    requires n <= |cmd.members|
  {
    if n == 0 then [] else ColumnDefsUpTo(sm, cmd, n - 1) + MemberDefs(sm, cmd.members[n - 1])
  }

  /** The member part of a `CREATE TABLE` under construction and its `firstCol` flag. */
  datatype TableBuild = TableBuild(columns: string, firstCol: bool)

  /**
   * One member of the loop of `createSchemaForClass`: its definitions are appended under the
   * `firstCol` rule; an embedded member clears `firstCol` only if it added a column, a plain
   * member clears it only when it is member 0 (`first`), whether or not its type resolved.
   */
  function MemberStep(sm: StoreManager, b: TableBuild, m: Member, first: bool): TableBuild {
    var defs := MemberDefs(sm, m);
    TableBuild(b.columns + PrefixEach(Sep(b.firstCol), defs),
      if m.embedded then b.firstCol && defs == [] else if first then false else b.firstCol)
  }

  /** One member of the table loop only appends to the column text, and never sets `firstCol` again. */
  lemma MemberStepAppends(sm: StoreManager, b: TableBuild, m: Member, first: bool)
    ensures var r := MemberStep(sm, b, m, first);
      |b.columns| <= |r.columns| && r.columns[..|b.columns|] == b.columns && (r.firstCol ==> b.firstCol)
  {
  }

  /** The member loop of `createSchemaForClass` after `n` members. */
  function MembersBuilt(sm: StoreManager, cmd: ClassMeta, n: nat): TableBuild
    requires n <= |cmd.members|
  {
    if n == 0 then TableBuild("", true)
    else MemberStep(sm, MembersBuilt(sm, cmd, n - 1), cmd.members[n - 1], n - 1 == 0)
  }

  /** The body of the member loop of `createSchemaForClass` for one member: its columns. */
  method AppendMember(sm: StoreManager, columns0: string, firstCol0: bool, mmd: Member, first: bool) returns (columns: string, firstCol: bool)
    ensures TableBuild(columns, firstCol) == MemberStep(sm, TableBuild(columns0, firstCol0), mmd, first)
  {
    columns, firstCol := columns0, firstCol0;
    if mmd.embedded {
      if IsRelationSingleValued(mmd.relation) {
        var embedded, colAdded := CreateSchemaForEmbeddedMember(sm, [mmd], firstCol);
        columns := columns + embedded;
        if firstCol && colAdded {
          firstCol := false;
        }
      } else {
        assert columns0 + PrefixEach(Sep(firstCol0), []) == columns0;
      }
    } else {
      var cassandraType := ColumnTypeForMember(mmd, sm.typeManager).typeName;
      if cassandraType.Some? {
        var column := sm.naming.columnName(mmd) + " " + cassandraType.value;
        PrefixEachOne(Sep(firstCol), column);
        columns := AppendColumn(columns, firstCol, column);
      } else {
        assert columns0 + PrefixEach(Sep(firstCol0), []) == columns0;
      }
      if first {
        firstCol := false;
      }
    }
  }

  /** One member-level index statement, when constraints are auto-created and the member has an index. */
  function MemberIndexCql(sm: StoreManager, m: Member, schema: Option<string>, table: string): seq<string> {
    if sm.autoCreateConstraints && m.index.Some? then
      [CreateIndexCql(sm.naming.memberIndexName(m, m.index.value), schema, table, sm.naming.columnName(m))]
    else []
  }

  /** The member-level index statements of the first `n` members. */
  function MemberIndexCqls(sm: StoreManager, cmd: ClassMeta, schema: Option<string>, table: string, n: nat): seq<string>
    requires n <= |cmd.members|
  {
    if n == 0 then [] else MemberIndexCqls(sm, cmd, schema, table, n - 1) + MemberIndexCql(sm, cmd.members[n - 1], schema, table)
  }

  lemma {:induction false} MemberIndexCqlsAreIndexes(sm: StoreManager, cmd: ClassMeta, schema: Option<string>, table: string, n: nat)
    requires n <= |cmd.members|
    ensures forall i :: 0 <= i < |MemberIndexCqls(sm, cmd, schema, table, n)| ==> IsCreateIndex(MemberIndexCqls(sm, cmd, schema, table, n)[i])
  {
    if n > 0 {
      MemberIndexCqlsAreIndexes(sm, cmd, schema, table, n - 1);
      var m := cmd.members[n - 1];
      if sm.autoCreateConstraints && m.index.Some? {
        CreateIndexCqlIsIndex(sm.naming.memberIndexName(m, m.index.value), schema, table, sm.naming.columnName(m));
      }
    }
  }

  /** The member-level index statement of one member, added to `stmts0`. */
  method AppendMemberIndex(sm: StoreManager, mmd: Member, schema: Option<string>, table: string, stmts0: seq<string>) returns (stmts: seq<string>)
    ensures stmts == stmts0 + MemberIndexCql(sm, mmd, schema, table)
  {
    stmts := stmts0;
    if sm.autoCreateConstraints && mmd.index.Some? {
      var colName := sm.naming.columnName(mmd);
      var idxName := sm.naming.memberIndexName(mmd, mmd.index.value);
      stmts := stmts + [CreateIndexCql(idxName, schema, table, colName)];
    } else {
      assert stmts0 + [] == stmts0;
    }
  }

  /** The member loop of `createSchemaForClass` when the table is created. */
  method AppendMemberColumns(sm: StoreManager, cmd: ClassMeta, schema: Option<string>, table: string)
    returns (columns: string, firstCol: bool, constraintStmts: seq<string>)
    ensures TableBuild(columns, firstCol) == MembersBuilt(sm, cmd, |cmd.members|)
    ensures constraintStmts == MemberIndexCqls(sm, cmd, schema, table, |cmd.members|)
  {
    columns := "";
    firstCol := true;
    constraintStmts := [];
    for i := 0 to |cmd.members|
      invariant TableBuild(columns, firstCol) == MembersBuilt(sm, cmd, i)
      invariant constraintStmts == MemberIndexCqls(sm, cmd, schema, table, i)
    {
      var mmd := cmd.members[i];
      columns, firstCol := AppendMember(sm, columns, firstCol, mmd, i == 0);
      constraintStmts := AppendMemberIndex(sm, mmd, schema, table, constraintStmts);
    }
  }

  /** Whether a multitenancy column is added: a tenant id is configured and the class does not disable it. */
  predicate MultitenancyEnabled(sm: StoreManager, cmd: ClassMeta) {
    sm.tenantId.Some? && !EqualsIgnoreCaseOpt("true", cmd.multitenancyDisable)
  }

  function VersionDefs(sm: StoreManager, cmd: ClassMeta): seq<string> {
    if IsVersioned(cmd.version) && cmd.version.value.fieldName.None? then
      [sm.naming.surrogateColumnName(cmd, VersionColumn) + " " + (if cmd.version.value.strategy == DateTime then "timestamp" else "int")]
    else []
  }

  function DiscriminatorDefs(sm: StoreManager, cmd: ClassMeta): seq<string> {
    if cmd.hasDiscriminator then [sm.naming.surrogateColumnName(cmd, DiscriminatorColumn) + " varchar"] else []
  }

  function MultitenancyDefs(sm: StoreManager, cmd: ClassMeta): seq<string> {
    if MultitenancyEnabled(sm, cmd) then [sm.naming.surrogateColumnName(cmd, MultitenancyColumn) + " varchar"] else []
  }

  /** Version (when the class is versioned with no version field), discriminator and multitenancy columns, in that order. */
  function SurrogateDefs(sm: StoreManager, cmd: ClassMeta): seq<string> {
    VersionDefs(sm, cmd) + DiscriminatorDefs(sm, cmd) + MultitenancyDefs(sm, cmd)
  }

  /** The primary-key positions name members of the class. */
  predicate ValidPk(cmd: ClassMeta) {
    forall i :: 0 <= i < |cmd.pkPositions| ==> cmd.pkPositions[i] < |cmd.members|
  }

  /** The column names of the first `n` primary-key members, in pk-position order. */
  function PkColumnNames(sm: StoreManager, cmd: ClassMeta, n: nat): seq<string>
    requires ValidPk(cmd) && n <= |cmd.pkPositions|
  {
    if n == 0 then [] else PkColumnNames(sm, cmd, n - 1) + [sm.naming.columnName(cmd.members[cmd.pkPositions[n - 1]])]
  }

  /** Datastore identity: a `bigint` id column and the key on it; application identity: the key on the pk columns. */
  function PkDefs(sm: StoreManager, cmd: ClassMeta): seq<string>
    requires ValidPk(cmd)
  {
    match cmd.identity
    case DatastoreIdentity =>
      var col := sm.naming.surrogateColumnName(cmd, DatastoreIdColumn);
      [col + " bigint", "PRIMARY KEY (" + col + ")"]
    case ApplicationIdentity => ["PRIMARY KEY (" + Join(",", PkColumnNames(sm, cmd, |cmd.pkPositions|)) + ")"]
    case NondurableIdentity => []
  }

  /** The column list of the `CREATE TABLE` statement: member columns, then surrogate columns and the key. */
  function TableColumns(sm: StoreManager, cmd: ClassMeta): string
    requires ValidPk(cmd)
  {
    var b := MembersBuilt(sm, cmd, |cmd.members|);
    b.columns + Separated(b.firstCol, SurrogateDefs(sm, cmd) + PkDefs(sm, cmd))
  }

  /** `CREATE TABLE [<schema>.]<table> (<columns>)`. */
  function CreateTableCql(schema: Option<string>, table: string, columns: string): string {
    "CREATE TABLE " + Qualified(schema, table) + " (" + columns + ")"
  }

  /** Every table statement starts with `CREATE TABLE `. */
  lemma CreateTableCqlIsTable(schema: Option<string>, table: string, columns: string)
    ensures IsCreateTable(CreateTableCql(schema, table, columns))
  {
    var r := CreateTableCql(schema, table, columns);
    assert r == "CREATE TABLE " + (Qualified(schema, table) + " (" + columns + ")");
  }

  /** Once a plain first member has a column, every later column is comma-separated. */
  lemma {:induction false} MembersBuiltJoined(sm: StoreManager, cmd: ClassMeta, n: nat)
    requires 1 <= n <= |cmd.members|
    requires !cmd.members[0].embedded && ColumnTypeForMember(cmd.members[0], sm.typeManager).typeName.Some?
    ensures MembersBuilt(sm, cmd, n) == TableBuild(Join(",", ColumnDefsUpTo(sm, cmd, n)), false)
    ensures ColumnDefsUpTo(sm, cmd, n) != []
  {
    if n == 1 {
      MembersBuiltFirst(sm, cmd);
    } else {
      MembersBuiltJoined(sm, cmd, n - 1);
      MembersBuiltJoinedStep(sm, cmd, n);
    }
  }

  lemma MembersBuiltFirst(sm: StoreManager, cmd: ClassMeta)
    requires 1 <= |cmd.members|
    requires !cmd.members[0].embedded && ColumnTypeForMember(cmd.members[0], sm.typeManager).typeName.Some?
    ensures MembersBuilt(sm, cmd, 1) == TableBuild(Join(",", ColumnDefsUpTo(sm, cmd, 1)), false)
    ensures ColumnDefsUpTo(sm, cmd, 1) != []
  {
    var m := cmd.members[0];
    var d := sm.naming.columnName(m) + " " + ColumnTypeForMember(m, sm.typeManager).typeName.value;
    assert MemberDefs(sm, m) == [d];
    assert ColumnDefsUpTo(sm, cmd, 1) == [] + [d];
    assert [] + [d] == [d];
    PrefixEachOne("", d);
    assert "" + ("" + d) == d;
  }

  lemma MembersBuiltJoinedStep(sm: StoreManager, cmd: ClassMeta, n: nat)
    requires 2 <= n <= |cmd.members|
    requires MembersBuilt(sm, cmd, n - 1) == TableBuild(Join(",", ColumnDefsUpTo(sm, cmd, n - 1)), false)
    requires ColumnDefsUpTo(sm, cmd, n - 1) != []
    ensures MembersBuilt(sm, cmd, n) == TableBuild(Join(",", ColumnDefsUpTo(sm, cmd, n)), false)
    ensures ColumnDefsUpTo(sm, cmd, n) != []
  {
    JoinAppend(",", ColumnDefsUpTo(sm, cmd, n - 1), MemberDefs(sm, cmd.members[n - 1]));
  }

  /**
   * When the first member is a plain member whose type resolves, the column list is well
   * formed: all member columns, surrogate columns and the key clause joined by commas.
   */
  lemma CreateTableWellFormed(sm: StoreManager, cmd: ClassMeta)
    requires ValidPk(cmd) && cmd.members != []
    requires !cmd.members[0].embedded && ColumnTypeForMember(cmd.members[0], sm.typeManager).typeName.Some?
    ensures TableColumns(sm, cmd) == Join(",", ColumnDefsUpTo(sm, cmd, |cmd.members|) + (SurrogateDefs(sm, cmd) + PkDefs(sm, cmd)))
  {
    MembersBuiltJoined(sm, cmd, |cmd.members|);
    JoinAppend(",", ColumnDefsUpTo(sm, cmd, |cmd.members|), SurrogateDefs(sm, cmd) + PkDefs(sm, cmd));
  }

  /** A class without members: surrogate columns and the key clause are joined by commas. */
  lemma CreateTableNoMembers(sm: StoreManager, cmd: ClassMeta)
    requires ValidPk(cmd) && cmd.members == []
    ensures TableColumns(sm, cmd) == Join(",", SurrogateDefs(sm, cmd) + PkDefs(sm, cmd))
  {
  }

  /**
   * The `i == 0` rule: when member 0 is a plain member whose type does not resolve, `firstCol`
   * is cleared anyway and the next column starts with a comma right after the parenthesis.
   */
  lemma UnresolvedFirstMemberLeadsWithComma(sm: StoreManager, cmd: ClassMeta)
    requires |cmd.members| >= 2
    requires !cmd.members[0].embedded && ColumnTypeForMember(cmd.members[0], sm.typeManager).typeName.None?
    requires !cmd.members[1].embedded && ColumnTypeForMember(cmd.members[1], sm.typeManager).typeName.Some?
    ensures MembersBuilt(sm, cmd, 2).columns ==
      "," + (sm.naming.columnName(cmd.members[1]) + " " + ColumnTypeForMember(cmd.members[1], sm.typeManager).typeName.value)
  {
    var b0 := MembersBuilt(sm, cmd, 0);
    var b1 := MembersBuilt(sm, cmd, 1);
    assert MemberDefs(sm, cmd.members[0]) == [];
    assert b1 == MemberStep(sm, b0, cmd.members[0], true);
    assert b1 == TableBuild("", false);
    var d := sm.naming.columnName(cmd.members[1]) + " " + ColumnTypeForMember(cmd.members[1], sm.typeManager).typeName.value;
    assert MemberDefs(sm, cmd.members[1]) == [d];
    PrefixEachOne(",", d);
  }

  /**
   * The embedded helper never clears its `firstCol`: when the first member is embedded, its
   * columns are appended with no separator between them.
   */
  lemma EmbeddedFirstMemberUnseparated(sm: StoreManager, cmd: ClassMeta)
    requires cmd.members != [] && cmd.members[0].embedded && IsRelationSingleValued(cmd.members[0].relation)
    ensures MembersBuilt(sm, cmd, 1).columns == Concat(EmbeddedDefs(sm, [cmd.members[0]]))
  {
    PrefixEachEmpty(EmbeddedDefs(sm, [cmd.members[0]]));
  }

  /** `columns` is `columns0` followed by `done` under the `firstCol` rule, and `firstCol` is the flag after them. */
  ghost predicate SeparatedFrom(columns0: string, firstCol0: bool, done: seq<string>, columns: string, firstCol: bool) {
    columns == columns0 + Separated(firstCol0, done) && firstCol == (firstCol0 && done == [])
  }

  lemma SeparatedFromStart(columns0: string, firstCol0: bool)
    ensures SeparatedFrom(columns0, firstCol0, [], columns0, firstCol0)
  {
    assert Separated(firstCol0, []) == "";
  }

  /** One more definition appended under the `firstCol` rule. */
  lemma SeparatedFromStep(columns0: string, firstCol0: bool, done: seq<string>, columns: string, firstCol: bool, def: string)
    requires SeparatedFrom(columns0, firstCol0, done, columns, firstCol)
    ensures SeparatedFrom(columns0, firstCol0, done + [def], columns + (Sep(firstCol) + def), false)
  {
    SeparatedAppend(firstCol0, done, [def]);
    SeparatedOne(firstCol, def);
    AppendAssoc(columns0, Separated(firstCol0, done), Sep(firstCol) + def);
  }

  /** The version, discriminator and multitenancy columns of `createSchemaForClass`. */
  method AppendSurrogateColumns(sm: StoreManager, cmd: ClassMeta, columns0: string, firstCol0: bool)
    returns (columns: string, firstCol: bool)
    ensures columns == columns0 + Separated(firstCol0, SurrogateDefs(sm, cmd))
    ensures firstCol == (firstCol0 && SurrogateDefs(sm, cmd) == [])
  {
    columns := columns0;
    firstCol := firstCol0;
    ghost var done: seq<string> := [];
    SeparatedFromStart(columns0, firstCol0);
    if IsVersioned(cmd.version) && cmd.version.value.fieldName.None? {
      var cassandraType := if cmd.version.value.strategy == DateTime then "timestamp" else "int";
      var def := sm.naming.surrogateColumnName(cmd, VersionColumn) + " " + cassandraType;
      SeparatedFromStep(columns0, firstCol0, done, columns, firstCol, def);
      columns := AppendColumn(columns, firstCol, def);
      firstCol := false;
      done := done + [def];
    }
    assert done == VersionDefs(sm, cmd);
    if cmd.hasDiscriminator {
      var def := sm.naming.surrogateColumnName(cmd, DiscriminatorColumn) + " varchar";
      SeparatedFromStep(columns0, firstCol0, done, columns, firstCol, def);
      columns := AppendColumn(columns, firstCol, def);
      firstCol := false;
      done := done + [def];
    }
    assert done == VersionDefs(sm, cmd) + DiscriminatorDefs(sm, cmd);
    if MultitenancyEnabled(sm, cmd) {
      var def := sm.naming.surrogateColumnName(cmd, MultitenancyColumn) + " varchar";
      SeparatedFromStep(columns0, firstCol0, done, columns, firstCol, def);
      columns := AppendColumn(columns, firstCol, def);
      firstCol := false;
      done := done + [def];
    }
    assert done == SurrogateDefs(sm, cmd);
  }

  /** The primary-key part of `createSchemaForClass`. */
  method AppendPrimaryKey(sm: StoreManager, cmd: ClassMeta, columns0: string, firstCol: bool) returns (columns: string)
    requires ValidPk(cmd)
    ensures columns == columns0 + Separated(firstCol, PkDefs(sm, cmd))
  {
    columns := columns0;
    if cmd.identity == DatastoreIdentity {
      var colName := sm.naming.surrogateColumnName(cmd, DatastoreIdColumn);
      var keyDef := "PRIMARY KEY (" + colName + ")";
      assert PkDefs(sm, cmd) == [colName + " bigint"] + [keyDef];
      SeparatedAppend(firstCol, [colName + " bigint"], [keyDef]);
      SeparatedOne(firstCol, colName + " bigint");
      SeparatedOne(false, keyDef);
      columns := AppendColumn(columns, firstCol, colName + " bigint");
      columns := AppendColumn(columns, false, keyDef);
      AppendAssoc(columns0, Sep(firstCol) + (colName + " bigint"), Sep(false) + keyDef);
    } else if cmd.identity == ApplicationIdentity {
      var keyList := PrimaryKeyList(sm, cmd);
      SeparatedOne(firstCol, "PRIMARY KEY (" + keyList + ")");
      columns := AppendColumn(columns, firstCol, "PRIMARY KEY (" + keyList + ")");
    } else {
      assert columns0 + "" == columns0;
    }
  }

  /** The loop of `createSchemaForClass` over the primary-key positions: their column names separated by commas. */
  method PrimaryKeyList(sm: StoreManager, cmd: ClassMeta) returns (keyList: string)
    requires ValidPk(cmd)
    ensures keyList == Join(",", PkColumnNames(sm, cmd, |cmd.pkPositions|))
  {
    keyList := "";
    for j := 0 to |cmd.pkPositions|
      invariant keyList == Join(",", PkColumnNames(sm, cmd, j))
    {
      var name := sm.naming.columnName(cmd.members[cmd.pkPositions[j]]);
      if j == 0 {
        assert PkColumnNames(sm, cmd, 1) == [name];
      } else {
        JoinAppend(",", PkColumnNames(sm, cmd, j), [name]);
        PrefixEachOne(",", name);
      }
      keyList := AppendColumn(keyList, j == 0, name);
    }
  }

  /** The number of class-level indexes among the first `n` with exactly one column. */
  function SingleColumnIndexCount(indexes: seq<IndexMeta>, n: nat): nat
    requires n <= |indexes|
  {
    if n == 0 then 0 else SingleColumnIndexCount(indexes, n - 1) + (if |indexes[n - 1].columnNames| == 1 then 1 else 0)
  }

  /** The exception a class-level index naming no column raises (on `colNames[0]`). */
  const IndexWithoutColumn: string := "ArrayIndexOutOfBoundsException"

  /**
   * The class-level index statements of the first `n` indexes: none for an index of more than one
   * column, one for a single-column index; an index naming no column fails.
   */
  function ClassIndexCqls(sm: StoreManager, cmd: ClassMeta, schema: Option<string>, table: string, n: nat): Result<seq<string>, string>
    requires n <= |cmd.indexes|
  {
    if n == 0 then Success([])
    else
      match ClassIndexCqls(sm, cmd, schema, table, n - 1)
      case Failure(e) => Failure(e)
      case Success(prev) =>
        var idx := cmd.indexes[n - 1];
        if |idx.columnNames| > 1 then Success(prev)
        else if |idx.columnNames| == 0 then Failure(IndexWithoutColumn)
        else Success(prev + [CreateIndexCql(sm.naming.classIndexName(cmd, idx, n - 1), schema, table, idx.columnNames[0])])
  }

  /**
   * The class-level indexes fail exactly when one of them names no column; otherwise there is
   * one statement per single-column index, each a `CREATE INDEX`.
   */
  lemma {:induction false} ClassIndexCqlsOutcome(sm: StoreManager, cmd: ClassMeta, schema: Option<string>, table: string, n: nat)
    requires n <= |cmd.indexes|
    ensures ClassIndexCqls(sm, cmd, schema, table, n).Success? <==> forall i :: 0 <= i < n ==> |cmd.indexes[i].columnNames| > 0
    ensures ClassIndexCqls(sm, cmd, schema, table, n).Failure? ==> ClassIndexCqls(sm, cmd, schema, table, n).error == IndexWithoutColumn
    ensures var r := ClassIndexCqls(sm, cmd, schema, table, n);
      r.Success? ==> |r.value| == SingleColumnIndexCount(cmd.indexes, n) && forall i :: 0 <= i < |r.value| ==> IsCreateIndex(r.value[i])
  {
    if n > 0 {
      ClassIndexCqlsOutcome(sm, cmd, schema, table, n - 1);
      var idx := cmd.indexes[n - 1];
      if |idx.columnNames| == 1 {
        CreateIndexCqlIsIndex(sm.naming.classIndexName(cmd, idx, n - 1), schema, table, idx.columnNames[0]);
      }
    }
  }

  /** The class-level index loop of `createSchemaForClass`. */
  method ClassIndexStatements(sm: StoreManager, cmd: ClassMeta, schema: Option<string>, table: string) returns (r: Result<seq<string>, string>)
    ensures r == ClassIndexCqls(sm, cmd, schema, table, |cmd.indexes|)
  {
    var stmts: seq<string> := [];
    for i := 0 to |cmd.indexes|
      invariant ClassIndexCqls(sm, cmd, schema, table, i) == Success(stmts)
    {
      var idxmd := cmd.indexes[i];
      var colNames := idxmd.columnNames;
      if |colNames| > 1 {
        // composite indexes are not supported: skipped
      } else if |colNames| == 0 {
        FailureStays(sm, cmd, schema, table, i + 1, |cmd.indexes|);
        return Failure(IndexWithoutColumn);
      } else {
        stmts := stmts + [CreateIndexCql(sm.naming.classIndexName(cmd, idxmd, i), schema, table, colNames[0])];
      }
    }
    r := Success(stmts);
  }

  /** Once a class-level index has failed, later indexes change nothing. */
  lemma {:induction false} FailureStays(sm: StoreManager, cmd: ClassMeta, schema: Option<string>, table: string, n: nat, m: nat)
    requires n <= m <= |cmd.indexes|
    requires ClassIndexCqls(sm, cmd, schema, table, n).Failure?
    ensures ClassIndexCqls(sm, cmd, schema, table, m) == ClassIndexCqls(sm, cmd, schema, table, n)
    decreases m - n
  {
    if m > n {
      FailureStays(sm, cmd, schema, table, n, m - 1);
    }
  }

  /** The table statement of `createSchemaForClass`: issued only when tables are auto-created and the table is absent. */
  function TableStatements(sm: StoreManager, cmd: ClassMeta, tableExists: bool): seq<string>
    requires ValidPk(cmd)
  {
    if sm.autoCreateTables && !tableExists then
      [CreateTableCql(sm.schemaNameForClass(cmd), sm.naming.tableName(cmd), TableColumns(sm, cmd))]
    else []
  }

  /** The member-level index statements: with a new table, and with an existing one when columns are auto-created. */
  function MemberIndexStatements(sm: StoreManager, cmd: ClassMeta, tableExists: bool): seq<string> {
    if (sm.autoCreateTables && !tableExists) || (tableExists && sm.autoCreateColumns) then
      MemberIndexCqls(sm, cmd, sm.schemaNameForClass(cmd), sm.naming.tableName(cmd), |cmd.members|)
    else []
  }

  /**
   * The statements `createSchemaForClass` issues: the table statement, then the member-level
   * index statements, then (when constraints are auto-created) the class-level ones; or the
   * exception a class-level index raises before anything is issued.
   */
  function SchemaStatements(sm: StoreManager, cmd: ClassMeta, tableExists: bool): (r: Result<seq<string>, string>)
    requires ValidPk(cmd)
    ensures r.Failure? ==> sm.autoCreateConstraints && |cmd.indexes| > 0
  {
    var classIndexes :=
      if sm.autoCreateConstraints then ClassIndexCqls(sm, cmd, sm.schemaNameForClass(cmd), sm.naming.tableName(cmd), |cmd.indexes|)
      else Success([]);
    match classIndexes
    case Failure(e) => Failure(e)
    case Success(ci) => Success(TableStatements(sm, cmd, tableExists) + (MemberIndexStatements(sm, cmd, tableExists) + ci))
  }

  /** Where the statements come from: a table, then index statements only. */
  lemma StatementKinds(tables: seq<string>, indexes: seq<string>)
    requires |tables| <= 1 && forall i :: 0 <= i < |tables| ==> IsCreateTable(tables[i])
    requires forall i :: 0 <= i < |indexes| ==> IsCreateIndex(indexes[i])
    ensures forall i :: 0 <= i < |tables + indexes| ==> (IsCreateTable((tables + indexes)[i]) <==> i == 0 && tables != [])
    ensures forall i :: 0 <= i < |tables + indexes| ==> (IsCreateIndex((tables + indexes)[i]) <==> !(i == 0 && tables != []))
  {
    forall i | 0 <= i < |tables + indexes|
      ensures IsCreateTable((tables + indexes)[i]) <==> i == 0 && tables != []
      ensures IsCreateIndex((tables + indexes)[i]) <==> !(i == 0 && tables != [])
    {
      IndexIsNotTable((tables + indexes)[i]);
    }
  }

  /** All index statements of a class, member level and class level, are `CREATE INDEX`. */
  lemma IndexStatementsAreIndexes(sm: StoreManager, cmd: ClassMeta, tableExists: bool, ci: seq<string>)
    requires forall i :: 0 <= i < |ci| ==> IsCreateIndex(ci[i])
    ensures forall i :: 0 <= i < |MemberIndexStatements(sm, cmd, tableExists) + ci| ==> IsCreateIndex((MemberIndexStatements(sm, cmd, tableExists) + ci)[i])
  {
    MemberIndexCqlsAreIndexes(sm, cmd, sm.schemaNameForClass(cmd), sm.naming.tableName(cmd), |cmd.members|);
    var mi := MemberIndexStatements(sm, cmd, tableExists);
    forall i | 0 <= i < |mi + ci|
      ensures IsCreateIndex((mi + ci)[i])
    {
      if i < |mi| {
        assert (mi + ci)[i] == mi[i];
      } else {
        assert (mi + ci)[i] == ci[i - |mi|];
      }
    }
  }

  /**
   * At most one `CREATE TABLE` is issued for a class, first, and exactly when tables are
   * auto-created and the table does not exist; every other statement is a `CREATE INDEX`.
   */
  lemma OneCreateTableIffAbsent(sm: StoreManager, cmd: ClassMeta, tableExists: bool)
    requires ValidPk(cmd) && SchemaStatements(sm, cmd, tableExists).Success?
    ensures var out := SchemaStatements(sm, cmd, tableExists).value;
      forall i :: 0 <= i < |out| ==> (IsCreateTable(out[i]) <==> i == 0 && sm.autoCreateTables && !tableExists)
    ensures var out := SchemaStatements(sm, cmd, tableExists).value;
      forall i :: 0 <= i < |out| ==> (IsCreateIndex(out[i]) <==> !(i == 0 && sm.autoCreateTables && !tableExists))
  {
    var schema := sm.schemaNameForClass(cmd);
    var table := sm.naming.tableName(cmd);
    var tables := TableStatements(sm, cmd, tableExists);
    var ci := if sm.autoCreateConstraints then ClassIndexCqls(sm, cmd, schema, table, |cmd.indexes|).value else [];
    if sm.autoCreateConstraints {
      ClassIndexCqlsOutcome(sm, cmd, schema, table, |cmd.indexes|);
    }
    IndexStatementsAreIndexes(sm, cmd, tableExists, ci);
    if tables != [] {
      CreateTableCqlIsTable(schema, table, TableColumns(sm, cmd));
    }
    StatementKinds(tables, MemberIndexStatements(sm, cmd, tableExists) + ci);
  }

  /** A class whose table exists gets index statements only, and none at all unless columns or constraints are auto-created. */
  lemma ExistingTableOnlyIndexes(sm: StoreManager, cmd: ClassMeta)
    requires ValidPk(cmd) && SchemaStatements(sm, cmd, true).Success?
    ensures forall i :: 0 <= i < |SchemaStatements(sm, cmd, true).value| ==> IsCreateIndex(SchemaStatements(sm, cmd, true).value[i])
    ensures !sm.autoCreateColumns && !sm.autoCreateConstraints ==> SchemaStatements(sm, cmd, true).value == []
  {
    OneCreateTableIffAbsent(sm, cmd, true);
  }

  /** The `CREATE TABLE` branch of `createSchemaForClass`: the statement, and the member-level index statements collected on the way. */
  method CreateTableStatement(sm: StoreManager, cmd: ClassMeta, schema: Option<string>, table: string) returns (stmt: string, memberIndexes: seq<string>)
    requires ValidPk(cmd)
    ensures stmt == CreateTableCql(schema, table, TableColumns(sm, cmd))
    ensures memberIndexes == MemberIndexCqls(sm, cmd, schema, table, |cmd.members|)
  {
    var columns, firstCol;
    columns, firstCol, memberIndexes := AppendMemberColumns(sm, cmd, schema, table);
    var withSurrogates, firstAfter := AppendSurrogateColumns(sm, cmd, columns, firstCol);
    var allColumns := AppendPrimaryKey(sm, cmd, withSurrogates, firstAfter);
    SeparatedAppend(firstCol, SurrogateDefs(sm, cmd), PkDefs(sm, cmd));
    AppendAssoc(columns, Separated(firstCol, SurrogateDefs(sm, cmd)), Separated(firstAfter, PkDefs(sm, cmd)));
    stmt := "CREATE TABLE " + Qualified(schema, table) + " (" + allColumns + ")";
  }

  /** The member loop of `createSchemaForClass` for an existing table: only member-level index statements. */
  method MemberIndexLoop(sm: StoreManager, cmd: ClassMeta, schema: Option<string>, table: string) returns (stmts: seq<string>)
    ensures stmts == MemberIndexCqls(sm, cmd, schema, table, |cmd.members|)
  {
    stmts := [];
    for i := 0 to |cmd.members|
      invariant stmts == MemberIndexCqls(sm, cmd, schema, table, i)
    {
      stmts := AppendMemberIndex(sm, cmd.members[i], schema, table, stmts);
    }
  }

  /**
   * `createSchemaForClass`: the statements issued for one class, or the exception raised by a
   * class-level index that names no column (raised before anything is issued).
   */
  method CreateSchemaForClass(sm: StoreManager, cmd: ClassMeta, tableExists: bool) returns (r: Result<seq<string>, string>)
    requires ValidPk(cmd)
    ensures r == SchemaStatements(sm, cmd, tableExists)
  {
    var schema := sm.schemaNameForClass(cmd);
    var table := sm.naming.tableName(cmd);
    var tableStmts: seq<string> := [];
    var constraintStmts: seq<string> := [];
    if sm.autoCreateTables && !tableExists {
      var stmt;
      stmt, constraintStmts := CreateTableStatement(sm, cmd, schema, table);
      tableStmts := [stmt];
    } else if tableExists && sm.autoCreateColumns {
      constraintStmts := MemberIndexLoop(sm, cmd, schema, table);
    }
    assert tableStmts == TableStatements(sm, cmd, tableExists);
    assert constraintStmts == MemberIndexStatements(sm, cmd, tableExists);
    if sm.autoCreateConstraints {
      var classIndexes := ClassIndexStatements(sm, cmd, schema, table);
      if classIndexes.Failure? {
        return Failure(classIndexes.error);
      }
      constraintStmts := constraintStmts + classIndexes.value;
    } else {
      assert constraintStmts + [] == constraintStmts;
    }
    r := Success(tableStmts + constraintStmts);
  }


  /**
   * `createSchemaForClasses` after the first `n` classes: the statements issued so far, and the
   * exception that stopped processing, if any. Classes without metadata are skipped.
   */
  function SchemaForClasses(sm: StoreManager, cat: Catalogue, classes: seq<Option<ClassMeta>>, n: nat): (seq<string>, Option<string>)
    requires n <= |classes|
    requires forall i :: 0 <= i < |classes| && classes[i].Some? ==> ValidPk(classes[i].value)
  {
    if n == 0 then ([], None)
    else
      var (out, err) := SchemaForClasses(sm, cat, classes, n - 1);
      if err.Some? || classes[n - 1].None? then (out, err)
      else
        var cmd := classes[n - 1].value;
        match SchemaStatements(sm, cmd, cat.tableExists(sm.schemaNameForClass(cmd), sm.naming.tableName(cmd)))
        case Failure(e) => (out, Some(e))
        case Success(stmts) => (out + stmts, None)
  }

  /** `createSchemaForClasses`: each class in turn; an exception stops the remaining classes. */
  method CreateSchemaForClasses(sm: StoreManager, cat: Catalogue, classes: seq<Option<ClassMeta>>) returns (out: seq<string>, err: Option<string>)
    requires forall i :: 0 <= i < |classes| && classes[i].Some? ==> ValidPk(classes[i].value)
    ensures (out, err) == SchemaForClasses(sm, cat, classes, |classes|)
  {
    out := [];
    err := None;
    var i := 0;
    while i < |classes| && err.None?
      invariant 0 <= i <= |classes|
      invariant (out, err) == SchemaForClasses(sm, cat, classes, i)
      invariant err.Some? ==> (out, err) == SchemaForClasses(sm, cat, classes, |classes|)
    {
      if classes[i].Some? {
        var cmd := classes[i].value;
        var tableExists := cat.tableExists(sm.schemaNameForClass(cmd), sm.naming.tableName(cmd));
        var r := CreateSchemaForClass(sm, cmd, tableExists);
        match r {
          case Failure(e) =>
            err := Some(e);
            StoppedStaysStopped(sm, cat, classes, i + 1, |classes|);
          case Success(stmts) =>
            out := out + stmts;
        }
      }
      i := i + 1;
    }
  }

  /** Once an exception is raised, later classes change nothing. */
  lemma {:induction false} StoppedStaysStopped(sm: StoreManager, cat: Catalogue, classes: seq<Option<ClassMeta>>, n: nat, m: nat)
    requires n <= m <= |classes|
    requires forall i :: 0 <= i < |classes| && classes[i].Some? ==> ValidPk(classes[i].value)
    requires SchemaForClasses(sm, cat, classes, n).1.Some?
    ensures SchemaForClasses(sm, cat, classes, m) == SchemaForClasses(sm, cat, classes, n)
    decreases m - n
  {
    if m > n {
      StoppedStaysStopped(sm, cat, classes, n, m - 1);
    }
  }


  // ---------------------------------------------------------------------------------------
  // Deleting the schema of classes
  // ---------------------------------------------------------------------------------------

  /** `k` statements `DROP INDEX ` (the index name is never appended). */
  function DropIndexes(k: nat): seq<string> {
    if k == 0 then [] else DropIndexes(k - 1) + ["DROP INDEX "]
  }

  lemma {:induction false} DropIndexesAll(k: nat)
    ensures |DropIndexes(k)| == k
    ensures forall i :: 0 <= i < k ==> DropIndexes(k)[i] == "DROP INDEX "
  {
    if k > 0 {
      DropIndexesAll(k - 1);
    }
  }

  /** The number of members among the first `n` that declare an index. */
  function IndexedMemberCount(cmd: ClassMeta, n: nat): nat
    requires n <= |cmd.members|
  {
    if n == 0 then 0 else IndexedMemberCount(cmd, n - 1) + (if cmd.members[n - 1].index.Some? then 1 else 0)
  }

  /** The member-level `DROP INDEX` statements of the first `n` members. */
  function MemberDropIndexes(cmd: ClassMeta, n: nat): seq<string>
    requires n <= |cmd.members|
  {
    if n == 0 then []
    else MemberDropIndexes(cmd, n - 1) + (if cmd.members[n - 1].index.Some? then ["DROP INDEX "] else [])
  }

  /** One `DROP INDEX ` per indexed member. */
  lemma {:induction false} MemberDropIndexesCount(cmd: ClassMeta, n: nat)
    requires n <= |cmd.members|
    ensures MemberDropIndexes(cmd, n) == DropIndexes(IndexedMemberCount(cmd, n))
  {
    if n > 0 {
      MemberDropIndexesCount(cmd, n - 1);
      if cmd.members[n - 1].index.None? {
        assert MemberDropIndexes(cmd, n) == MemberDropIndexes(cmd, n - 1) + [];
      }
    }
  }

  /** For a class whose table exists: class-level `DROP INDEX`, member-level `DROP INDEX`, then `DROP TABLE`. */
  function DropStatements(sm: StoreManager, cmd: ClassMeta, tableExists: bool): (r: seq<string>)
    ensures r != [] <==> tableExists
    ensures r != [] ==> r[|r| - 1] == "DROP TABLE " + Qualified(sm.schemaNameForClass(cmd), sm.naming.tableName(cmd))
  {
    if !tableExists then []
    else
      DropIndexes(|cmd.indexes|) + MemberDropIndexes(cmd, |cmd.members|)
        + ["DROP TABLE " + Qualified(sm.schemaNameForClass(cmd), sm.naming.tableName(cmd))]
  }

  /** The drop statements of one class named in the input (none without metadata). */
  function DropStatementsFor(sm: StoreManager, cat: Catalogue, c: Option<ClassMeta>): seq<string> {
    match c
    case None => []
    case Some(cmd) => DropStatements(sm, cmd, cat.tableExists(sm.schemaNameForClass(cmd), sm.naming.tableName(cmd)))
  }

  /** The drop statements of the first `n` classes. */
  function DropStatementsUpTo(sm: StoreManager, cat: Catalogue, classes: seq<Option<ClassMeta>>, n: nat): seq<string>
    requires n <= |classes|
  {
    if n == 0 then [] else DropStatementsUpTo(sm, cat, classes, n - 1) + DropStatementsFor(sm, cat, classes[n - 1])
  }

  /**
   * Nothing is dropped for an absent table; otherwise the table is dropped last, after one
   * `DROP INDEX` per class-level index and per indexed member.
   */
  lemma DropOrdering(sm: StoreManager, cmd: ClassMeta, tableExists: bool)
    ensures !tableExists ==> DropStatements(sm, cmd, tableExists) == []
    ensures tableExists ==> var d := DropStatements(sm, cmd, tableExists);
      |d| == |cmd.indexes| + IndexedMemberCount(cmd, |cmd.members|) + 1
      && d[|d| - 1] == "DROP TABLE " + Qualified(sm.schemaNameForClass(cmd), sm.naming.tableName(cmd))
      && forall i :: 0 <= i < |d| - 1 ==> d[i] == "DROP INDEX "
  {
    if tableExists {
      var a := DropIndexes(|cmd.indexes|);
      var b := MemberDropIndexes(cmd, |cmd.members|);
      DropIndexesAll(|cmd.indexes|);
      MemberDropIndexesCount(cmd, |cmd.members|);
      DropIndexesAll(IndexedMemberCount(cmd, |cmd.members|));
      var d := DropStatements(sm, cmd, tableExists);
      forall i | 0 <= i < |d| - 1
        ensures d[i] == "DROP INDEX "
      {
        if i < |a| {
          assert d[i] == a[i];
        } else {
          assert d[i] == b[i - |a|];
        }
      }
    }
  }

  /** The class-level `DROP INDEX` loop of `deleteSchemaForClasses`. */
  method DropClassIndexes(count: nat, out0: seq<string>) returns (out: seq<string>)
    ensures out == out0 + DropIndexes(count)
  {
    out := out0;
    for i := 0 to count
      invariant out == out0 + DropIndexes(i)
    {
      AppendAssoc(out0, DropIndexes(i), ["DROP INDEX "]);
      out := out + ["DROP INDEX "];
    }
  }

  /** The member-level `DROP INDEX` loop of `deleteSchemaForClasses`. */
  method DropMemberIndexes(cmd: ClassMeta, out0: seq<string>) returns (out: seq<string>)
    ensures out == out0 + MemberDropIndexes(cmd, |cmd.members|)
  {
    out := out0;
    for i := 0 to |cmd.members|
      invariant out == out0 + MemberDropIndexes(cmd, i)
    {
      if cmd.members[i].index.Some? {
        AppendAssoc(out0, MemberDropIndexes(cmd, i), ["DROP INDEX "]);
        out := out + ["DROP INDEX "];
      } else {
        assert MemberDropIndexes(cmd, i + 1) == MemberDropIndexes(cmd, i) + [];
      }
    }
  }

  lemma DropStatementsSplit(sm: StoreManager, cmd: ClassMeta, out0: seq<string>)
    ensures out0 + DropStatements(sm, cmd, true) ==
      out0 + DropIndexes(|cmd.indexes|) + MemberDropIndexes(cmd, |cmd.members|) + ["DROP TABLE " + Qualified(sm.schemaNameForClass(cmd), sm.naming.tableName(cmd))]
  {
    var a := DropIndexes(|cmd.indexes|);
    var b := MemberDropIndexes(cmd, |cmd.members|);
    var c := ["DROP TABLE " + Qualified(sm.schemaNameForClass(cmd), sm.naming.tableName(cmd))];
    AppendAssoc(out0, a + b, c);
    AppendAssoc(out0, a, b);
  }

  /** One class of `deleteSchemaForClasses`: when its table exists, its indexes and then the table are dropped. */
  method DeleteSchemaForClass(sm: StoreManager, cat: Catalogue, c: Option<ClassMeta>, out0: seq<string>) returns (out: seq<string>)
    ensures out == out0 + DropStatementsFor(sm, cat, c)
  {
    out := out0;
    if c.Some? {
      var cmd := c.value;
      var schema := sm.schemaNameForClass(cmd);
      var tableName := sm.naming.tableName(cmd);
      if cat.tableExists(schema, tableName) {
        out := DropClassIndexes(|cmd.indexes|, out);
        out := DropMemberIndexes(cmd, out);
        out := out + ["DROP TABLE " + Qualified(schema, tableName)];
        DropStatementsSplit(sm, cmd, out0);
        return;
      }
    }
    assert out0 + [] == out0;
  }

  /** `deleteSchemaForClasses`: the statements issued, class by class. */
  method DeleteSchemaForClasses(sm: StoreManager, cat: Catalogue, classes: seq<Option<ClassMeta>>) returns (out: seq<string>)
    ensures out == DropStatementsUpTo(sm, cat, classes, |classes|)
  {
    out := [];
    for c := 0 to |classes|
      invariant out == DropStatementsUpTo(sm, cat, classes, c)
    {
      out := DeleteSchemaForClass(sm, cat, classes[c], out);
    }
  }

  // ---------------------------------------------------------------------------------------
  // Column details and validation
  // ---------------------------------------------------------------------------------------

  /** A row of `system.schema_columns`: column name, index name (null when unindexed), validator class. */
  datatype Row = Row(columnName: string, indexName: Option<string>, validator: string)

  /** `ColumnDetails`: name, index name and the CQL type name recovered from the validator. */
  datatype ColumnDetails = ColumnDetails(name: string, indexName: Option<string>, typeName: Option<string>)

  /** The validator class to CQL type mapping, first match wins; unknown validators give no type. */
  function TypeNameForValidator(validator: string): (r: Option<string>)
    ensures r.Some? ==> r.value in {"bigint", "int", "double", "float", "boolean", "varchar"}
    ensures Contains(validator, "LongType") ==> r == Some("bigint")
    ensures r.None? <==> (!Contains(validator, "LongType") && !Contains(validator, "Int32Type") && !Contains(validator, "DoubleType")
      && !Contains(validator, "FloatType") && !Contains(validator, "BooleanType") && !Contains(validator, "UTF8"))
  {
    if Contains(validator, "LongType") then Some("bigint")
    else if Contains(validator, "Int32Type") then Some("int")
    else if Contains(validator, "DoubleType") then Some("double")
    else if Contains(validator, "FloatType") then Some("float")
    else if Contains(validator, "BooleanType") then Some("boolean")
    else if Contains(validator, "UTF8") then Some("varchar")
    else None
  }

  /** The column map built from the rows: keyed by column name, a later row for the same name replacing an earlier one. */
  function ColumnsOf(rows: seq<Row>): (cols: map<string, ColumnDetails>)
    ensures forall k :: k in cols <==> exists i :: 0 <= i < |rows| && rows[i].columnName == k
    ensures forall k :: k in cols ==> cols[k].name == k
  {
    if rows == [] then map[]
    else
      var last := rows[|rows| - 1];
      var prev := ColumnsOf(rows[..|rows| - 1]);
      assert forall i :: 0 <= i < |rows| - 1 ==> rows[..|rows| - 1][i] == rows[i];
      prev[last.columnName := ColumnDetails(last.columnName, last.indexName, TypeNameForValidator(last.validator))]
  }

  /** Each column's details come from the last row naming it. */
  lemma {:induction false} ColumnsOfLastRowWins(rows: seq<Row>, i: nat)
    requires i < |rows|
    requires forall j :: i < j < |rows| ==> rows[j].columnName != rows[i].columnName
    ensures ColumnsOf(rows)[rows[i].columnName] == ColumnDetails(rows[i].columnName, rows[i].indexName, TypeNameForValidator(rows[i].validator))
    decreases |rows|
  {
    if i < |rows| - 1 {
      var prefix := rows[..|rows| - 1];
      assert prefix[i] == rows[i];
      assert forall j :: i < j < |prefix| ==> prefix[j] == rows[j];
      ColumnsOfLastRowWins(prefix, i);
    }
  }

  /** The map-building loop of `getColumnDetailsForTable` (the query that yields the rows is not modelled). */
  method ColumnDetailsForTable(rows: seq<Row>) returns (cols: map<string, ColumnDetails>)
    ensures cols == ColumnsOf(rows)
  {
    cols := map[];
    for i := 0 to |rows|
      invariant cols == ColumnsOf(rows[..i])
    {
      var row := rows[i];
      var typeName := TypeNameForValidator(row.validator);
      assert rows[..i + 1][..i] == rows[..i];
      cols := cols[row.columnName := ColumnDetails(row.columnName, row.indexName, typeName)];
    }
    assert rows[..|rows|] == rows;
  }

  /** What validation reports, one entry per logged error. */
  datatype Problem =
    | MissingTable(className: string, table: string)
    | MissingColumn(table: string, column: string)
    | TypeMismatch(table: string, column: string, found: Option<string>, required: Option<string>)
    | ColumnCountMismatch(table: string, expected: nat, actual: nat)
    | MissingIndex(table: string, column: string)

  /** The problems that mark validation as failed; type mismatches and missing indexes are only logged. */
  predicate Fatal(p: Problem) {
    p.MissingTable? || p.MissingColumn? || p.ColumnCountMismatch?
  }

  predicate NoFatal(ps: seq<Problem>) {
    forall i :: 0 <= i < |ps| ==> !Fatal(ps[i])
  }

  lemma NoFatalAppend(a: seq<Problem>, b: seq<Problem>)
    ensures NoFatal(a + b) <==> NoFatal(a) && NoFatal(b)
  {
    if NoFatal(a) && NoFatal(b) {
      forall i | 0 <= i < |a + b|
        ensures !Fatal((a + b)[i])
      {
        if i >= |a| {
          assert (a + b)[i] == b[i - |a|];
        }
      }
    }
    if NoFatal(a + b) {
      forall i | 0 <= i < |a|
        ensures !Fatal(a[i])
      {
        assert a[i] == (a + b)[i];
      }
      forall i | 0 <= i < |b|
        ensures !Fatal(b[i])
      {
        assert b[i] == (a + b)[|a| + i];
      }
    }
  }

  /** The problems logged so far and the `success` flag. */
  datatype Validation = Validation(problems: seq<Problem>, success: bool)

  /** `w` extends `v` with new problems, and fails iff `v` failed or a new problem is fatal. */
  predicate Extends(v: Validation, w: Validation) {
    |w.problems| >= |v.problems| && w.problems[..|v.problems|] == v.problems
    && (w.success <==> v.success && NoFatal(w.problems[|v.problems|..]))
  }

  /** Logging problems `ps` (fatal or not) keeps the extension property. */
  lemma ExtendsLog(u: Validation, v: Validation, ps: seq<Problem>, success: bool)
    requires Extends(u, v)
    requires success <==> v.success && NoFatal(ps)
    ensures Extends(u, Validation(v.problems + ps, success))
  {
    var w := Validation(v.problems + ps, success);
    assert w.problems[..|u.problems|] == u.problems;
    assert w.problems[|u.problems|..] == v.problems[|u.problems|..] + ps;
    NoFatalAppend(v.problems[|u.problems|..], ps);
  }

  /** The result of the member column checks: the state and the (lower-cased) columns found. */
  datatype ColumnCheck = ColumnCheck(state: Validation, found: set<string>)

  /**
   * The member loop of `validateSchema` over the first `n` members: a column missing (looked up
   * lower-cased) is a failure; a present column with a type other than the required one is only
   * reported.
   */
  function MemberColumnChecks(sm: StoreManager, table: string, cols: map<string, ColumnDetails>, members: seq<Member>, n: nat, v: Validation): (r: ColumnCheck)
    requires n <= |members|
    ensures Extends(v, r.state)
    ensures forall i :: |v.problems| <= i < |r.state.problems| ==> r.state.problems[i].MissingColumn? || r.state.problems[i].TypeMismatch?
    ensures forall k :: k in r.found ==> k in cols
  {
    if n == 0 then
      assert v.problems[|v.problems|..] == [];
      ColumnCheck(v, {})
    else
      var prev := MemberColumnChecks(sm, table, cols, members, n - 1, v);
      var s := prev.state;
      var m := members[n - 1];
      var name := sm.naming.columnName(m);
      var key := ToLower(name);
      if key in cols then
        var required := ColumnTypeForMember(m, sm.typeManager).typeName;
        var logged := if required == cols[key].typeName then [] else [TypeMismatch(table, name, cols[key].typeName, required)];
        ExtendsLog(v, s, logged, s.success);
        ColumnCheck(Validation(s.problems + logged, s.success), prev.found + {key})
      else
        assert Fatal([MissingColumn(table, name)][0]);
        ExtendsLog(v, s, [MissingColumn(table, name)], false);
        ColumnCheck(Validation(s.problems + [MissingColumn(table, name)], false), prev.found)
  }

  /** Every member whose column is absent from the table is reported missing. */
  lemma {:induction false} MissingColumnsReported(sm: StoreManager, table: string, cols: map<string, ColumnDetails>, members: seq<Member>, n: nat, v: Validation)
    requires n <= |members|
    ensures forall i :: 0 <= i < n && ToLower(sm.naming.columnName(members[i])) !in cols ==>
      MissingColumn(table, sm.naming.columnName(members[i])) in MemberColumnChecks(sm, table, cols, members, n, v).state.problems
  {
    if n > 0 {
      MissingColumnsReported(sm, table, cols, members, n - 1, v);
      var prev := MemberColumnChecks(sm, table, cols, members, n - 1, v).state.problems;
      var now := MemberColumnChecks(sm, table, cols, members, n, v).state.problems;
      assert |now| >= |prev| && now[..|prev|] == prev;
      forall i | 0 <= i < n - 1 && ToLower(sm.naming.columnName(members[i])) !in cols
        ensures MissingColumn(table, sm.naming.columnName(members[i])) in now
      {
        var p := MissingColumn(table, sm.naming.columnName(members[i]));
        var j :| 0 <= j < |prev| && prev[j] == p;
        assert now[j] == p;
      }
    }
  }

  /** A single-column index (class level or member level) whose column is missing or unindexed. */
  function IndexProblem(table: string, cols: map<string, ColumnDetails>, column: string): seq<Problem> {
    var key := ToLower(column);
    if key !in cols || cols[key].indexName.None? then [MissingIndex(table, column)] else []
  }

  /** The class-level index checks of the first `n` indexes (only single-column indexes are checked). */
  function ClassIndexProblems(table: string, cols: map<string, ColumnDetails>, indexes: seq<IndexMeta>, n: nat): (r: seq<Problem>)
    requires n <= |indexes|
    ensures forall i :: 0 <= i < |r| ==> r[i].MissingIndex?
  {
    if n == 0 then []
    else
      ClassIndexProblems(table, cols, indexes, n - 1)
        + (if |indexes[n - 1].columnNames| == 1 then IndexProblem(table, cols, indexes[n - 1].columnNames[0]) else [])
  }

  /** The member-level index checks of the first `n` members. */
  function MemberIndexProblems(sm: StoreManager, table: string, cols: map<string, ColumnDetails>, members: seq<Member>, n: nat): (r: seq<Problem>)
    requires n <= |members|
    ensures forall i :: 0 <= i < |r| ==> r[i].MissingIndex?
  {
    if n == 0 then []
    else
      MemberIndexProblems(sm, table, cols, members, n - 1)
        + (if members[n - 1].index.Some? then IndexProblem(table, cols, sm.naming.columnName(members[n - 1])) else [])
  }

  /** The column-count check: only while no failure has been recorded (in this class or before). */
  function CountCheck(table: string, cols: map<string, ColumnDetails>, checked: ColumnCheck): (r: Validation)
    ensures !checked.state.success ==> r == checked.state
    ensures r.success <==> checked.state.success && |cols| == |checked.found|
    ensures |r.problems| <= |checked.state.problems| + 1
  {
    var s := checked.state;
    if s.success && |cols| != |checked.found| then
      Validation(s.problems + [ColumnCountMismatch(table, |checked.found|, |cols|)], false)
    else s
  }

  /** The class-level, then member-level, index checks of a class. */
  function IndexProblems(sm: StoreManager, table: string, cols: map<string, ColumnDetails>, cmd: ClassMeta): (r: seq<Problem>)
    ensures NoFatal(r)
  {
    var a := ClassIndexProblems(table, cols, cmd.indexes, |cmd.indexes|);
    var b := MemberIndexProblems(sm, table, cols, cmd.members, |cmd.members|);
    NoFatalAppend(a, b);
    a + b
  }

  /**
   * One class of `validateSchema`: a missing table is a failure; otherwise the member columns,
   * then the column count, then class-level and member-level indexes.
   */
  function ValidateClass(sm: StoreManager, cat: Catalogue, cmd: ClassMeta, v: Validation): Validation {
    var schema := sm.schemaNameForClass(cmd);
    var table := sm.naming.tableName(cmd);
    if !cat.tableExists(schema, table) then
      Validation(v.problems + [MissingTable(cmd.fullName, table)], false)
    else
      var cols := ColumnsOf(cat.columnRows(schema, table));
      var counted := CountCheck(table, cols, MemberColumnChecks(sm, table, cols, cmd.members, |cmd.members|, v));
      Validation(counted.problems + IndexProblems(sm, table, cols, cmd), counted.success)
  }

  /** Validating a class only adds problems, and fails it exactly when one of them is fatal (or it had failed before). */
  lemma ValidateClassExtends(sm: StoreManager, cat: Catalogue, cmd: ClassMeta, v: Validation)
    ensures Extends(v, ValidateClass(sm, cat, cmd, v))
  {
    var schema := sm.schemaNameForClass(cmd);
    var table := sm.naming.tableName(cmd);
    assert v.problems[..|v.problems|] == v.problems;
    assert v.problems[|v.problems|..] == [];
    assert Extends(v, v);
    if !cat.tableExists(schema, table) {
      assert Fatal([MissingTable(cmd.fullName, table)][0]);
      ExtendsLog(v, v, [MissingTable(cmd.fullName, table)], false);
    } else {
      var cols := ColumnsOf(cat.columnRows(schema, table));
      var checked := MemberColumnChecks(sm, table, cols, cmd.members, |cmd.members|, v);
      var s := checked.state;
      var counted := CountCheck(table, cols, checked);
      if counted != s {
        assert Fatal([ColumnCountMismatch(table, |checked.found|, |cols|)][0]);
        ExtendsLog(v, s, [ColumnCountMismatch(table, |checked.found|, |cols|)], false);
      }
      assert Extends(v, counted);
      ExtendsLog(v, counted, IndexProblems(sm, table, cols, cmd), counted.success);
    }
  }

  /** A column-count mismatch is reported only when nothing had failed before and every member's column was found. */
  lemma CountMismatchOnlyWhileSuccessful(sm: StoreManager, cat: Catalogue, cmd: ClassMeta, v: Validation)
    ensures var r := ValidateClass(sm, cat, cmd, v);
      forall i :: |v.problems| <= i < |r.problems| && r.problems[i].ColumnCountMismatch? ==>
        v.success && forall j :: |v.problems| <= j < |r.problems| ==> !r.problems[j].MissingColumn? && !r.problems[j].MissingTable?
  {
    var schema := sm.schemaNameForClass(cmd);
    var table := sm.naming.tableName(cmd);
    if cat.tableExists(schema, table) {
      var cols := ColumnsOf(cat.columnRows(schema, table));
      var checked := MemberColumnChecks(sm, table, cols, cmd.members, |cmd.members|, v);
      CountMismatchAfterChecks(v, table, cols, checked, IndexProblems(sm, table, cols, cmd));
    }
  }

  /**
   * The step behind `CountMismatchOnlyWhileSuccessful`: after member checks that add only
   * missing-column and type-mismatch problems, the count check and non-fatal index problems.
   */
  lemma CountMismatchAfterChecks(v: Validation, table: string, cols: map<string, ColumnDetails>, checked: ColumnCheck, ip: seq<Problem>)
    requires Extends(v, checked.state)
    requires forall i :: |v.problems| <= i < |checked.state.problems| ==>
      checked.state.problems[i].MissingColumn? || checked.state.problems[i].TypeMismatch?
    requires NoFatal(ip)
    ensures var r := CountCheck(table, cols, checked).problems + ip;
      forall i :: |v.problems| <= i < |r| && r[i].ColumnCountMismatch? ==>
        v.success && forall j :: |v.problems| <= j < |r| ==> !r[j].MissingColumn? && !r[j].MissingTable?
  {
    var s := checked.state;
    var r := CountCheck(table, cols, checked).problems + ip;
    if CountCheck(table, cols, checked) == s {
      forall i | |v.problems| <= i < |r|
        ensures !r[i].ColumnCountMismatch?
      {
        if i >= |s.problems| {
          assert r[i] == ip[i - |s.problems|];
          assert !Fatal(ip[i - |s.problems|]);
        }
      }
    } else {
      assert s.success;
      forall j | |v.problems| <= j < |r|
        ensures !r[j].MissingColumn? && !r[j].MissingTable?
      {
        if j < |s.problems| {
          assert r[j] == s.problems[|v.problems|..][j - |v.problems|];
          assert !Fatal(s.problems[|v.problems|..][j - |v.problems|]);
        } else if j > |s.problems| {
          assert r[j] == ip[j - |s.problems| - 1];
          assert !Fatal(ip[j - |s.problems| - 1]);
        }
      }
    }
  }

  /** `validateSchema` over the first `n` classes. */
  function ValidationUpTo(sm: StoreManager, cat: Catalogue, classes: seq<ClassMeta>, n: nat): Validation
    requires n <= |classes|
  {
    if n == 0 then Validation([], true) else ValidateClass(sm, cat, classes[n - 1], ValidationUpTo(sm, cat, classes, n - 1))
  }

  /** Validation fails exactly when a missing table, a missing column or a wrong column count was reported. */
  lemma {:induction false} ValidationFailsIffFatal(sm: StoreManager, cat: Catalogue, classes: seq<ClassMeta>, n: nat)
    requires n <= |classes|
    ensures var v := ValidationUpTo(sm, cat, classes, n);
      !v.success <==> !NoFatal(v.problems)
  {
    if n > 0 {
      ValidationFailsIffFatal(sm, cat, classes, n - 1);
      var prev := ValidationUpTo(sm, cat, classes, n - 1);
      var v := ValidationUpTo(sm, cat, classes, n);
      ValidateClassExtends(sm, cat, classes[n - 1], prev);
      assert v.problems == prev.problems + v.problems[|prev.problems|..];
      NoFatalAppend(prev.problems, v.problems[|prev.problems|..]);
    }
  }

  /** The member column loop of `validateSchema`. */
  method CheckMemberColumns(sm: StoreManager, table: string, cols: map<string, ColumnDetails>, members: seq<Member>, v: Validation) returns (r: ColumnCheck)
    ensures r == MemberColumnChecks(sm, table, cols, members, |members|, v)
  {
    var problems := v.problems;
    var success := v.success;
    var colsFound: set<string> := {};
    for i := 0 to |members|
      invariant ColumnCheck(Validation(problems, success), colsFound) == MemberColumnChecks(sm, table, cols, members, i, v)
    {
      var mmd := members[i];
      var columnName := sm.naming.columnName(mmd);
      var key := ToLower(columnName);
      if key in cols {
        var details := cols[key];
        var reqdType := ColumnTypeForMember(mmd, sm.typeManager).typeName;
        if reqdType != details.typeName {
          problems := problems + [TypeMismatch(table, columnName, details.typeName, reqdType)];
        } else {
          problems := problems + [];
        }
        colsFound := colsFound + {key};
      } else {
        problems := problems + [MissingColumn(table, columnName)];
        success := false;
      }
    }
    r := ColumnCheck(Validation(problems, success), colsFound);
  }

  /** The class-level index loop of `validateSchema`. */
  method CheckClassIndexes(table: string, cols: map<string, ColumnDetails>, indexes: seq<IndexMeta>) returns (problems: seq<Problem>)
    ensures problems == ClassIndexProblems(table, cols, indexes, |indexes|)
  {
    problems := [];
    for i := 0 to |indexes|
      invariant problems == ClassIndexProblems(table, cols, indexes, i)
    {
      var colNames := indexes[i].columnNames;
      if |colNames| == 1 {
        var key := ToLower(colNames[0]);
        if key !in cols || cols[key].indexName.None? {
          problems := problems + [MissingIndex(table, colNames[0])];
        } else {
          problems := problems + [];
        }
      } else {
        problems := problems + [];
      }
    }
  }

  /** The member-level index loop of `validateSchema`. */
  method CheckMemberIndexes(sm: StoreManager, table: string, cols: map<string, ColumnDetails>, members: seq<Member>) returns (problems: seq<Problem>)
    ensures problems == MemberIndexProblems(sm, table, cols, members, |members|)
  {
    problems := [];
    for i := 0 to |members|
      invariant problems == MemberIndexProblems(sm, table, cols, members, i)
    {
      var mmd := members[i];
      if mmd.index.Some? {
        var colName := sm.naming.columnName(mmd);
        var key := ToLower(colName);
        if key !in cols || cols[key].indexName.None? {
          problems := problems + [MissingIndex(table, colName)];
        } else {
          problems := problems + [];
        }
      } else {
        problems := problems + [];
      }
    }
  }

  /** One class of the loop of `validateSchema`. */
  method ValidateClassSchema(sm: StoreManager, cat: Catalogue, cmd: ClassMeta, v: Validation) returns (r: Validation)
    ensures r == ValidateClass(sm, cat, cmd, v)
  {
    var schema := sm.schemaNameForClass(cmd);
    var tableName := sm.naming.tableName(cmd);
    var tableExists := cat.tableExists(schema, tableName);
    if !tableExists {
      return Validation(v.problems + [MissingTable(cmd.fullName, tableName)], false);
    }
    var colsByName := ColumnDetailsForTable(cat.columnRows(schema, tableName));
    var checked := CheckMemberColumns(sm, tableName, colsByName, cmd.members, v);
    var problems := checked.state.problems;
    var success := checked.state.success;
    if success && |colsByName| != |checked.found| {
      problems := problems + [ColumnCountMismatch(tableName, |checked.found|, |colsByName|)];
      success := false;
    }
    assert Validation(problems, success) == CountCheck(tableName, colsByName, checked);
    var classIndexProblems := CheckClassIndexes(tableName, colsByName, cmd.indexes);
    var memberIndexProblems := CheckMemberIndexes(sm, tableName, colsByName, cmd.members);
    r := Validation(problems + (classIndexProblems + memberIndexProblems), success);
  }

  /**
   * `validateSchema`: the problems logged, and the single exception raised at the end iff any
   * failure was recorded.
   */
  method ValidateSchema(sm: StoreManager, cat: Catalogue, classes: seq<ClassMeta>) returns (problems: seq<Problem>, outcome: Result<(), string>)
    ensures problems == ValidationUpTo(sm, cat, classes, |classes|).problems
    ensures outcome.Failure? <==> exists i :: 0 <= i < |problems| && Fatal(problems[i])
    ensures outcome.Failure? ==> outcome.error == "Errors were encountered during validation of Cassandra schema"
  {
    var v := Validation([], true);
    for c := 0 to |classes|
      invariant v == ValidationUpTo(sm, cat, classes, c)
    {
      v := ValidateClassSchema(sm, cat, classes[c], v);
    }
    problems := v.problems;
    ValidationFailsIffFatal(sm, cat, classes, |classes|);
    if !v.success {
      outcome := Failure("Errors were encountered during validation of Cassandra schema");
    } else {
      outcome := Success(());
    }
  }
}
