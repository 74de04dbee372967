# DataNucleus Cassandra store: type mapping, schema statements, embedded field storage

This project models three parts of the DataNucleus store plugin for Cassandra that decide
what lands in a Cassandra row and in its DDL text, and proves properties about them.

- **Type mapping and value codec** (`CassandraUtils`, file `cassandra_utils.dfy`).
  - The two static tables: Java type to CQL column type, and CQL column type to Java class.
  - The fixed-priority decision tree that picks the column type and converter of a member.
  - The total fallback chain for a non-persistable type.
  - The write codec and the read codec for member values.
  - The `?`-placeholder substitution of the CQL statement logger, as a loop.
- **Schema handler** (`CassandraSchemaHandler`, file `cassandra_schema_handler.dfy`).
  - The keyspace statement and the keyspace drop statement.
  - The `CREATE TABLE` text: member columns under the `firstCol` comma rule, embedded members
    expanded recursively along their member chain, then surrogate columns and the key clause.
  - The member-level and class-level `CREATE INDEX` statements.
  - The order in which statements are issued for a set of classes.
  - The drop order for a set of classes.
  - The column map built from `system.schema_columns` rows.
  - Schema validation, which accumulates problems and raises one exception at the end.
- **Embedded store field manager** (`StoreEmbeddedFieldManager`, file
  `store_embedded_field_manager.dfy`).
  - A class whose `columnValueByName` map is updated in place by `StoreObjectField`.
  - Nested managers are created for nested embedded objects, and their maps are merged in.
  - The owner back-reference of the embedded object is repaired through its object provider.

Supporting modules:
- `wrappers.dfy`: `Option` and `Result`.
- `text.dfy`: Java string operations used by the source (`toLowerCase`, `equalsIgnoreCase`,
  `indexOf`, joining).
- `metadata.dfy`: the class and member metadata, and the naming factory.

How collaborators the source calls but does not define appear in the model:
- The naming factory, the type manager's converter lookups, the table's column mappings and
  the superclass store path are fields of function type.
- Reflection checks (enum, `Serializable`, `List`/`Set`) are tags and fields of a declared-type
  datatype.
- Whether a table exists, and the rows the driver returns, are parameters.
- Statements that the source executes (or writes to a DDL file) are returned as a sequence, in
  issue order.

Where the code departs from what its comments and design suggest, the model follows the code:
- The callers of the column-type resolution treat its result as a type name. The model uses
  the `typeName` of the returned details.
- An embedded column is named from the member chain without the leaf member.
- `firstCol` is cleared after member 0 whether or not that member produced a column.
- The embedded helper never clears its own `firstCol`, so its columns may follow one another
  with no comma.
- `DROP INDEX` statements never carry the index name.
- When an embedded object is null, the primitive-wrapper test looks at the outer member's type,
  not at the embedded member's type. A wrapper-typed outer member therefore nulls every
  embedded member directly.
- A multi-valued map relation whose key (or value) is not persistent and whose type has no
  entry in the forward type table gets the text `null` in that position, as in `map<null,varchar>`.

## Model

| member | source | states |
|---|---|---|
| CassandraUtils.MultiValuedRelationType | src/java/org/datanucleus/store/cassandra/CassandraUtils.java:486-549 | a relation type is given exactly when the member has a collection, map or array |
| CassandraUtils.MapRelationUnknownKeyIsNull | src/java/org/datanucleus/store/cassandra/CassandraUtils.java:514-535 | a non-persistent map key whose type is not in the forward table yields a type starting `map<null,` |
| CassandraUtils.JavaTypeForCassandraType | src/java/org/datanucleus/store/cassandra/CassandraUtils.java:121-124 | a Java class is found exactly for the eight CQL types of the reverse table |
| CassandraUtils.CassandraTypeFor | src/java/org/datanucleus/store/cassandra/CassandraUtils.java:73-98 | the forward table: every column type it yields is one of the reverse table's types, and never `blob` |
| CassandraUtils.TablesAgree | src/java/org/datanucleus/store/cassandra/CassandraUtils.java:71-108 | every reverse-table type other than `blob` has a class that maps forward to that same type; `blob` is the one reverse entry with no forward entry |
| CassandraUtils.FirstConverter | src/java/org/datanucleus/store/cassandra/CassandraUtils.java:446-468 | reference definition of the converter search: the result names a preferred datastore type with a converter, and there is none iff no preferred type has a converter |
| CassandraUtils.ConverterFallback | src/java/org/datanucleus/store/cassandra/CassandraUtils.java:446-475 | the converter fallback: `ConverterFallbackFollowsPreference` proves it picks the first preferred datastore type with a converter, else `blob` for a Serializable type, else nothing |
| CassandraUtils.FirstConverterStep | src/java/org/datanucleus/store/cassandra/CassandraUtils.java:446-468 | the reference search tries the first preferred datastore type and only then the rest |
| CassandraUtils.ConverterFallbackFollowsPreference | src/java/org/datanucleus/store/cassandra/CassandraUtils.java:446-475 | the nested string, long, int converter checks pick the first type of that preference order that has a converter, then Serializable as `blob` |
| CassandraUtils.TypeForNonPersistableType | src/java/org/datanucleus/store/cassandra/CassandraUtils.java:561-604 | never null, always a type the reverse table knows, and the static table's type whenever the table has one |
| CassandraUtils.ColumnTypeForMember | src/java/org/datanucleus/store/cassandra/CassandraUtils.java:287-550 | only the two early converter returns can leave the type name unset; without a converter, a converter is chosen only for a member with no relation |
| CassandraUtils.ExplicitConverterWins | src/java/org/datanucleus/store/cassandra/CassandraUtils.java:293-301 | an explicit converter decides the result, whatever else the member has |
| CassandraUtils.AutoApplyConverterNext | src/java/org/datanucleus/store/cassandra/CassandraUtils.java:302-311 | without an explicit converter, an auto-apply converter decides the result |
| CassandraUtils.JdbcTypeHint | src/java/org/datanucleus/store/cassandra/CassandraUtils.java:393-424 | a recognised hint gives a type of the reverse table; an unrecognised one gives neither type nor converter |
| CassandraUtils.ScalarType | src/java/org/datanucleus/store/cassandra/CassandraUtils.java:391-477 | the scalar branch: hint, then table, then enum, then fallback; `JdbcHintFirst`, `StaticTableType`, `EnumMemberType` and `ScalarAgreesWithNonPersistable` state each step |
| CassandraUtils.JdbcHintFirst | src/java/org/datanucleus/store/cassandra/CassandraUtils.java:393-424 | a plain scalar with exactly one recognised, non-blank jdbc-type hint takes the hint's type and converter |
| CassandraUtils.StaticTableType | src/java/org/datanucleus/store/cassandra/CassandraUtils.java:426-438 | without a hint, a type in the static table takes the table's type and the converter to the class of that type |
| CassandraUtils.ScalarAgreesWithNonPersistable | src/java/org/datanucleus/store/cassandra/CassandraUtils.java:426-477 | without a hint, a plain scalar gets the same type name as the non-persistable fallback chain |
| CassandraUtils.EnumMemberType | src/java/org/datanucleus/store/cassandra/CassandraUtils.java:393-443 | an enum member is `int` by default, and `varchar` under a varchar jdbc-type hint |
| CassandraUtils.CollectionTypeName | src/java/org/datanucleus/store/cassandra/CassandraUtils.java:327-343 | the collection type is `list<T>` or `set<T>` for the element type, and a List-typed member always gets `list<T>` |
| CassandraUtils.NonRelationType | src/java/org/datanucleus/store/cassandra/CassandraUtils.java:315-477 | a member with no relation: every collection, map or array gets a type; `SerialisedMemberIsBlob`, `CollectionShape`, `MapShape` and `ArrayShape` give the shapes |
| CassandraUtils.CollectionShape | src/java/org/datanucleus/store/cassandra/CassandraUtils.java:322-353 | a List-typed collection is `list<T>`, a Set-typed one `set<T>`, any other `list<T>` iff ordered, else `set<T>`; T is `blob` for serialised elements |
| CassandraUtils.MapShape | src/java/org/datanucleus/store/cassandra/CassandraUtils.java:354-376 | a map is `map<K,V>`, each side `blob` when serialised |
| CassandraUtils.ArrayShape | src/java/org/datanucleus/store/cassandra/CassandraUtils.java:377-390 | an array is `list<T>` |
| CassandraUtils.SerialisedMemberIsBlob | src/java/org/datanucleus/store/cassandra/CassandraUtils.java:317-321 | a serialised Serializable member is `blob` with the serialisation converter |
| CassandraUtils.SingleValuedRelationType | src/java/org/datanucleus/store/cassandra/CassandraUtils.java:480-484 | a 1-1 or N-1 relation is `blob` when serialised, else `varchar`, with no converter |
| CassandraUtils.MultiValuedCollectionType | src/java/org/datanucleus/store/cassandra/CassandraUtils.java:488-513 | a 1-N or M-N collection is a list or set of `varchar` or `blob`; a bidirectional M-N collection that is neither List nor Set is a set |
| CassandraUtils.MultiValuedArrayType | src/java/org/datanucleus/store/cassandra/CassandraUtils.java:536-539 | a 1-N or M-N array is `list<varchar>` or `list<blob>` |
| CassandraUtils.RelationWithoutContainerIsVarchar | src/java/org/datanucleus/store/cassandra/CassandraUtils.java:542-549 | a relation that no branch types falls back to `varchar` |
| CassandraUtils.Wrap64 | src/java/org/datanucleus/store/cassandra/CassandraUtils.java:641-645 | the result is a 64-bit two's-complement value congruent to the input modulo 2^64 |
| CassandraUtils.GenericDatastoreValue | src/java/org/datanucleus/store/cassandra/CassandraUtils.java:715-729 | the last write fallback: the value unchanged, or that value converted |
| CassandraUtils.DatastoreValueForNonPersistableValue | src/java/org/datanucleus/store/cassandra/CassandraUtils.java:612-730 | null is written as null; the only failure is a serialised value with no serialisation converter |
| CassandraUtils.FirstIndex | src/java/org/datanucleus/store/cassandra/CassandraUtils.java:184 | the position of the first constant with the given name |
| CassandraUtils.DateMemberValue | src/java/org/datanucleus/store/cassandra/CassandraUtils.java:187-252 | reading a date member: its only failure is a ClassCastException; a result not produced by a converter comes from a stored date, and it is a Calendar exactly for a Calendar member |
| CassandraUtils.JavaValueForDatastoreValue | src/java/org/datanucleus/store/cassandra/CassandraUtils.java:163-279 | null is read as null; an enum read successfully is a constant of the member's enum type |
| CassandraUtils.EnumRoundTrip | src/java/org/datanucleus/store/cassandra/CassandraUtils.java:651-659 | an enum written to a `varchar` column by name or to an `int` column by ordinal reads back as the same constant |
| CassandraUtils.EnumOrdinalReadAsNameFails | src/java/org/datanucleus/store/cassandra/CassandraUtils.java:176-186 | an enum written as an ordinal to a column of another type fails the string cast when read |
| CassandraUtils.NarrowTypesWritten | src/java/org/datanucleus/store/cassandra/CassandraUtils.java:625-636 | a Character is written as a one-character string, a Byte or Short as an int |
| CassandraUtils.BigIntegerWritten | src/java/org/datanucleus/store/cassandra/CassandraUtils.java:641-645 | a BigInteger is written as its low 64 bits, unchanged exactly when it fits in a long |
| CassandraUtils.Substituted | src/java/org/datanucleus/store/cassandra/CassandraUtils.java:890-906 | reference definition of the substitution; its only failure is running out of values |
| CassandraUtils.SubstitutedFailsIff | src/java/org/datanucleus/store/cassandra/CassandraUtils.java:890-900 | substitution fails iff there are more `?` marks than values |
| CassandraUtils.SubstitutedNoPlaceholder | src/java/org/datanucleus/store/cassandra/CassandraUtils.java:901-906 | text without a `?` is kept verbatim |
| CassandraUtils.SubstitutedAtFirstMark | src/java/org/datanucleus/store/cassandra/CassandraUtils.java:892-899 | the text before the first `?` is kept, the mark becomes `<value>`, and substitution continues after it with the next value |
| CassandraUtils.SubstitutedOutOfValues | src/java/org/datanucleus/store/cassandra/CassandraUtils.java:892-897 | a `?` with no value left fails |
| CassandraUtils.LoggedCql | src/java/org/datanucleus/store/cassandra/CassandraUtils.java:878-909 | what is logged: it fails exactly when there are values, the statement does not start with `?`, and it has more `?` marks than values |
| CassandraUtils.LogCqlStatement | src/java/org/datanucleus/store/cassandra/CassandraUtils.java:878-909 | the loop logs the statement unchanged with no values or a leading `?`, and otherwise the left-to-right substitution |
| CassandraSchemaHandler.CreateKeyspaceCql | src/java/org/datanucleus/store/cassandra/CassandraSchemaHandler.java:80-91 | every keyspace statement starts with `CREATE KEYSPACE IF NOT EXISTS `; the full text for each input is stated by `CreateKeyspaceCqlCases` |
| CassandraSchemaHandler.CreateKeyspaceCqlCases | src/java/org/datanucleus/store/cassandra/CassandraSchemaHandler.java:80-91 | for every input: the SimpleStrategy default without properties; otherwise the given replication text, or `null` when absent, followed by ` AND durable_writes=false` exactly when `durable_writes` is given and is not `true` ignoring case |
| CassandraSchemaHandler.DropKeyspaceCql | src/java/org/datanucleus/store/cassandra/CassandraSchemaHandler.java:519-520 | the fixed prefix followed by the keyspace name, which can be read back |
| CassandraSchemaHandler.CreateIndexCql | src/java/org/datanucleus/store/cassandra/CassandraSchemaHandler.java:806-818 | the index statement; its form is stated by `CreateIndexCqlIsIndex` and `CreateIndexCqlSchemaPrefix` |
| CassandraSchemaHandler.CreateIndexCqlIsIndex | src/java/org/datanucleus/store/cassandra/CassandraSchemaHandler.java:806-818 | every index statement starts with `CREATE INDEX ` |
| CassandraSchemaHandler.CreateIndexCqlSchemaPrefix | src/java/org/datanucleus/store/cassandra/CassandraSchemaHandler.java:806-818 | the schema prefix is present exactly when a schema is given |
| CassandraSchemaHandler.IndexIsNotTable | src/java/org/datanucleus/store/cassandra/CassandraSchemaHandler.java:808 | an index statement is never a table statement |
| CassandraSchemaHandler.SeparatedAppend | src/java/org/datanucleus/store/cassandra/CassandraSchemaHandler.java:242-246 | appending two lists under the `firstCol` rule: the flag still holds after the first only if it added nothing |
| CassandraSchemaHandler.AppendColumn | src/java/org/datanucleus/store/cassandra/CassandraSchemaHandler.java:242-246 | a comma precedes the definition exactly when `firstCol` is false |
| CassandraSchemaHandler.EmbeddedCollectionAddsNothing | src/java/org/datanucleus/store/cassandra/CassandraSchemaHandler.java:477-481 | an embedded collection or map inside an embedded object adds no column |
| CassandraSchemaHandler.EmbeddedDefsStep | src/java/org/datanucleus/store/cassandra/CassandraSchemaHandler.java:459-503 | each member of the embedded loop appends exactly its own definitions, and the list is non-empty iff some member added one |
| CassandraSchemaHandler.EmbeddedDefs | src/java/org/datanucleus/store/cassandra/CassandraSchemaHandler.java:451-506 | the column definitions of an embedded chain; `CreateSchemaForEmbeddedMember` is proved to append exactly these, and `EmbeddedDefsStep` gives them member by member |
| CassandraSchemaHandler.EmbeddedMemberDefs | src/java/org/datanucleus/store/cassandra/CassandraSchemaHandler.java:461-503 | one member of an embedded class: recursion, nothing for an embedded collection (`EmbeddedCollectionAddsNothing`), or one column named from the chain |
| CassandraSchemaHandler.CreateSchemaForEmbeddedMember | src/java/org/datanucleus/store/cassandra/CassandraSchemaHandler.java:451-506 | the text appended is every embedded definition, nested ones through the chain extended by one member, each preceded by a comma unless `firstCol` held on entry; the result is true iff a column was added |
| CassandraSchemaHandler.EmbeddedMemberColumns | src/java/org/datanucleus/store/cassandra/CassandraSchemaHandler.java:461-503 | one member of the embedded loop appends its definitions, and reports whether it added one |
| CassandraSchemaHandler.MemberDefs | src/java/org/datanucleus/store/cassandra/CassandraSchemaHandler.java:213-252 | the columns of one member of the class; `AppendMember` and `AppendMemberColumns` are proved against it |
| CassandraSchemaHandler.MemberStep | src/java/org/datanucleus/store/cassandra/CassandraSchemaHandler.java:213-252 | one member of the table loop; `AppendMember` is proved against it and `MemberStepAppends` states that it only appends |
| CassandraSchemaHandler.MemberStepAppends | src/java/org/datanucleus/store/cassandra/CassandraSchemaHandler.java:213-252 | one member of the table loop only appends to the column text, and never sets `firstCol` again once cleared |
| CassandraSchemaHandler.MembersBuilt | src/java/org/datanucleus/store/cassandra/CassandraSchemaHandler.java:210-252 | the member loop after n members; `MembersBuiltJoined`, `MembersBuiltFirst` and the quirk lemmas state its text |
| CassandraSchemaHandler.AppendMember | src/java/org/datanucleus/store/cassandra/CassandraSchemaHandler.java:213-252 | one member of the table loop: its columns under the comma rule; embedded members clear `firstCol` only when they add a column, plain members only when they are member 0 |
| CassandraSchemaHandler.MemberIndexCqlsAreIndexes | src/java/org/datanucleus/store/cassandra/CassandraSchemaHandler.java:254-264 | every member-level index statement is a `CREATE INDEX` |
| CassandraSchemaHandler.MemberIndexCql | src/java/org/datanucleus/store/cassandra/CassandraSchemaHandler.java:254-264 | the index statement of one member; `AppendMemberIndex` is proved against it |
| CassandraSchemaHandler.MemberIndexCqls | src/java/org/datanucleus/store/cassandra/CassandraSchemaHandler.java:211-264 | the member-level index statements; `MemberIndexCqlsAreIndexes` proves each is a `CREATE INDEX` |
| CassandraSchemaHandler.AppendMemberIndex | src/java/org/datanucleus/store/cassandra/CassandraSchemaHandler.java:254-264 | one member adds its index statement when constraints are auto-created and it declares an index |
| CassandraSchemaHandler.AppendMemberColumns | src/java/org/datanucleus/store/cassandra/CassandraSchemaHandler.java:210-266 | the member loop yields the member columns and the member-level index statements, in member order |
| CassandraSchemaHandler.CreateTableCql | src/java/org/datanucleus/store/cassandra/CassandraSchemaHandler.java:200-336 | the `CREATE TABLE` text; `CreateTableCqlIsTable` states its prefix |
| CassandraSchemaHandler.TableColumns | src/java/org/datanucleus/store/cassandra/CassandraSchemaHandler.java:210-334 | the column list: member columns, then surrogate columns and the key; `CreateTableWellFormed`, `CreateTableNoMembers` and the quirk lemmas state its text |
| CassandraSchemaHandler.CreateTableCqlIsTable | src/java/org/datanucleus/store/cassandra/CassandraSchemaHandler.java:200-206 | every table statement starts with `CREATE TABLE ` |
| CassandraSchemaHandler.MembersBuiltJoined | src/java/org/datanucleus/store/cassandra/CassandraSchemaHandler.java:210-252 | once a plain first member has a column, all member columns are joined by single commas |
| CassandraSchemaHandler.CreateTableWellFormed | src/java/org/datanucleus/store/cassandra/CassandraSchemaHandler.java:200-334 | with a plain, typed first member, the column list is the member columns, surrogate columns and key clause joined by commas |
| CassandraSchemaHandler.CreateTableNoMembers | src/java/org/datanucleus/store/cassandra/CassandraSchemaHandler.java:268-334 | with no members, the surrogate columns and the key clause are joined by commas |
| CassandraSchemaHandler.UnresolvedFirstMemberLeadsWithComma | src/java/org/datanucleus/store/cassandra/CassandraSchemaHandler.java:235-251 | an untyped member 0 still clears `firstCol`, so the next column starts with a comma |
| CassandraSchemaHandler.EmbeddedFirstMemberUnseparated | src/java/org/datanucleus/store/cassandra/CassandraSchemaHandler.java:216-226 | an embedded first member's columns are appended with no separator between them |
| CassandraSchemaHandler.VersionDefs | src/java/org/datanucleus/store/cassandra/CassandraSchemaHandler.java:268-280 | the version column, only for a versioned class without a version field; `AppendSurrogateColumns` is proved against it |
| CassandraSchemaHandler.SurrogateDefs | src/java/org/datanucleus/store/cassandra/CassandraSchemaHandler.java:268-300 | version, discriminator and multitenancy columns in that order; `AppendSurrogateColumns` is proved against it |
| CassandraSchemaHandler.AppendSurrogateColumns | src/java/org/datanucleus/store/cassandra/CassandraSchemaHandler.java:268-300 | the version, discriminator and multitenancy columns, in that order, under the comma rule |
| CassandraSchemaHandler.PkDefs | src/java/org/datanucleus/store/cassandra/CassandraSchemaHandler.java:302-332 | the key definitions by identity type; `AppendPrimaryKey` and `PrimaryKeyList` state them |
| CassandraSchemaHandler.AppendPrimaryKey | src/java/org/datanucleus/store/cassandra/CassandraSchemaHandler.java:302-332 | datastore identity adds a `bigint` id column and the key on it; application identity adds the key on the pk columns |
| CassandraSchemaHandler.PrimaryKeyList | src/java/org/datanucleus/store/cassandra/CassandraSchemaHandler.java:320-331 | the pk column names in pk-position order, joined by commas |
| CassandraSchemaHandler.ClassIndexCqls | src/java/org/datanucleus/store/cassandra/CassandraSchemaHandler.java:365-387 | the class-level index statements; `ClassIndexCqlsOutcome` states when they fail and how many there are |
| CassandraSchemaHandler.ClassIndexCqlsOutcome | src/java/org/datanucleus/store/cassandra/CassandraSchemaHandler.java:365-387 | class-level indexes fail exactly when one names no column; otherwise there is one `CREATE INDEX` per single-column index |
| CassandraSchemaHandler.ClassIndexStatements | src/java/org/datanucleus/store/cassandra/CassandraSchemaHandler.java:369-387 | the class-level index loop yields those statements or that failure |
| CassandraSchemaHandler.FailureStays | src/java/org/datanucleus/store/cassandra/CassandraSchemaHandler.java:372-387 | once a class-level index has failed, later indexes change nothing |
| CassandraSchemaHandler.TableStatements | src/java/org/datanucleus/store/cassandra/CassandraSchemaHandler.java:196-336 | the table statement of one class; `OneCreateTableIffAbsent` states when it is issued |
| CassandraSchemaHandler.MemberIndexStatements | src/java/org/datanucleus/store/cassandra/CassandraSchemaHandler.java:338-362 | the member-level index statements of one class; `ExistingTableOnlyIndexes` states when an existing table gets them |
| CassandraSchemaHandler.OneCreateTableIffAbsent | src/java/org/datanucleus/store/cassandra/CassandraSchemaHandler.java:194-439 | at most one `CREATE TABLE` per class, issued first, exactly when tables are auto-created and the table is absent; every other statement is a `CREATE INDEX` |
| CassandraSchemaHandler.ExistingTableOnlyIndexes | src/java/org/datanucleus/store/cassandra/CassandraSchemaHandler.java:338-387 | an existing table gets index statements only, and none unless columns or constraints are auto-created |
| CassandraSchemaHandler.CreateTableStatement | src/java/org/datanucleus/store/cassandra/CassandraSchemaHandler.java:197-336 | the `CREATE TABLE` text, and the member-level index statements collected on the way |
| CassandraSchemaHandler.MemberIndexLoop | src/java/org/datanucleus/store/cassandra/CassandraSchemaHandler.java:338-362 | for an existing table, only the member-level index statements |
| CassandraSchemaHandler.CreateSchemaForClass | src/java/org/datanucleus/store/cassandra/CassandraSchemaHandler.java:186-440 | table statements before index statements, or the class-level index failure raised before anything is issued |
| CassandraSchemaHandler.CreateSchemaForClasses | src/java/org/datanucleus/store/cassandra/CassandraSchemaHandler.java:103-177 | the statements of each class in turn; classes without metadata are skipped and an exception stops the rest |
| CassandraSchemaHandler.SchemaForClasses | src/java/org/datanucleus/store/cassandra/CassandraSchemaHandler.java:103-177 | the statements for the first n classes and the exception that stopped them; `CreateSchemaForClasses` is proved against it, and `StoppedStaysStopped` states that an exception ends processing |
| CassandraSchemaHandler.StoppedStaysStopped | src/java/org/datanucleus/store/cassandra/CassandraSchemaHandler.java:141-151 | once an exception is raised, later classes change nothing |
| CassandraSchemaHandler.DropIndexesAll | src/java/org/datanucleus/store/cassandra/CassandraSchemaHandler.java:586-610 | one statement per class-level index, each `DROP INDEX ` with no index name |
| CassandraSchemaHandler.MemberDropIndexesCount | src/java/org/datanucleus/store/cassandra/CassandraSchemaHandler.java:612-637 | one `DROP INDEX ` per member that declares an index |
| CassandraSchemaHandler.DropOrdering | src/java/org/datanucleus/store/cassandra/CassandraSchemaHandler.java:583-666 | nothing for an absent table; otherwise class-level, then member-level `DROP INDEX`, then `DROP TABLE` last |
| CassandraSchemaHandler.DropClassIndexes | src/java/org/datanucleus/store/cassandra/CassandraSchemaHandler.java:586-610 | the class-level drop loop appends one `DROP INDEX ` per index |
| CassandraSchemaHandler.DropMemberIndexes | src/java/org/datanucleus/store/cassandra/CassandraSchemaHandler.java:612-637 | the member-level drop loop appends one `DROP INDEX ` per indexed member |
| CassandraSchemaHandler.DeleteSchemaForClass | src/java/org/datanucleus/store/cassandra/CassandraSchemaHandler.java:578-666 | one class: its drop statements when its table exists, none otherwise |
| CassandraSchemaHandler.DropStatementsUpTo | src/java/org/datanucleus/store/cassandra/CassandraSchemaHandler.java:532-694 | the drop statements of the first n classes; `DeleteSchemaForClasses` is proved against it and `DropOrdering` states each class's part |
| CassandraSchemaHandler.DeleteSchemaForClasses | src/java/org/datanucleus/store/cassandra/CassandraSchemaHandler.java:532-694 | the drop statements of each class in turn |
| CassandraSchemaHandler.TypeNameForValidator | src/java/org/datanucleus/store/cassandra/CassandraSchemaHandler.java:844-869 | first matching validator substring wins (`LongType` first); no type iff no known substring occurs |
| CassandraSchemaHandler.ColumnsOf | src/java/org/datanucleus/store/cassandra/CassandraSchemaHandler.java:839-875 | the column map has a key exactly for each column named by some row, and each entry carries its own name |
| CassandraSchemaHandler.ColumnsOfLastRowWins | src/java/org/datanucleus/store/cassandra/CassandraSchemaHandler.java:871-873 | each column's details come from the last row naming it |
| CassandraSchemaHandler.ColumnDetailsForTable | src/java/org/datanucleus/store/cassandra/CassandraSchemaHandler.java:839-875 | the map-building loop yields that column map |
| CassandraSchemaHandler.MemberColumnChecks | src/java/org/datanucleus/store/cassandra/CassandraSchemaHandler.java:724-750 | member checks only add missing-column and type-mismatch problems, fail iff a column is missing, and record only columns the table has |
| CassandraSchemaHandler.MissingColumnsReported | src/java/org/datanucleus/store/cassandra/CassandraSchemaHandler.java:745-748 | every member whose lower-cased column is absent is reported missing |
| CassandraSchemaHandler.ClassIndexProblems | src/java/org/datanucleus/store/cassandra/CassandraSchemaHandler.java:759-776 | class-level index checks report only missing indexes |
| CassandraSchemaHandler.MemberIndexProblems | src/java/org/datanucleus/store/cassandra/CassandraSchemaHandler.java:777-792 | member-level index checks report only missing indexes |
| CassandraSchemaHandler.IndexProblems | src/java/org/datanucleus/store/cassandra/CassandraSchemaHandler.java:758-792 | index problems never fail validation |
| CassandraSchemaHandler.ValidateClass | src/java/org/datanucleus/store/cassandra/CassandraSchemaHandler.java:706-794 | one class of validation; `ValidateClassExtends` and `CountMismatchOnlyWhileSuccessful` state its properties |
| CassandraSchemaHandler.ValidateClassExtends | src/java/org/datanucleus/store/cassandra/CassandraSchemaHandler.java:706-794 | validating a class only adds problems, and fails exactly when one is fatal or validation had already failed |
| CassandraSchemaHandler.SchemaStatements | src/java/org/datanucleus/store/cassandra/CassandraSchemaHandler.java:194-439 | the statements of one class: only a class-level index, with constraints auto-created, can make it fail |
| CassandraSchemaHandler.DropStatements | src/java/org/datanucleus/store/cassandra/CassandraSchemaHandler.java:578-666 | the drop statements of one class: none exactly when its table does not exist, and otherwise ending with `DROP TABLE` of its table |
| CassandraSchemaHandler.CountCheck | src/java/org/datanucleus/store/cassandra/CassandraSchemaHandler.java:752-756 | after an earlier failure the state is unchanged; success survives exactly when the column counts agree; at most one problem is added |
| CassandraSchemaHandler.CountMismatchOnlyWhileSuccessful | src/java/org/datanucleus/store/cassandra/CassandraSchemaHandler.java:752-756 | a column-count mismatch is reported only when nothing had failed before and no member column was missing |
| CassandraSchemaHandler.CountMismatchAfterChecks | src/java/org/datanucleus/store/cassandra/CassandraSchemaHandler.java:725-794 | after member checks that add only missing-column and type problems, a count mismatch appears only with no earlier failure and no missing column |
| CassandraSchemaHandler.ValidationUpTo | src/java/org/datanucleus/store/cassandra/CassandraSchemaHandler.java:699-803 | validation of the first n classes; `ValidationFailsIffFatal` states when it fails |
| CassandraSchemaHandler.ValidationFailsIffFatal | src/java/org/datanucleus/store/cassandra/CassandraSchemaHandler.java:699-803 | validation fails exactly when a missing table, a missing column or a wrong column count was reported |
| CassandraSchemaHandler.CheckMemberColumns | src/java/org/datanucleus/store/cassandra/CassandraSchemaHandler.java:724-750 | the member column loop yields the member checks |
| CassandraSchemaHandler.CheckClassIndexes | src/java/org/datanucleus/store/cassandra/CassandraSchemaHandler.java:759-776 | the class-level index loop yields the class-level index problems |
| CassandraSchemaHandler.CheckMemberIndexes | src/java/org/datanucleus/store/cassandra/CassandraSchemaHandler.java:777-792 | the member-level index loop yields the member-level index problems |
| CassandraSchemaHandler.ValidateClassSchema | src/java/org/datanucleus/store/cassandra/CassandraSchemaHandler.java:706-794 | one class of the validation loop |
| CassandraSchemaHandler.ValidateSchema | src/java/org/datanucleus/store/cassandra/CassandraSchemaHandler.java:696-804 | all problems are logged, and the single exception is raised at the end iff a fatal problem occurred |
| EmbeddedFieldManager.ObjectProvider.ReplaceField | src/java/org/datanucleus/store/cassandra/fieldmanager/StoreEmbeddedFieldManager.java:85 | the field now holds the given value and the other fields are unchanged |
| EmbeddedFieldManager.StoreEmbeddedFieldManager.ForNulling | src/java/org/datanucleus/store/cassandra/fieldmanager/StoreEmbeddedFieldManager.java:48-52 | a manager for the chain with no object provider and an empty column map |
| EmbeddedFieldManager.StoreEmbeddedFieldManager.constructor | src/java/org/datanucleus/store/cassandra/fieldmanager/StoreEmbeddedFieldManager.java:54-58 | a manager for the chain with the given object provider and an empty column map |
| EmbeddedFieldManager.StoreEmbeddedFieldManager.GetColumnMapping | src/java/org/datanucleus/store/cassandra/fieldmanager/StoreEmbeddedFieldManager.java:60-65 | the mapping of the chain extended by exactly the current member; the chain itself is a constant |
| EmbeddedFieldManager.StoreEmbeddedFieldManager.StoreObjectField | src/java/org/datanucleus/store/cassandra/fieldmanager/StoreEmbeddedFieldManager.java:71-160 | the map gains exactly the entries of the field, never losing a key; the owner field is replaced iff the member links back to the owner, there is a provider with exactly one embedded owner, and the value is not that owner |
| EmbeddedFieldManager.StoreEmbeddedFieldManager.NullColumns | src/java/org/datanucleus/store/cassandra/fieldmanager/StoreEmbeddedFieldManager.java:149-157 | every column of the mapping is set to null |
| EmbeddedFieldManager.NullDirect | src/java/org/datanucleus/store/cassandra/fieldmanager/StoreEmbeddedFieldManager.java:107-121 | the nulls written directly for a null embedded object; `NullDirectOnlyNulls` and `NullDirectCovers` state them |
| EmbeddedFieldManager.NullNested | src/java/org/datanucleus/store/cassandra/fieldmanager/StoreEmbeddedFieldManager.java:106-128 | the nested nulling manager's entries; `NullNestedOnlyNulls` and `NullNestedCovers` state them |
| EmbeddedFieldManager.ProvidedEntries | src/java/org/datanucleus/store/cassandra/fieldmanager/StoreEmbeddedFieldManager.java:132-137 | the entries of the nested manager for a non-null embedded object; `StoreProvidedEmbedded` is proved against it |
| EmbeddedFieldManager.StoreEmbeddedFieldManager.StoreNullEmbedded | src/java/org/datanucleus/store/cassandra/fieldmanager/StoreEmbeddedFieldManager.java:104-130 | direct nulls for String, primitive (and wrapper-outer) members, then the nested nulling manager's entries merged over them |
| EmbeddedFieldManager.StoreEmbeddedFieldManager.NullEmbeddedMember | src/java/org/datanucleus/store/cassandra/fieldmanager/StoreEmbeddedFieldManager.java:109-125 | one member of a null embedded object is nulled directly or handed to the nested manager, never both |
| EmbeddedFieldManager.StoreEmbeddedFieldManager.StoreProvidedEmbedded | src/java/org/datanucleus/store/cassandra/fieldmanager/StoreEmbeddedFieldManager.java:132-137 | a nested manager for the chain extended by exactly this member receives every field, and its map is merged in |
| EmbeddedFieldManager.NullingWritesOnlyNulls | src/java/org/datanucleus/store/cassandra/fieldmanager/StoreEmbeddedFieldManager.java:104-157 | a nulling manager storing null writes only nulls, however deep the embedding |
| EmbeddedFieldManager.Entries | src/java/org/datanucleus/store/cassandra/fieldmanager/StoreEmbeddedFieldManager.java:71-160 | what `storeObjectField` adds for one field; its properties are the lemmas below |
| EmbeddedFieldManager.NullEmbeddedNullsColumns | src/java/org/datanucleus/store/cassandra/fieldmanager/StoreEmbeddedFieldManager.java:104-129 | a null embedded object writes only nulls, covers every column of each directly nulled member, and every column of each other member that is not itself embedded |
| EmbeddedFieldManager.NullNestedCovers | src/java/org/datanucleus/store/cassandra/fieldmanager/StoreEmbeddedFieldManager.java:106-128 | the nested nulling manager writes every column of each member it is given that is not itself embedded |
| EmbeddedFieldManager.OwnerLinkWritesNothing | src/java/org/datanucleus/store/cassandra/fieldmanager/StoreEmbeddedFieldManager.java:76-88 | an owner back-reference writes no entry |
| EmbeddedFieldManager.EmbeddedCollectionOneNull | src/java/org/datanucleus/store/cassandra/fieldmanager/StoreEmbeddedFieldManager.java:139-145 | an embedded collection or map writes exactly one entry, column 0 of its mapping, set to null |
| EmbeddedFieldManager.NullingPlainMember | src/java/org/datanucleus/store/cassandra/fieldmanager/StoreEmbeddedFieldManager.java:149-157 | in nulling mode a member that is not embedded gets null in every column of its mapping and nothing else |

## Left out

- Driver calls (`session.execute`, `session.prepare`), connection acquire and release, and all
  logging. The model returns the statements that would be executed.
- `checkTableExistence` and the query half of `getColumnDetailsForTable`, because they query
  the driver. Table existence and the `system.schema_columns` rows are inputs.
- The DDL file mode of `createSchemaForClasses` and `deleteSchemaForClasses`, because it is
  file I/O and wall-clock time. This covers the file handling, the timestamp header, each
  statement written followed by `;\n`, and the swallowed `IOException`s. The statements are the
  same sequence as in execute mode.
- `getPojoForRowForCandidate`, `getObjectUsingApplicationIdForRow`,
  `getObjectUsingDatastoreIdForRow` and `getMemberValueForColumnWithConverter`. They are built
  on the execution context, object providers and driver row accessors, which are not part of
  this model.
- Converter internals. `toDatastoreType` and `toMemberType` give opaque converted values.
- Floating point. `BigDecimal.doubleValue` and `double`/`float` values are opaque tags.
- Naming, the table's column mappings and the superclass non-embedded store path are not
  shown in the source. They are functions supplied with the store manager or the field
  manager's environment.
- Embedded-member detection (`isMemberEmbedded`) is not shown in the source either. It is the
  `embedded` field of each member. Members nest inside their owner's `embeddedMembers`, so that
  field stands for the detection against the owning member, as called at
  CassandraSchemaHandler.java:216 and :463 and StoreEmbeddedFieldManager.java:95.
- CassandraUtils.ColumnTypeForMember: an explicit converter name unknown to the type manager
  gives a `NullPointerException` in the source. The model returns no type and no converter
  instead.
- CassandraSchemaHandler.ValidateSchema: takes the metadata of each class. A class name without
  metadata, which gives a `NullPointerException` in the source, is not modelled.
- `checkTableExistence` lower-cases the schema name, which throws for a class with no schema.
  That failure is not modelled; table existence is an input.
- CassandraUtils.JavaValueForDatastoreValue: the date branches match the member's declared type
  exactly. A subclass such as `GregorianCalendar` therefore takes the generic branch, whereas
  the source's `isAssignableFrom` tests would send it to the date branch.
- Case folding is ASCII only (`toLowerCase`, `equalsIgnoreCase`).
- Iteration order of the `Set` of class names is the order of the input sequence.
- StringBuilder appends and list additions are modelled as returned text and sequences. The
  table, embedded and key loops return the text they append instead of mutating a shared
  builder.
- EmbeddedFieldManager.StoreEmbeddedFieldManager.StoreProvidedEmbedded: `provideFields` is
  modelled as storing every field through `StoreObjectField`. The value of each field comes
  from the environment. The superclass's primitive `storeXXXField` methods are not shown, so a
  primitive field is written by the same non-embedded store path as an object field.
- EmbeddedFieldManager.StoreEmbeddedFieldManager.StoreObjectField:
  - The `insert` flag and the class loader are not modelled; this method does not use them.
  - The embedded class of a member is its list of embedded members, at positions
    0 to n-1.
  - A member mapping always has a first column (`Columns` type). The empty-mapping index
    exception is not modelled.
  - The `Object.class.isAssignableFrom` test succeeds for every non-primitive type. It is
    therefore the `else` branch.
