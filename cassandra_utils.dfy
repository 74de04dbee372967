/**
 * Type mapping between Java members and Cassandra (CQL) column types, the value codec used
 * when writing and reading non-persistable values, and the CQL statement logger.
 */
module CassandraUtils {
  import opened Wrappers
  import opened Text
  import opened Metadata

  // ---------------------------------------------------------------------------------------
  // Static type tables
  // ---------------------------------------------------------------------------------------

  /** `cassandraTypeByJavaType` for a primitive or its wrapper. */
  function PrimitiveColumnType(p: Primitive): string {
    match p
    case Boolean => "boolean"
    case Byte => "int"
    case Short => "int"
    case Int => "int"
    case Long => "bigint"
    case Char => "varchar"
    case Double => "double"
    case Float => "float"
  }

  /** `cassandraTypeByJavaType.get(t.getName())`: the CQL column type each JDK type is stored as by default. */
  function CassandraTypeFor(t: DeclaredType): (r: Option<string>)
    ensures r.Some? ==> r.value in CassandraTypeNames && r.value != "blob"
  {
    match t
    case Prim(p) => Some(PrimitiveColumnType(p))
    case Wrapper(p) => Some(PrimitiveColumnType(p))
    case JavaString => Some("varchar")
    case BigDecimalType => Some("double")
    case BigIntegerType => Some("bigint")
    case UtilDate => Some("timestamp")
    case SqlTime => Some("timestamp")
    case SqlDate => Some("timestamp")
    case SqlTimestamp => Some("timestamp")
    case CalendarType => Some("timestamp")
    case TimeZoneType => Some("varchar")
    case LocaleType => Some("varchar")
    case _ => None
  }

  /** The keys of `datastoreTypeByCassandraType`. */
  const CassandraTypeNames: set<string> := {"timestamp", "boolean", "int", "double", "float", "bigint", "varchar", "blob"}

  /** `getJavaTypeForCassandraType`: the Java class the driver hands back for each CQL column type. */
  function JavaTypeForCassandraType(cassandraType: string): (r: Option<DeclaredType>)
    ensures r.Some? <==> cassandraType in CassandraTypeNames
  {
    if cassandraType == "timestamp" then Some(UtilDate)
    else if cassandraType == "boolean" then Some(Wrapper(Boolean))
    else if cassandraType == "int" then Some(Wrapper(Int))
    else if cassandraType == "double" then Some(Wrapper(Double))
    else if cassandraType == "float" then Some(Wrapper(Float))
    else if cassandraType == "bigint" then Some(Wrapper(Long))
    else if cassandraType == "varchar" then Some(JavaString)
    else if cassandraType == "blob" then Some(ByteBufferType)
    else None
  }

  /**
   * The two tables agree: every column type the forward table yields has a Java class in the
   * reverse table, and that class maps forward to the same column type. `blob` is the one
   * reverse entry with no forward entry.
   */
  lemma TablesAgree()
    ensures forall c :: c in CassandraTypeNames - {"blob"} ==> CassandraTypeFor(JavaTypeForCassandraType(c).value) == Some(c)
    ensures CassandraTypeFor(JavaTypeForCassandraType("blob").value).None?
  {
  }

  // ---------------------------------------------------------------------------------------
  // Type manager (its converters are foreign: only which converter is found is modelled)
  // ---------------------------------------------------------------------------------------

  /** A type converter, known by its name and the member and datastore types it converts between. */
  datatype Converter = Converter(name: string, memberType: DeclaredType, datastoreType: DeclaredType)

  /**
   * The converters a `TypeManager` would find: by name, auto-apply by member type, by
   * (member type, datastore type), and the serialisation converter (Serializable to ByteBuffer).
   */
  datatype TypeManager = TypeManager(
    byName: map<string, Converter>,
    autoApply: map<DeclaredType, Converter>,
    byTypes: map<(DeclaredType, DeclaredType), Converter>,
    serialisation: Option<Converter>)

  /** `getTypeConverterForName`. */
  function ConverterForName(tm: TypeManager, name: string): Option<Converter> {
    if name in tm.byName then Some(tm.byName[name]) else None
  }

  /** `getTypeConverterForType(memberType, datastoreType)`. */
  function ConverterForType(tm: TypeManager, memberType: DeclaredType, datastoreType: DeclaredType): Option<Converter> {
    if (memberType, datastoreType) in tm.byTypes then Some(tm.byTypes[(memberType, datastoreType)]) else None
  }

  // ---------------------------------------------------------------------------------------
  // Column type resolution
  // ---------------------------------------------------------------------------------------

  /** `CassandraTypeDetails`: the column type name (null when unresolved) and the converter to use. */
  datatype TypeDetails = TypeDetails(typeName: Option<string>, converter: Option<Converter>)

  /** Java string concatenation of a possibly-null string. */
  function OrNull(s: Option<string>): string {
    s.GetOr("null")
  }

  /** The converter fallback chain: string first, then long, then int. */
  const ConverterPreference: seq<(DeclaredType, string)> := [(JavaString, "varchar"), (Wrapper(Long), "bigint"), (Wrapper(Int), "int")]

  /** Reference definition of the fallback: the first datastore type in `prefs` with a converter for `t`. */
  function FirstConverter(tm: TypeManager, t: DeclaredType, prefs: seq<(DeclaredType, string)>): (r: Option<(string, Converter)>)
    ensures r.Some? ==> exists i :: 0 <= i < |prefs| && r.value.0 == prefs[i].1 && ConverterForType(tm, t, prefs[i].0) == Some(r.value.1)
    ensures r.None? <==> forall i :: 0 <= i < |prefs| ==> ConverterForType(tm, t, prefs[i].0).None?
  {
    if prefs == [] then None
    else match ConverterForType(tm, t, prefs[0].0)
      case Some(c) => Some((prefs[0].1, c))
      case None =>
        var r := FirstConverter(tm, t, prefs[1..]);
        assert forall i :: 1 <= i < |prefs| ==> prefs[i] == prefs[1..][i - 1];
        r
  }

  /**
   * No direct mapping: a string converter gives `varchar`, else a long converter `bigint`, else an
   * int converter `int`, else a Serializable type is a `blob` through the serialisation converter.
   */
  function ConverterFallback(t: DeclaredType, tm: TypeManager): TypeDetails
  {
    match ConverterForType(tm, t, JavaString)
    case Some(c) => TypeDetails(Some("varchar"), Some(c))
    case None =>
      match ConverterForType(tm, t, Wrapper(Long))
      case Some(c) => TypeDetails(Some("bigint"), Some(c))
      case None =>
        match ConverterForType(tm, t, Wrapper(Int))
        case Some(c) => TypeDetails(Some("int"), Some(c))
        case None =>
          if IsSerializable(t) then TypeDetails(Some("blob"), tm.serialisation) else TypeDetails(None, None)
  }

  /** The nested fallback chain is the ordered preference list, then Serializable, then nothing. */
  lemma {:induction false} ConverterFallbackFollowsPreference(t: DeclaredType, tm: TypeManager)
    ensures match FirstConverter(tm, t, ConverterPreference)
      case Some(p) => ConverterFallback(t, tm) == TypeDetails(Some(p.0), Some(p.1))
      case None => ConverterFallback(t, tm) == (if IsSerializable(t) then TypeDetails(Some("blob"), tm.serialisation) else TypeDetails(None, None))
  {
    var p0 := ConverterPreference;
    var p1 := p0[1..];
    var p2 := p1[1..];
    assert p1 == [(Wrapper(Long), "bigint"), (Wrapper(Int), "int")];
    assert p2 == [(Wrapper(Int), "int")];
    FirstConverterStep(tm, t, p0);
    FirstConverterStep(tm, t, p1);
    FirstConverterStep(tm, t, p2);
    assert p2[1..] == [];
  }

  /** One step of the search: the head of the preference list, else the search over the rest. */
  lemma FirstConverterStep(tm: TypeManager, t: DeclaredType, prefs: seq<(DeclaredType, string)>)
    requires prefs != []
    ensures FirstConverter(tm, t, prefs) ==
      match ConverterForType(tm, t, prefs[0].0)
      case Some(c) => Some((prefs[0].1, c))
      case None => FirstConverter(tm, t, prefs[1..])
  {
  }

  /**
   * `getCassandraTypeForNonPersistableType`: the table, then a serialised Serializable as `blob`,
   * then an enum (`varchar` only for a jdbc-type of varchar), then the converter fallback, then
   * `varchar`. It never yields null, and always a type the reverse table knows.
   */
  function TypeForNonPersistableType(t: DeclaredType, serialised: bool, tm: TypeManager, jdbcType: Option<string>): (r: string)
    ensures r in CassandraTypeNames
    ensures CassandraTypeFor(t).Some? ==> r == CassandraTypeFor(t).value
  {
    TablesAgree();
    match CassandraTypeFor(t)
    case Some(c) => c
    case None =>
      if serialised && IsSerializable(t) then "blob"
      else if IsEnum(t) then (if jdbcType.Some? && EqualsIgnoreCase(jdbcType.value, "varchar") then "varchar" else "int")
      else ConverterFallback(t, tm).typeName.GetOr("varchar")
  }

  /** A single jdbc-type hint picks the column type and the converter to that datastore type. */
  function JdbcTypeHint(jdbcType: string, t: DeclaredType, tm: TypeManager): (r: TypeDetails)
    ensures r.typeName.Some? ==> r.typeName.value in CassandraTypeNames
    ensures r.typeName.None? ==> r.converter.None?
  {
    if EqualsIgnoreCase(jdbcType, "varchar") || EqualsIgnoreCase(jdbcType, "longvarchar") then
      TypeDetails(Some("varchar"), ConverterForType(tm, t, JavaString))
    else if EqualsIgnoreCase(jdbcType, "bigint") then TypeDetails(Some("bigint"), ConverterForType(tm, t, Wrapper(Long)))
    else if EqualsIgnoreCase(jdbcType, "blob") then TypeDetails(Some("blob"), ConverterForType(tm, t, ByteBufferType))
    else if EqualsIgnoreCase(jdbcType, "decimal") then TypeDetails(Some("double"), ConverterForType(tm, t, Wrapper(Double)))
    else if EqualsIgnoreCase(jdbcType, "integer") then TypeDetails(Some("int"), ConverterForType(tm, t, Wrapper(Int)))
    else TypeDetails(None, None)
  }

  /** Whether the member carries exactly one column declaration whose jdbc-type is not blank. */
  predicate HasJdbcHint(m: Member) {
    |m.jdbcTypes| == 1 && !IsWhitespace(m.jdbcTypes[0])
  }

  /** A non-container, non-relation member: jdbc-type hint, table, enum, converter fallback. */
  function ScalarType(m: Member, tm: TypeManager): TypeDetails
  {
    var hint := if HasJdbcHint(m) then JdbcTypeHint(m.jdbcTypes[0].value, m.declared, tm) else TypeDetails(None, None);
    if hint.typeName.Some? then hint
    else match CassandraTypeFor(m.declared)
      case Some(c) =>
        TypeDetails(Some(c), match JavaTypeForCassandraType(c) case Some(j) => ConverterForType(tm, m.declared, j) case None => None)
      case None =>
        if IsEnum(m.declared) then TypeDetails(Some("int"), None) else ConverterFallback(m.declared, tm)
  }

  /** `list<T>` or `set<T>` for a collection of non-persistable elements. */
  function CollectionTypeName(m: Member, element: string): (r: string)
    ensures r == "list<" + element + ">" || r == "set<" + element + ">"
    ensures IsList(m.declared) ==> r == "list<" + element + ">"
  {
    if IsList(m.declared) then "list<" + element + ">"
    else if IsSet(m.declared) then "set<" + element + ">"
    else if m.ordered then "list<" + element + ">"
    else "set<" + element + ">"
  }

  /** The type of a member with no relation (after the converter checks). */
  function NonRelationType(m: Member, tm: TypeManager): (r: TypeDetails)
    ensures !m.container.NoContainer? ==> r.typeName.Some?
  {
    if m.serialized && IsSerializable(m.declared) then TypeDetails(Some("blob"), tm.serialisation)
    else match m.container
      case CollectionOf(e, se) =>
        TypeDetails(Some(CollectionTypeName(m, if se then "blob" else TypeForNonPersistableType(e, false, tm, None))), None)
      case MapOf(k, v, sk, sv, _, _) =>
        var kt := if sk then "blob" else TypeForNonPersistableType(k, false, tm, None);
        var vt := if sv then "blob" else TypeForNonPersistableType(v, false, tm, None);
        TypeDetails(Some("map<" + kt + "," + vt + ">"), None)
      case ArrayOf(e, se) =>
        TypeDetails(Some("list<" + (if se then "blob" else TypeForNonPersistableType(e, false, tm, None)) + ">"), None)
      case NoContainer => ScalarType(m, tm)
  }

  /** The type of a 1-N/M-N relation: references stored as `varchar` (or `blob` when serialised). */
  function MultiValuedRelationType(m: Member): (r: Option<string>)
    ensures r.None? <==> m.container.NoContainer?
  {
    match m.container
    case CollectionOf(_, se) =>
      var el := if se then "blob" else "varchar";
      Some(if IsList(m.declared) then "list<" + el + ">"
           else if IsSet(m.declared) then "set<" + el + ">"
           else if m.relation == ManyToManyBi then "set<" + el + ">"
           else if m.ordered then "list<" + el + ">"
           else "set<" + el + ">")
    case MapOf(k, v, sk, sv, kp, vp) =>
      var kt := if kp then (if sk then "blob" else "varchar") else OrNull(CassandraTypeFor(k));
      var vt := if vp then (if sv then "blob" else "varchar") else OrNull(CassandraTypeFor(v));
      Some("map<" + kt + "," + vt + ">")
    case ArrayOf(_, se) => Some(if se then "list<blob>" else "list<varchar>")
    case NoContainer => None
  }

  /**
   * A map relation whose key is not persistable and whose key type has no default column type
   * gets the text "null" as its key type.
   */
  lemma MapRelationUnknownKeyIsNull(m: Member)
    requires m.container.MapOf? && !m.container.keyPersistent && CassandraTypeFor(m.container.key).None?
    ensures var r := MultiValuedRelationType(m);
      r.Some? && |r.value| >= 9 && r.value[..9] == "map<null,"
  {
    var vt := if m.container.valuePersistent then (if m.container.serializedValue then "blob" else "varchar")
      else OrNull(CassandraTypeFor(m.container.value));
    assert MultiValuedRelationType(m).value == "map<null," + (vt + ">");
  }

  /**
   * `getCassandraColumnTypeForMember`. An explicit converter wins and returns at once, then an
   * auto-apply converter; these two are the only paths that can leave the type name unset.
   * Every other path ends with a type name, `varchar` when nothing else applied.
   */
  function ColumnTypeForMember(m: Member, tm: TypeManager): (d: TypeDetails)
    ensures d.typeName.None? ==> m.converterName.Some? || m.declared in tm.autoApply
    ensures m.converterName.None? && m.declared !in tm.autoApply && d.converter.Some? ==> m.relation == NoRelation
  {
    if m.converterName.Some? then
      match ConverterForName(tm, m.converterName.value)
      case None => TypeDetails(None, None)
      case Some(c) => TypeDetails(CassandraTypeFor(c.datastoreType), Some(c))
    else if m.declared in tm.autoApply then
      var c := tm.autoApply[m.declared];
      TypeDetails(CassandraTypeFor(c.datastoreType), Some(c))
    else
      var r :=
        if m.relation == NoRelation then NonRelationType(m, tm)
        else if IsRelationSingleValued(m.relation) then TypeDetails(Some(if m.serialized then "blob" else "varchar"), None)
        else if IsRelationMultiValued(m.relation) then TypeDetails(MultiValuedRelationType(m), None)
        else TypeDetails(None, None);
      TypeDetails(Some(r.typeName.GetOr("varchar")), r.converter)
  }

  /** Neither converter applies to the member. */
  predicate NoConverter(m: Member, tm: TypeManager) {
    m.converterName.None? && m.declared !in tm.autoApply
  }

  /** A member with no relation, no converter, not serialised whole, no container. */
  predicate PlainScalar(m: Member, tm: TypeManager) {
    NoConverter(m, tm) && m.relation == NoRelation && !(m.serialized && IsSerializable(m.declared)) && m.container == NoContainer
  }

  /** An explicit converter wins over everything else, even when its datastore type has no column type. */
  lemma ExplicitConverterWins(m: Member, tm: TypeManager)
    requires m.converterName.Some? && m.converterName.value in tm.byName
    ensures var c := tm.byName[m.converterName.value];
      ColumnTypeForMember(m, tm) == TypeDetails(CassandraTypeFor(c.datastoreType), Some(c))
  {
  }

  /** Without an explicit converter, the auto-apply converter comes next and wins over the rest. */
  lemma AutoApplyConverterNext(m: Member, tm: TypeManager)
    requires m.converterName.None? && m.declared in tm.autoApply
    ensures var c := tm.autoApply[m.declared];
      ColumnTypeForMember(m, tm) == TypeDetails(CassandraTypeFor(c.datastoreType), Some(c))
  {
  }

  /** A plain scalar with a single, recognised jdbc-type hint takes that hint's column type. */
  lemma JdbcHintFirst(m: Member, tm: TypeManager)
    requires PlainScalar(m, tm) && HasJdbcHint(m)
    requires JdbcTypeHint(m.jdbcTypes[0].value, m.declared, tm).typeName.Some?
    ensures ColumnTypeForMember(m, tm) == JdbcTypeHint(m.jdbcTypes[0].value, m.declared, tm)
  {
  }

  /** A plain scalar of a type in the table, without a hint, gets the table's type and the converter to that type's Java class. */
  lemma StaticTableType(m: Member, tm: TypeManager)
    requires PlainScalar(m, tm) && !HasJdbcHint(m) && CassandraTypeFor(m.declared).Some?
    ensures var c := CassandraTypeFor(m.declared).value;
      ColumnTypeForMember(m, tm) == TypeDetails(Some(c), ConverterForType(tm, m.declared, JavaTypeForCassandraType(c).value))
  {
    TablesAgree();
  }

  /** Without a hint, a plain scalar gets the same type name as the non-persistable resolution: table, enum as `int`, converters, `blob`, `varchar`. */
  lemma {:induction false} ScalarAgreesWithNonPersistable(m: Member, tm: TypeManager)
    requires PlainScalar(m, tm) && !HasJdbcHint(m)
    ensures ColumnTypeForMember(m, tm).typeName == Some(TypeForNonPersistableType(m.declared, false, tm, None))
  {
  }

  /** Enum members default to the ordinal (`int`) unless a varchar jdbc-type asks for the name. */
  lemma EnumMemberType(m: Member, tm: TypeManager)
    requires PlainScalar(m, tm) && IsEnum(m.declared)
    ensures !HasJdbcHint(m) ==> ColumnTypeForMember(m, tm).typeName == Some("int")
    ensures HasJdbcHint(m) && EqualsIgnoreCase(m.jdbcTypes[0].value, "varchar") ==> ColumnTypeForMember(m, tm).typeName == Some("varchar")
  {
    assert CassandraTypeFor(m.declared).None?;
  }

  /**
   * Collections of non-persistable elements: `list<T>` for a List type, `set<T>` for a Set type,
   * otherwise `list<T>` exactly when ordering metadata exists; T is `blob` for serialised elements.
   */
  lemma CollectionShape(m: Member, tm: TypeManager)
    requires NoConverter(m, tm) && m.relation == NoRelation && !(m.serialized && IsSerializable(m.declared))
    requires m.container.CollectionOf?
    ensures var el := if m.container.serializedElement then "blob" else TypeForNonPersistableType(m.container.element, false, tm, None);
      ColumnTypeForMember(m, tm) == TypeDetails(Some(
        if IsList(m.declared) || (!IsSet(m.declared) && m.ordered) then "list<" + el + ">" else "set<" + el + ">"), None)
  {
  }

  /** Maps of non-persistable keys and values: always `map<K,V>` (both sides resolve), `blob` for a serialised side. */
  lemma MapShape(m: Member, tm: TypeManager)
    requires NoConverter(m, tm) && m.relation == NoRelation && !(m.serialized && IsSerializable(m.declared))
    requires m.container.MapOf?
    ensures var c := m.container;
      ColumnTypeForMember(m, tm).typeName == Some("map<" + (if c.serializedKey then "blob" else TypeForNonPersistableType(c.key, false, tm, None))
        + "," + (if c.serializedValue then "blob" else TypeForNonPersistableType(c.value, false, tm, None)) + ">")
  {
  }

  /** Arrays of non-persistable elements are `list<T>`. */
  lemma ArrayShape(m: Member, tm: TypeManager)
    requires NoConverter(m, tm) && m.relation == NoRelation && !(m.serialized && IsSerializable(m.declared))
    requires m.container.ArrayOf?
    ensures ColumnTypeForMember(m, tm).typeName == Some("list<" +
      (if m.container.serializedElement then "blob" else TypeForNonPersistableType(m.container.element, false, tm, None)) + ">")
  {
  }

  /** A serialised Serializable non-relation member is a `blob` through the serialisation converter, whatever its container. */
  lemma SerialisedMemberIsBlob(m: Member, tm: TypeManager)
    requires NoConverter(m, tm) && m.relation == NoRelation && m.serialized && IsSerializable(m.declared)
    ensures ColumnTypeForMember(m, tm) == TypeDetails(Some("blob"), tm.serialisation)
  {
  }

  /** 1-1 and N-1 relations hold the related identity as `varchar`, or `blob` when serialised. */
  lemma SingleValuedRelationType(m: Member, tm: TypeManager)
    requires NoConverter(m, tm) && IsRelationSingleValued(m.relation)
    ensures ColumnTypeForMember(m, tm) == TypeDetails(Some(if m.serialized then "blob" else "varchar"), None)
  {
  }

  /**
   * 1-N and M-N collections: a list or set of `varchar` (`blob` for serialised elements); an
   * M-N bidirectional collection that is neither List nor Set is always a set.
   */
  lemma MultiValuedCollectionType(m: Member, tm: TypeManager)
    requires NoConverter(m, tm) && IsRelationMultiValued(m.relation) && m.container.CollectionOf?
    ensures var el := if m.container.serializedElement then "blob" else "varchar";
      ColumnTypeForMember(m, tm).typeName == Some(
        if IsList(m.declared) || (!IsSet(m.declared) && m.relation != ManyToManyBi && m.ordered) then "list<" + el + ">" else "set<" + el + ">")
  {
  }

  /** 1-N and M-N arrays are `list<varchar>` or `list<blob>`. */
  lemma MultiValuedArrayType(m: Member, tm: TypeManager)
    requires NoConverter(m, tm) && IsRelationMultiValued(m.relation) && m.container.ArrayOf?
    ensures ColumnTypeForMember(m, tm).typeName == Some(if m.container.serializedElement then "list<blob>" else "list<varchar>")
  {
  }

  /** A relation with no container metadata falls through to `varchar`. */
  lemma RelationWithoutContainerIsVarchar(m: Member, tm: TypeManager)
    requires NoConverter(m, tm) && IsRelationMultiValued(m.relation) && m.container == NoContainer
    ensures ColumnTypeForMember(m, tm) == TypeDetails(Some("varchar"), None)
  {
  }

  // ---------------------------------------------------------------------------------------
  // Value codec
  // ---------------------------------------------------------------------------------------

  datatype DateKind = UtilDateKind | SqlDateKind | SqlTimeKind | SqlTimestampKind

  /**
   * A Java value as the codec sees it. Floating-point numbers are opaque tags; an object of a user
   * class carries an identity and its field values in member-position order; `Converted` is the
   * result of a (foreign) converter applied towards the datastore or towards the member type.
   */
  datatype Value =
    | Null
    | BoolV(b: bool)
    | ByteV(i: int)
    | ShortV(i: int)
    | IntV(i: int)
    | LongV(i: int)
    | CharV(c: char)
    | DoubleV(tag: string)
    | FloatV(tag: string)
    | StringV(s: string)
    | BigIntegerV(i: int)
    | BigDecimalV(tag: string)
    | EnumV(enumType: DeclaredType, ordinal: nat)
    | DateV(kind: DateKind, millis: int)
    | CalendarV(millis: int)
    | TimeZoneV(id: string)
    | LocaleV(tag: string)
    | BytesV(bytes: seq<bv8>)
    | ObjV(identity: nat, cls: DeclaredType, fields: seq<Value>)
    | Converted(conv: Converter, toDatastore: bool, source: Value)

  /** An enum value is one of its type's constants. */
  predicate ValidValue(v: Value) {
    v.EnumV? ==> v.enumType.EnumType? && v.ordinal < |v.enumType.constants|
  }

  function DateTypeOf(k: DateKind): DeclaredType {
    match k
    case UtilDateKind => UtilDate
    case SqlDateKind => SqlDate
    case SqlTimeKind => SqlTime
    case SqlTimestampKind => SqlTimestamp
  }

  /** `value.getClass()`. */
  function ClassOf(v: Value): DeclaredType
    requires !v.Null?
  {
    match v
    case BoolV(_) => Wrapper(Boolean)
    case ByteV(_) => Wrapper(Byte)
    case ShortV(_) => Wrapper(Short)
    case IntV(_) => Wrapper(Int)
    case LongV(_) => Wrapper(Long)
    case CharV(_) => Wrapper(Char)
    case DoubleV(_) => Wrapper(Double)
    case FloatV(_) => Wrapper(Float)
    case StringV(_) => JavaString
    case BigIntegerV(_) => BigIntegerType
    case BigDecimalV(_) => BigDecimalType
    case EnumV(t, _) => t
    case DateV(k, _) => DateTypeOf(k)
    case CalendarV(_) => CalendarType
    case TimeZoneV(_) => TimeZoneType
    case LocaleV(_) => LocaleType
    case BytesV(_) => ByteBufferType
    case ObjV(_, c, _) => c
    case Converted(c, toDs, _) => if toDs then c.datastoreType else c.memberType
  }

  const TwoTo63: int := 0x8000_0000_0000_0000
  const TwoTo64: int := 0x1_0000_0000_0000_0000

  /** `BigInteger.longValue()`: the low 64 bits, read as a two's-complement `long`. */
  function Wrap64(i: int): (r: int)
    ensures -TwoTo63 <= r < TwoTo63
    ensures (r - i) % TwoTo64 == 0
  {
    (i + TwoTo63) % TwoTo64 - TwoTo63
  }

  /** The last fallback of the write codec: a string converter, then a long converter, else the value unchanged. */
  function GenericDatastoreValue(v: Value, tm: TypeManager): (r: Value)
    requires !v.Null?
    ensures r == v || (r.Converted? && r.source == v)
  {
    match ConverterForType(tm, ClassOf(v), JavaString)
    case Some(c) => Converted(c, true, v)
    case None =>
      match ConverterForType(tm, ClassOf(v), Wrapper(Long))
      case Some(c) => Converted(c, true, v)
      case None => v
  }

  /**
   * `getDatastoreValueForNonPersistableValue`: the value to store for a member value, given the
   * column type. Fails (NullPointerException) only when a serialised value meets no serialisation converter.
   */
  function DatastoreValueForNonPersistableValue(v: Value, datastoreType: string, serialised: bool, tm: TypeManager): (r: Result<Value, string>)
    requires ValidValue(v)
    ensures r.Failure? ==> serialised && tm.serialisation.None?
    ensures v.Null? ==> r == Success(Null)
  {
    if v.Null? then Success(Null)
    else if serialised && IsSerializable(ClassOf(v)) then
      match tm.serialisation
      case None => Failure("NullPointerException")
      case Some(c) => Success(Converted(c, true, v))
    else match v
      case CharV(ch) => Success(StringV([ch]))
      case ByteV(i) => Success(IntV(i))
      case ShortV(i) => Success(IntV(i))
      case BoolV(_) => Success(v)
      case IntV(_) => Success(v)
      case LongV(_) => Success(v)
      case DoubleV(_) => Success(v)
      case FloatV(_) => Success(v)
      case BigIntegerV(i) => Success(LongV(Wrap64(i)))
      case BigDecimalV(t) => Success(DoubleV(t))
      case EnumV(t, o) => Success(if datastoreType == "varchar" then StringV(t.constants[o]) else IntV(o))
      case CalendarV(ms) =>
        var sc := ConverterForType(tm, CalendarType, JavaString);
        if datastoreType == "varchar" && sc.Some? then Success(Converted(sc.value, true, v)) else Success(DateV(UtilDateKind, ms))
      case DateV(k, _) =>
        var sc := ConverterForType(tm, DateTypeOf(k), JavaString);
        if datastoreType == "varchar" && sc.Some? then Success(Converted(sc.value, true, v)) else Success(v)
      case TimeZoneV(_) =>
        var sc := ConverterForType(tm, TimeZoneType, JavaString);
        if sc.Some? then Success(Converted(sc.value, true, v)) else Success(GenericDatastoreValue(v, tm))
      case LocaleV(_) =>
        var sc := ConverterForType(tm, LocaleType, JavaString);
        if sc.Some? then Success(Converted(sc.value, true, v)) else Success(GenericDatastoreValue(v, tm))
      case StringV(_) => Success(GenericDatastoreValue(v, tm))
      case BytesV(_) => Success(GenericDatastoreValue(v, tm))
      case ObjV(_, _, _) => Success(GenericDatastoreValue(v, tm))
      case Converted(_, _, _) => Success(GenericDatastoreValue(v, tm))
      case Null => Success(Null)
  }

  /** The position of the first constant named `s`. */
  function FirstIndex(constants: seq<string>, s: string): (r: nat)
    requires s in constants
    ensures r < |constants| && constants[r] == s
    ensures forall j :: 0 <= j < r ==> constants[j] != s
  {
    if constants[0] == s then 0 else 1 + FirstIndex(constants[1..], s)
  }

  /** Reading a date-like member: a string converter for `varchar`, otherwise a `Date` rebuilt as the member's type. */
  function DateMemberValue(dv: Value, cassandraType: string, javaType: DeclaredType, tm: TypeManager): (r: Result<Value, string>)
    requires javaType in {SqlDate, SqlTime, SqlTimestamp, CalendarType, UtilDate}
    ensures r.Failure? ==> r.error == "ClassCastException"
    ensures r.Success? && !r.value.Converted? ==> dv.DateV? && (javaType == CalendarType <==> r.value.CalendarV?)
  {
    var sc := ConverterForType(tm, javaType, JavaString);
    if cassandraType == "varchar" && sc.Some? then
      (if dv.StringV? then Success(Converted(sc.value, false, dv)) else Failure("ClassCastException"))
    else if !dv.DateV? then Failure("ClassCastException")
    else match javaType
      case SqlDate => Success(DateV(SqlDateKind, dv.millis))
      case SqlTime => Success(DateV(SqlTimeKind, dv.millis))
      case SqlTimestamp => Success(DateV(SqlTimestampKind, dv.millis))
      case CalendarType => Success(CalendarV(dv.millis))
      case UtilDate => Success(dv)
  }

  /**
   * `getJavaValueForDatastoreValue`: the member value for a value read from a column. Failures are
   * the casts and lookups the source performs unchecked (ClassCastException, an ordinal out of
   * range, an unknown enum name, a missing serialisation converter).
   */
  function JavaValueForDatastoreValue(dv: Value, cassandraType: string, javaType: DeclaredType, tm: TypeManager): (r: Result<Value, string>)
    ensures dv.Null? ==> r == Success(Null)
    ensures r.Success? && javaType.EnumType? && !dv.Null? && !(cassandraType == "blob" && dv.BytesV?) ==>
      r.value.EnumV? && r.value.enumType == javaType && ValidValue(r.value)
  {
    if dv.Null? then Success(Null)
    else if cassandraType == "blob" && dv.BytesV? then
      match tm.serialisation
      case None => Failure("NullPointerException")
      case Some(c) => Success(Converted(c, false, dv))
    else if javaType.EnumType? then
      if cassandraType == "int" then
        if !dv.IntV? then Failure("ClassCastException")
        else if 0 <= dv.i < |javaType.constants| then Success(EnumV(javaType, dv.i))
        else Failure("ArrayIndexOutOfBoundsException")
      else if !dv.StringV? then Failure("ClassCastException")
      else if dv.s in javaType.constants then Success(EnumV(javaType, FirstIndex(javaType.constants, dv.s)))
      else Failure("IllegalArgumentException")
    else if javaType in {SqlDate, SqlTime, SqlTimestamp, CalendarType, UtilDate} then
      DateMemberValue(dv, cassandraType, javaType, tm)
    else if dv.StringV? then
      match ConverterForType(tm, javaType, JavaString)
      case Some(c) => Success(Converted(c, false, dv))
      case None => Success(dv)
    else if dv.LongV? then
      match ConverterForType(tm, javaType, Wrapper(Long))
      case Some(c) => Success(Converted(c, false, dv))
      case None => Success(dv)
    else if dv.IntV? then
      match ConverterForType(tm, javaType, Wrapper(Int))
      case Some(c) => Success(Converted(c, false, dv))
      case None => Success(dv)
    else Success(dv)
  }

  /** Enum constants are distinct, as Java guarantees. */
  predicate DistinctConstants(t: DeclaredType) {
    t.EnumType? && forall i, j :: 0 <= i < j < |t.constants| ==> t.constants[i] != t.constants[j]
  }

  /**
   * An enum constant written to a `varchar` column (as its name) or an `int` column (as its
   * ordinal) reads back as the same constant.
   */
  lemma {:induction false} EnumRoundTrip(e: Value, columnType: string, tm: TypeManager)
    requires e.EnumV? && ValidValue(e) && DistinctConstants(e.enumType)
    requires columnType == "varchar" || columnType == "int"
    ensures DatastoreValueForNonPersistableValue(e, columnType, false, tm).Success?
    ensures JavaValueForDatastoreValue(DatastoreValueForNonPersistableValue(e, columnType, false, tm).value, columnType, e.enumType, tm) == Success(e)
  {
    var t := e.enumType;
    if columnType == "varchar" {
      var name := t.constants[e.ordinal];
      var k := FirstIndex(t.constants, name);
      assert k == e.ordinal;
    }
  }

  /** An enum written as an ordinal but read from any column type other than `int` fails the string cast. */
  lemma EnumOrdinalReadAsNameFails(e: Value, columnType: string, tm: TypeManager)
    requires e.EnumV? && ValidValue(e) && columnType != "varchar" && columnType != "int" && columnType != "blob"
    ensures DatastoreValueForNonPersistableValue(e, columnType, false, tm) == Success(IntV(e.ordinal))
    ensures JavaValueForDatastoreValue(IntV(e.ordinal), columnType, e.enumType, tm) == Failure("ClassCastException")
  {
  }

  /** Characters are stored as one-character strings; bytes and shorts are widened to `int`. */
  lemma NarrowTypesWritten(v: Value, columnType: string, serialised: bool, tm: TypeManager)
    requires v.CharV? || v.ByteV? || v.ShortV?
    requires !serialised
    ensures DatastoreValueForNonPersistableValue(v, columnType, serialised, tm) ==
      Success(if v.CharV? then StringV([v.c]) else IntV(v.i))
  {
  }

  /** A BigInteger is stored as its low 64 bits: unchanged exactly when it fits in a `long`. */
  lemma BigIntegerWritten(i: int, columnType: string, tm: TypeManager)
    ensures DatastoreValueForNonPersistableValue(BigIntegerV(i), columnType, false, tm) == Success(LongV(Wrap64(i)))
    ensures Wrap64(i) == i <==> -TwoTo63 <= i < TwoTo63
  {
    if -TwoTo63 <= i < TwoTo63 {
      assert (i + TwoTo63) % TwoTo64 == i + TwoTo63;
    }
  }

  // ---------------------------------------------------------------------------------------
  // CQL statement logging
  // ---------------------------------------------------------------------------------------

  /** Prepend `prefix` to a successful result. */
  function Prepend(prefix: string, r: Result<string, string>): Result<string, string> {
    match r
    case Success(s) => Success(prefix + s)
    case Failure(e) => Failure(e)
  }

  /**
   * Every `?` of `s` replaced, left to right, by `<value>` for the next value; the text between
   * is kept. Running out of values is the ArrayIndexOutOfBoundsException of the source.
   */
  function Substituted(s: string, values: seq<string>): (r: Result<string, string>)
    ensures r.Failure? ==> r == Failure("ArrayIndexOutOfBoundsException")
    decreases |s|
  {
    if s == [] then Success("")
    else if s[0] == '?' then
      if values == [] then Failure("ArrayIndexOutOfBoundsException")
      else Prepend("<" + values[0] + ">", Substituted(s[1..], values[1..]))
    else Prepend([s[0]], Substituted(s[1..], values))
  }

  /** What `logCqlStatement` logs: the statement itself when there are no values or it starts with `?`. */
  function LoggedCql(stmt: string, values: seq<string>): (r: Result<string, string>)
    ensures r.Failure? <==> values != [] && (stmt == [] || stmt[0] != '?') && Count(stmt, '?') > |values|
  {
    SubstitutedFailsIff(stmt, values);
    if values == [] || (stmt != [] && stmt[0] == '?') then Success(stmt) else Substituted(stmt, values)
  }

  lemma PrependPrepend(a: string, b: string, r: Result<string, string>)
    ensures Prepend(a, Prepend(b, r)) == Prepend(a + b, r)
  {
    if r.Success? { assert a + (b + r.value) == (a + b) + r.value; }
  }

  /** Substitution fails exactly when there are more placeholders than values. */
  lemma {:induction false} SubstitutedFailsIff(s: string, values: seq<string>)
    ensures Substituted(s, values).Failure? <==> Count(s, '?') > |values|
    decreases |s|
  {
    if s != [] {
      if s[0] == '?' {
        if values != [] { SubstitutedFailsIff(s[1..], values[1..]); }
      } else {
        SubstitutedFailsIff(s[1..], values);
      }
    }
  }

  /** Text without placeholders is kept verbatim. */
  lemma {:induction false} SubstitutedNoPlaceholder(s: string, values: seq<string>)
    requires forall k :: 0 <= k < |s| ==> s[k] != '?'
    ensures Substituted(s, values) == Success(s)
    decreases |s|
  {
    if s != [] {
      SubstitutedNoPlaceholder(s[1..], values);
      assert [s[0]] + s[1..] == s;
    }
  }

  /** The text up to the first `?` is kept, the `?` becomes `<values[0]>`, and substitution continues after it. */
  lemma {:induction false} SubstitutedAtFirstMark(s: string, values: seq<string>, k: nat)
    requires k < |s| && s[k] == '?' && values != []
    requires forall j :: 0 <= j < k ==> s[j] != '?'
    ensures Substituted(s, values) == Prepend(s[..k] + "<" + values[0] + ">", Substituted(s[k + 1..], values[1..]))
    decreases k
  {
    if k == 0 {
      assert s[1..] == s[k + 1..];
      assert s[..k] + "<" + values[0] + ">" == "<" + values[0] + ">";
    } else {
      var t := s[1..];
      assert t[k - 1] == '?';
      SubstitutedAtFirstMark(t, values, k - 1);
      assert t[k..] == s[k + 1..];
      var piece := t[..k - 1] + "<" + values[0] + ">";
      PrependPrepend([s[0]], piece, Substituted(s[k + 1..], values[1..]));
      assert s[..k] == [s[0]] + t[..k - 1];
      assert [s[0]] + piece == s[..k] + "<" + values[0] + ">";
    }
  }

  /** `logCqlStatement`: the message it logs for `stmt` with the given parameter values (each already rendered as text). */
  method LogCqlStatement(stmt: string, values: seq<string>) returns (logged: Result<string, string>)
    ensures logged == LoggedCql(stmt, values)
  {
    if |values| == 0 {
      return Success(stmt);
    }
    var str := "";
    var paramNo := 0;
    var currentPos := 0;
    var moreParams := true;
    ghost var leadingMark := stmt != [] && stmt[0] == '?';
    assert stmt[0..] == stmt && values[0..] == values;
    if !leadingMark {
      ghost var r := Substituted(stmt, values);
      if r.Success? { assert "" + r.value == r.value; }
    }
    while moreParams
      invariant 0 <= currentPos <= |stmt| && 0 <= paramNo <= |values|
      invariant leadingMark ==> currentPos == 0 && str == ""
      invariant !leadingMark ==> LoggedCql(stmt, values) == Prepend(str, Substituted(stmt[currentPos..], values[paramNo..]))
      invariant !moreParams && !leadingMark ==> forall k :: currentPos <= k < |stmt| ==> stmt[k] != '?'
      decreases (if moreParams then 1 else 0) + |stmt| - currentPos
    {
      var pos := IndexOf(stmt, '?', currentPos);
      if pos > 0 {
        ghost var s := stmt[currentPos..];
        ghost var k := pos - currentPos;
        assert forall j :: 0 <= j < k ==> s[j] == stmt[currentPos + j];
        if paramNo >= |values| {
          SubstitutedOutOfValues(s, k);
          assert values[paramNo..] == [];
          return Failure("ArrayIndexOutOfBoundsException");
        }
        SubstitutedAtFirstMark(s, values[paramNo..], k);
        assert s[..k] == stmt[currentPos..pos];
        assert s[k + 1..] == stmt[pos + 1..];
        assert values[paramNo..][1..] == values[paramNo + 1..];
        var piece := stmt[currentPos..pos] + "<" + values[paramNo] + ">";
        PrependPrepend(str, piece, Substituted(stmt[pos + 1..], values[paramNo + 1..]));
        str := str + piece;
        paramNo := paramNo + 1;
        currentPos := pos + 1;
      } else {
        moreParams := false;
      }
    }
    if !leadingMark {
      SubstitutedNoPlaceholder(stmt[currentPos..], values[paramNo..]);
    }
    if leadingMark {
      assert str + stmt[currentPos..] == stmt;
    }
    str := str + stmt[currentPos..];
    logged := Success(str);
  }

  /** A `?` with no value left makes the whole substitution fail. */
  lemma {:induction false} SubstitutedOutOfValues(s: string, k: nat)
    requires k < |s| && s[k] == '?'
    ensures Substituted(s, []).Failure?
    decreases k
  {
    if k > 0 { SubstitutedOutOfValues(s[1..], k - 1); }
  }
}
