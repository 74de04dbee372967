/**
 * The persistence metadata the core reads: declared Java types (with the reflection checks the
 * source performs folded in as tags), member and class descriptions, and the naming factory.
 * All of it is read-only input, owned by the metadata loader.
 */
module Metadata {
  import opened Wrappers

  datatype Primitive = Boolean | Byte | Char | Double | Float | Int | Long | Short

  /** How a user type relates to `java.util.List` / `java.util.Set`. */
  datatype CollectionKind = ListKind | SetKind | OtherCollectionKind | NotCollection

  /**
   * A declared Java type. The JDK types the type tables name have a tag each; every other class
   * is a `UserType` carrying the answers to the reflection questions the source asks of it.
   */
  datatype DeclaredType =
    | Prim(p: Primitive)        // boolean, byte, ... (the primitive classes)
    | Wrapper(p: Primitive)     // java.lang.Boolean, java.lang.Byte, ...
    | JavaString                // java.lang.String
    | BigDecimalType            // java.math.BigDecimal
    | BigIntegerType            // java.math.BigInteger
    | UtilDate                  // java.util.Date
    | SqlDate                   // java.sql.Date
    | SqlTime                   // java.sql.Time
    | SqlTimestamp              // java.sql.Timestamp
    | CalendarType              // java.util.Calendar
    | TimeZoneType              // java.util.TimeZone
    | LocaleType                // java.util.Locale
    | ByteBufferType            // java.nio.ByteBuffer
    | EnumType(enumName: string, constants: seq<string>)
    | UserType(className: string, kind: CollectionKind, serializable: bool)

  /** `Serializable.class.isAssignableFrom(t)`. */
  predicate IsSerializable(t: DeclaredType) {
    match t
    case Prim(_) => false
    case ByteBufferType => false
    case UserType(_, _, s) => s
    case _ => true
  }

  /** `Enum.class.isAssignableFrom(t)`. */
  predicate IsEnum(t: DeclaredType) { t.EnumType? }

  /** `List.class.isAssignableFrom(t)`. */
  predicate IsList(t: DeclaredType) { t.UserType? && t.kind == ListKind }

  /** `Set.class.isAssignableFrom(t)`. */
  predicate IsSet(t: DeclaredType) { t.UserType? && t.kind == SetKind }

  /** `ClassUtils.isPrimitiveWrapperType(t.getName())`. */
  predicate IsPrimitiveWrapper(t: DeclaredType) { t.Wrapper? }

  datatype RelationType =
    | NoRelation
    | OneToOneUni | OneToOneBi | ManyToOneUni | ManyToOneBi
    | OneToManyUni | OneToManyBi | ManyToManyBi

  /** `RelationType.isRelationSingleValued`. */
  predicate IsRelationSingleValued(r: RelationType) {
    r == OneToOneUni || r == OneToOneBi || r == ManyToOneUni || r == ManyToOneBi
  }

  /** `RelationType.isRelationMultiValued`. */
  predicate IsRelationMultiValued(r: RelationType) {
    r == OneToManyUni || r == OneToManyBi || r == ManyToManyBi
  }

  /** The container metadata of a member: at most one of collection, map and array. */
  datatype Container =
    | NoContainer
    | CollectionOf(element: DeclaredType, serializedElement: bool)
    | MapOf(key: DeclaredType, value: DeclaredType, serializedKey: bool, serializedValue: bool,
            keyPersistent: bool, valuePersistent: bool)
    | ArrayOf(element: DeclaredType, serializedElement: bool)

  /** Index metadata: the columns it names (class-level indexes name them explicitly). */
  datatype IndexMeta = IndexMeta(columnNames: seq<string>)

  /**
   * A member (field or property) of a persistable class.
   * `jdbcTypes` holds the jdbc-type of each of its `<column>` declarations; `embedded` is the
   * answer of `MetaDataUtils.isMemberEmbedded`; `ownerMember` is the owner-member name of its
   * embedded metadata; `embeddedMembers` are the members of its type's class metadata when
   * that type is persistable (in member-position order), empty otherwise.
   */
  datatype Member = Member(
    name: string,
    declared: DeclaredType,
    converterName: Option<string>,
    relation: RelationType,
    serialized: bool,
    container: Container,
    ordered: bool,
    jdbcTypes: seq<Option<string>>,
    index: Option<IndexMeta>,
    embedded: bool,
    ownerMember: Option<string>,
    embeddedMembers: seq<Member>)

  datatype IdentityType = ApplicationIdentity | DatastoreIdentity | NondurableIdentity

  datatype VersionStrategy = VersionNumber | DateTime | StateCheck | NoVersionStrategy

  /** Version metadata of a class; `fieldName` is set when a member holds the version. */
  datatype VersionMeta = VersionMeta(fieldName: Option<string>, strategy: VersionStrategy)

  /** `isVersioned`: version metadata is present and its strategy is not NONE. */
  predicate IsVersioned(version: Option<VersionMeta>) {
    version.Some? && version.value.strategy != NoVersionStrategy
  }

  /**
   * A persistable class: its members in absolute position order, its identity, the positions of
   * its primary-key members, its version metadata if it declares any, whether it has a
   * discriminator, the value of its "multitenancy-disable" extension, and its class-level indexes.
   */
  datatype ClassMeta = ClassMeta(
    fullName: string,
    members: seq<Member>,
    identity: IdentityType,
    pkPositions: seq<nat>,
    version: Option<VersionMeta>,
    hasDiscriminator: bool,
    multitenancyDisable: Option<string>,
    indexes: seq<IndexMeta>)

  /** The surrogate columns the naming factory names per class. */
  datatype SurrogateColumn = VersionColumn | DiscriminatorColumn | MultitenancyColumn | DatastoreIdColumn

  /**
   * The naming factory, whose rules are not part of this model: table, column and index names
   * as functions of the metadata.
   */
  datatype NamingFactory = NamingFactory(
    tableName: ClassMeta -> string,
    columnName: Member -> string,
    embeddedColumnName: seq<Member> -> string,
    surrogateColumnName: (ClassMeta, SurrogateColumn) -> string,
    memberIndexName: (Member, IndexMeta) -> string,
    classIndexName: (ClassMeta, IndexMeta, nat) -> string)
}
