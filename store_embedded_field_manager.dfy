/**
 * The field manager that writes the fields of an embedded (possibly nested) persistable object
 * into the column map of the owning row. The manager is stateful: `storeObjectField` adds
 * entries to its `columnValueByName` map, builds nested managers for nested embedded objects,
 * and may repair the owner back-reference of the embedded object through its object provider.
 */
module EmbeddedFieldManager {
  import opened Wrappers
  import opened Metadata

  /** A field value: null, an object reference (compared by identity), or any other value. */
  datatype Value = Null | Ref(id: nat) | Scalar(text: string)

  /** The column identifiers of a member mapping; a mapping always has a first column. */
  type Columns = s: seq<string> | |s| > 0 witness [""]

  /**
   * What the manager consults outside itself: the table's column mapping for an embedded
   * member chain, what the non-embedded store path of the superclass writes for a chain and a
   * value, and the value the object provider hands over for field `i` of an embedded object.
   */
  datatype Env = Env(
    mapping: seq<Member> -> Columns,
    superStore: (seq<Member>, Value) -> map<string, Value>,
    fieldValue: (Value, Member, nat) -> Value)

  /** The state manager of the embedded object, as far as the field manager uses it. */
  class ObjectProvider {
    /** `getObject()`. */
    const managed: Value
    /** `getEmbeddedOwners()`, as the owners' objects; `None` for a null array. */
    const embeddedOwners: Option<seq<Value>>
    /** The fields replaced on the managed object so far. */
    var fields: map<nat, Value>

    constructor (managed: Value, embeddedOwners: Option<seq<Value>>)
      ensures this.managed == managed && this.embeddedOwners == embeddedOwners && fields == map[]
    {
      this.managed := managed;
      this.embeddedOwners := embeddedOwners;
      fields := map[];
    }

    /** `replaceField`: the field now holds `v`. */
    method ReplaceField(fieldNumber: nat, v: Value)
      modifies this
      ensures fields == old(fields)[fieldNumber := v]
    {
      fields := fields[fieldNumber := v];
    }
  }

  /** Every column of a mapping set to null. */
  function Nulls(cols: seq<string>): map<string, Value> {
    map c | c in cols :: Null
  }

  /** The member links back to the owner: the chain has one member whose embedded metadata names it as owner member. */
  predicate IsOwnerLink(mmds: seq<Member>, mmd: Member) {
    |mmds| == 1 && mmds[0].ownerMember == Some(mmd.name)
  }

  /** The owner the back-reference is repaired to: only with exactly one embedded owner that is not already the value. */
  function OwnerRepair(owners: Option<seq<Value>>, value: Value): Option<Value> {
    if owners.Some? && |owners.value| == 1 && value != owners.value[0] then Some(owners.value[0]) else None
  }

  /**
   * A member of a null embedded object that is nulled directly: a String or primitive member,
   * or any member when the outer member's own type is a primitive wrapper.
   */
  predicate NulledDirectly(outer: Member, embMmd: Member) {
    embMmd.declared == JavaString || embMmd.declared.Prim? || IsPrimitiveWrapper(outer.declared)
  }

  /**
   * The entries `storeObjectField` adds for field `i` of a manager for the chain `mmds` over the
   * class with `members`, `nulling` when the manager has no object provider.
   */
  function Entries(env: Env, mmds: seq<Member>, members: seq<Member>, nulling: bool, i: nat, value: Value): map<string, Value>
    requires mmds != [] && i < |members|
    decreases members[i], 1, 0
  {
    var mmd := members[i];
    if IsOwnerLink(mmds, mmd) then map[]
    else if mmd.relation != NoRelation && mmd.embedded then
      if IsRelationSingleValued(mmd.relation) then
        if value == Null then
          NullDirect(env, mmds + [mmd], mmd, |mmd.embeddedMembers|) + NullNested(env, mmds + [mmd], mmd, |mmd.embeddedMembers|)
        else ProvidedEntries(env, mmds + [mmd], mmd, value, |mmd.embeddedMembers|)
      else map[env.mapping(mmds + [mmd])[0] := Null]
    else if nulling then Nulls(env.mapping(mmds + [mmd]))
    else env.superStore(mmds + [mmd], value)
  }

  /** For a null embedded object: the entries written directly, over its first `n` members. */
  function NullDirect(env: Env, chain: seq<Member>, mmd: Member, n: nat): map<string, Value>
    requires n <= |mmd.embeddedMembers|
    decreases mmd, 0, n
  {
    if n == 0 then map[]
    else
      var embMmd := mmd.embeddedMembers[n - 1];
      NullDirect(env, chain, mmd, n - 1) + (if NulledDirectly(mmd, embMmd) then Nulls(env.mapping(chain + [embMmd])) else map[])
  }

  /** For a null embedded object: the entries of the nested nulling manager, over its first `n` members. */
  function NullNested(env: Env, chain: seq<Member>, mmd: Member, n: nat): map<string, Value>
    requires chain != [] && n <= |mmd.embeddedMembers|
    decreases mmd, 0, n
  {
    if n == 0 then map[]
    else
      var embMmd := mmd.embeddedMembers[n - 1];
      NullNested(env, chain, mmd, n - 1) + (if NulledDirectly(mmd, embMmd) then map[] else Entries(env, chain, mmd.embeddedMembers, true, n - 1, Null))
  }

  /** For a non-null embedded object: the entries of the nested manager its fields are provided to, over its first `n` members. */
  function ProvidedEntries(env: Env, chain: seq<Member>, mmd: Member, value: Value, n: nat): map<string, Value>
    requires chain != [] && n <= |mmd.embeddedMembers|
    decreases mmd, 0, n
  {
    if n == 0 then map[]
    else ProvidedEntries(env, chain, mmd, value, n - 1) + Entries(env, chain, mmd.embeddedMembers, false, n - 1, env.fieldValue(value, mmd, n - 1))
  }

  /** A manager for the embedded member chain `mmds`, over the members of the embedded class. */
  class StoreEmbeddedFieldManager {
    const env: Env
    const members: seq<Member>
    const mmds: seq<Member>
    const op: Option<ObjectProvider>
    var columnValueByName: map<string, Value>

    /** The constructor without an object provider, used to null out every column of an embedded object. */
    constructor ForNulling(env: Env, members: seq<Member>, mmds: seq<Member>)
      ensures this.env == env && this.members == members && this.mmds == mmds
      ensures op == None && columnValueByName == map[]
    {
      this.env := env;
      this.members := members;
      this.mmds := mmds;
      op := None;
      columnValueByName := map[];
    }

    constructor (op: ObjectProvider, env: Env, members: seq<Member>, mmds: seq<Member>)
      ensures this.env == env && this.members == members && this.mmds == mmds
      ensures this.op == Some(op) && columnValueByName == map[]
    {
      this.env := env;
      this.members := members;
      this.mmds := mmds;
      this.op := Some(op);
      columnValueByName := map[];
    }

    /** `getColumnMapping`: the mapping of the chain `mmds` extended by exactly the member at `fieldNumber`. */
    method GetColumnMapping(fieldNumber: nat) returns (mapping: Columns)
      requires fieldNumber < |members|
      ensures |mapping| > 0 && mapping == env.mapping(mmds + [members[fieldNumber]])
    {
      var embMmds := mmds + [members[fieldNumber]];
      mapping := env.mapping(embMmds);
    }

    /**
     * `storeObjectField`: the entries added to the column map, and the owner back-reference
     * repaired through the object provider when the member links back to the owner.
     */
    method StoreObjectField(fieldNumber: nat, value: Value)
      requires fieldNumber < |members| && mmds != []
      modifies this, if op.Some? then {op.value} else {}
      ensures columnValueByName == old(columnValueByName) + Entries(env, mmds, members, op.None?, fieldNumber, value)
      ensures forall k :: k in old(columnValueByName) ==> k in columnValueByName
      ensures op.Some? && IsOwnerLink(mmds, members[fieldNumber]) && OwnerRepair(op.value.embeddedOwners, value).Some? ==>
        op.value.fields == old(op.value.fields)[fieldNumber := OwnerRepair(op.value.embeddedOwners, value).value]
      ensures op.Some? && !(IsOwnerLink(mmds, members[fieldNumber]) && OwnerRepair(op.value.embeddedOwners, value).Some?) ==>
        op.value.fields == old(op.value.fields)
      decreases members[fieldNumber], 1, 0
    {
      var mmd := members[fieldNumber];
      if |mmds| == 1 && mmds[0].ownerMember.Some? && mmds[0].ownerMember.value == mmd.name {
        if op.Some? {
          var owners := op.value.embeddedOwners;
          if owners.Some? && |owners.value| == 1 && value != owners.value[0] {
            op.value.ReplaceField(fieldNumber, owners.value[0]);
          }
        }
        assert columnValueByName + map[] == columnValueByName;
        return;
      }
      if mmd.relation != NoRelation && mmd.embedded {
        if IsRelationSingleValued(mmd.relation) {
          if value == Null {
            StoreNullEmbedded(mmd);
          } else {
            StoreProvidedEmbedded(mmd, value);
          }
        } else {
          var mapping := GetColumnMapping(fieldNumber);
          columnValueByName := columnValueByName[mapping[0] := Null];
        }
        return;
      }
      if op.None? {
        var mapping := GetColumnMapping(fieldNumber);
        NullColumns(mapping);
        return;
      }
      columnValueByName := columnValueByName + env.superStore(mmds + [mmd], value);
    }

    /** Puts null for every column of `mapping`. */
    method NullColumns(mapping: seq<string>)
      modifies this
      ensures columnValueByName == old(columnValueByName) + Nulls(mapping)
    {
      for j := 0 to |mapping|
        invariant columnValueByName == old(columnValueByName) + Nulls(mapping[..j])
      {
        assert mapping[..j + 1] == mapping[..j] + [mapping[j]];
        columnValueByName := columnValueByName[mapping[j] := Null];
      }
      assert mapping[..|mapping|] == mapping;
    }

    /**
     * A null embedded object: String, primitive and (by the outer member's type) wrapper members
     * are nulled directly, the others through a nested nulling manager for the chain extended by
     * `mmd`, whose entries are merged in at the end.
     */
    method StoreNullEmbedded(mmd: Member)
      requires mmds != []
      modifies this
      ensures columnValueByName == old(columnValueByName)
        + (NullDirect(env, mmds + [mmd], mmd, |mmd.embeddedMembers|) + NullNested(env, mmds + [mmd], mmd, |mmd.embeddedMembers|))
      decreases mmd, 0, 1
    {
      var embMmds := mmds + [mmd];
      var storeEmbFM := new StoreEmbeddedFieldManager.ForNulling(env, mmd.embeddedMembers, embMmds);
      for i := 0 to |mmd.embeddedMembers|
        invariant columnValueByName == old(columnValueByName) + NullDirect(env, embMmds, mmd, i)
        invariant storeEmbFM.columnValueByName == NullNested(env, embMmds, mmd, i)
      {
        ghost var before := NullDirect(env, embMmds, mmd, i);
        ghost var direct := if NulledDirectly(mmd, mmd.embeddedMembers[i]) then Nulls(env.mapping(embMmds + [mmd.embeddedMembers[i]])) else map[];
        NullEmbeddedMember(storeEmbFM, mmd, i);
        assert NullDirect(env, embMmds, mmd, i + 1) == before + direct;
        MapUnionAssoc(old(columnValueByName), before, direct);
      }
      MapUnionAssoc(old(columnValueByName), NullDirect(env, embMmds, mmd, |mmd.embeddedMembers|), NullNested(env, embMmds, mmd, |mmd.embeddedMembers|));
      columnValueByName := columnValueByName + storeEmbFM.columnValueByName;
    }

    /** One member of a null embedded object: nulled here directly, or handed to the nested nulling manager. */
    method NullEmbeddedMember(storeEmbFM: StoreEmbeddedFieldManager, mmd: Member, i: nat)
      requires storeEmbFM != this && storeEmbFM.op == None && storeEmbFM.env == env
      requires mmds != [] && storeEmbFM.mmds == mmds + [mmd] && storeEmbFM.members == mmd.embeddedMembers && i < |mmd.embeddedMembers|
      modifies this, storeEmbFM
      ensures columnValueByName == old(columnValueByName)
        + (if NulledDirectly(mmd, mmd.embeddedMembers[i]) then Nulls(env.mapping(mmds + [mmd] + [mmd.embeddedMembers[i]])) else map[])
      ensures storeEmbFM.columnValueByName == old(storeEmbFM.columnValueByName)
        + (if NulledDirectly(mmd, mmd.embeddedMembers[i]) then map[] else Entries(env, mmds + [mmd], mmd.embeddedMembers, true, i, Null))
      decreases mmd, 0, 0
    {
      var embMmd := mmd.embeddedMembers[i];
      if embMmd.declared == JavaString || embMmd.declared.Prim? || IsPrimitiveWrapper(mmd.declared) {
        NullColumns(env.mapping(mmds + [mmd] + [embMmd]));
        assert storeEmbFM.columnValueByName + map[] == storeEmbFM.columnValueByName;
      } else {
        storeEmbFM.StoreObjectField(i, Null);
        assert columnValueByName + map[] == columnValueByName;
      }
    }

    /**
     * A non-null embedded object: its object provider hands every field to a nested manager for
     * the chain extended by `mmd`, whose entries are merged in.
     */
    method StoreProvidedEmbedded(mmd: Member, value: Value)
      requires mmds != []
      modifies this
      ensures columnValueByName == old(columnValueByName) + ProvidedEntries(env, mmds + [mmd], mmd, value, |mmd.embeddedMembers|)
      decreases mmd, 0, 0
    {
      var embMmds := mmds + [mmd];
      var embOP := new ObjectProvider(value, if op.Some? then Some([op.value.managed]) else None);
      var storeEmbFM := new StoreEmbeddedFieldManager(embOP, env, mmd.embeddedMembers, embMmds);
      for i := 0 to |mmd.embeddedMembers|
        invariant storeEmbFM.columnValueByName == ProvidedEntries(env, embMmds, mmd, value, i)
        invariant columnValueByName == old(columnValueByName)
      {
        storeEmbFM.StoreObjectField(i, env.fieldValue(value, mmd, i));
      }
      columnValueByName := columnValueByName + storeEmbFM.columnValueByName;
    }
  }

  /** `putAll` after `put`s: merging is associative. */
  lemma MapUnionAssoc(a: map<string, Value>, b: map<string, Value>, c: map<string, Value>)
    ensures (a + b) + c == a + (b + c)
  {
  }

  /** Every value in `m` is null. */
  predicate AllNull(m: map<string, Value>) {
    forall k :: k in m ==> m[k] == Null
  }

  /** A nulling manager storing null writes nothing but nulls, however deeply the embedded objects nest. */
  lemma {:induction false} NullingWritesOnlyNulls(env: Env, mmds: seq<Member>, members: seq<Member>, i: nat)
    requires mmds != [] && i < |members|
    ensures AllNull(Entries(env, mmds, members, true, i, Null))
    decreases members[i], 1, 0
  {
    var mmd := members[i];
    if !IsOwnerLink(mmds, mmd) && mmd.relation != NoRelation && mmd.embedded && IsRelationSingleValued(mmd.relation) {
      NullDirectOnlyNulls(env, mmds + [mmd], mmd, |mmd.embeddedMembers|);
      NullNestedOnlyNulls(env, mmds + [mmd], mmd, |mmd.embeddedMembers|);
    }
  }

  lemma {:induction false} NullDirectOnlyNulls(env: Env, chain: seq<Member>, mmd: Member, n: nat)
    requires n <= |mmd.embeddedMembers|
    ensures AllNull(NullDirect(env, chain, mmd, n))
    decreases mmd, 0, n
  {
    if n > 0 {
      NullDirectOnlyNulls(env, chain, mmd, n - 1);
    }
  }

  lemma {:induction false} NullNestedOnlyNulls(env: Env, chain: seq<Member>, mmd: Member, n: nat)
    requires chain != [] && n <= |mmd.embeddedMembers|
    ensures AllNull(NullNested(env, chain, mmd, n))
    decreases mmd, 0, n
  {
    if n > 0 {
      NullNestedOnlyNulls(env, chain, mmd, n - 1);
      if !NulledDirectly(mmd, mmd.embeddedMembers[n - 1]) {
        NullingWritesOnlyNulls(env, chain, mmd.embeddedMembers, n - 1);
      }
    }
  }

  /**
   * A null single-valued embedded object is nulled in whichever mode the manager is: every
   * value written is null, and every column of each directly nulled member is written.
   */
  lemma NullEmbeddedNullsColumns(env: Env, mmds: seq<Member>, members: seq<Member>, nulling: bool, i: nat)
    requires mmds != [] && i < |members|
    requires !IsOwnerLink(mmds, members[i])
    requires members[i].relation != NoRelation && members[i].embedded && IsRelationSingleValued(members[i].relation)
    ensures AllNull(Entries(env, mmds, members, nulling, i, Null))
    ensures forall j, c ::
      (0 <= j < |members[i].embeddedMembers| && NulledDirectly(members[i], members[i].embeddedMembers[j])
       && c in env.mapping(mmds + [members[i]] + [members[i].embeddedMembers[j]]))
      ==> c in Entries(env, mmds, members, nulling, i, Null)
    ensures forall j, c ::
      (0 <= j < |members[i].embeddedMembers| && !NulledDirectly(members[i], members[i].embeddedMembers[j])
       && !(members[i].embeddedMembers[j].relation != NoRelation && members[i].embeddedMembers[j].embedded)
       && c in env.mapping(mmds + [members[i]] + [members[i].embeddedMembers[j]]))
      ==> c in Entries(env, mmds, members, nulling, i, Null)
  {
    var mmd := members[i];
    var chain := mmds + [mmd];
    NullDirectOnlyNulls(env, chain, mmd, |mmd.embeddedMembers|);
    NullNestedOnlyNulls(env, chain, mmd, |mmd.embeddedMembers|);
    NullDirectCovers(env, chain, mmd, |mmd.embeddedMembers|);
    NullNestedCovers(env, chain, mmd, |mmd.embeddedMembers|);
  }

  lemma {:induction false} NullDirectCovers(env: Env, chain: seq<Member>, mmd: Member, n: nat)
    requires n <= |mmd.embeddedMembers|
    ensures forall j, c :: 0 <= j < n && NulledDirectly(mmd, mmd.embeddedMembers[j]) && c in env.mapping(chain + [mmd.embeddedMembers[j]]) ==>
      c in NullDirect(env, chain, mmd, n)
  {
    if n > 0 {
      NullDirectCovers(env, chain, mmd, n - 1);
    }
  }

  /**
   * The nested nulling manager of a null embedded object writes every column of each of its
   * members that is neither nulled directly nor itself embedded.
   */
  lemma {:induction false} NullNestedCovers(env: Env, chain: seq<Member>, mmd: Member, n: nat)
    requires |chain| >= 2 && n <= |mmd.embeddedMembers|
    ensures forall j, c ::
      (0 <= j < n && !NulledDirectly(mmd, mmd.embeddedMembers[j])
       && !(mmd.embeddedMembers[j].relation != NoRelation && mmd.embeddedMembers[j].embedded)
       && c in env.mapping(chain + [mmd.embeddedMembers[j]]))
      ==> c in NullNested(env, chain, mmd, n)
  {
    if n > 0 {
      NullNestedCovers(env, chain, mmd, n - 1);
      var embMmd := mmd.embeddedMembers[n - 1];
      if !NulledDirectly(mmd, embMmd) && !(embMmd.relation != NoRelation && embMmd.embedded) {
        NullingPlainMember(env, chain, mmd.embeddedMembers, n - 1, Null);
      }
    }
  }

  /** An owner back-reference writes no entry. */
  lemma OwnerLinkWritesNothing(env: Env, mmds: seq<Member>, members: seq<Member>, nulling: bool, i: nat, value: Value)
    requires mmds != [] && i < |members| && IsOwnerLink(mmds, members[i])
    ensures Entries(env, mmds, members, nulling, i, value) == map[]
  {
  }

  /** An embedded collection or map writes exactly one entry: the first column of its mapping, set to null. */
  lemma EmbeddedCollectionOneNull(env: Env, mmds: seq<Member>, members: seq<Member>, nulling: bool, i: nat, value: Value)
    requires mmds != [] && i < |members| && !IsOwnerLink(mmds, members[i])
    requires members[i].relation != NoRelation && members[i].embedded && !IsRelationSingleValued(members[i].relation)
    ensures var e := Entries(env, mmds, members, nulling, i, value);
      e.Keys == {env.mapping(mmds + [members[i]])[0]} && AllNull(e)
  {
  }

  /** In nulling mode a member that is not embedded gets null in every column of its mapping and nothing else. */
  lemma NullingPlainMember(env: Env, mmds: seq<Member>, members: seq<Member>, i: nat, value: Value)
    requires mmds != [] && i < |members| && !IsOwnerLink(mmds, members[i])
    requires !(members[i].relation != NoRelation && members[i].embedded)
    ensures var e := Entries(env, mmds, members, true, i, value);
      (forall c :: c in e <==> c in env.mapping(mmds + [members[i]])) && AllNull(e)
  {
  }
}
