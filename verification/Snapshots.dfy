/** Snapshots of partitions, and what a derived value may depend on. */
module Snapshots {
  import opened Values
  import opened Product
  import opened Storage
  import opened Context
  import opened Partitioning

  function ItemId(item: RIMDataItem): Id { item.id }

  /** RIMSnapshot::Find: the value of the first item with the id. */
  function FindIn(s: RIMSnapshot, id: Id): Option<RIMValue> {
    match FindWith(s, ItemId, id)
    case None => None
    case Some(item) => Some(item.value)
  }

  method FindInSnapshot(s: RIMSnapshot, id: Id) returns (r: Option<RIMValue>)
    ensures r == FindIn(s, id)
  {
    var item := Search(s, ItemId, id);
    r := if item.Some? then Some(item.value.value) else None;
  }

  // TryGet: the value of an item when it has the type asked for.

  function TryGetDouble(s: RIMSnapshot, id: Id): Option<real> {
    match FindIn(s, id)
    case Some(DoubleValue(d)) => Some(d)
    case _ => None
  }

  function TryGetBool(s: RIMSnapshot, id: Id): Option<bool> {
    match FindIn(s, id)
    case Some(BoolValue(b)) => Some(b)
    case _ => None
  }

  function TryGetInt32(s: RIMSnapshot, id: Id): Option<Int32> {
    match FindIn(s, id)
    case Some(Int32Value(i)) => Some(i)
    case _ => None
  }

  ghost predicate SameView(s: RIMSnapshot, t: RIMSnapshot, ids: seq<Id>) {
    forall id :: id in ids ==> FindIn(s, id) == FindIn(t, id)
  }

  /** The build of `x` looks at nothing but the ids it declares. */
  ghost predicate Framed(x: DerivedDefinition) {
    forall s, t :: SameView(s, t, x.required) ==> x.build(s) == x.build(t)
  }

  // The inputs of a derived value, read one declared id at a time.

  function InputKind(kind: TargetType): TargetType {
    if kind == Facade then Capability else Data
  }

  /** The stored values of the first n ids, in order. */
  function InputSnapshot(p: ProductDefinition, ps: Partitions, kind: TargetType, ids: seq<Id>, n: nat): RIMSnapshot
    requires n <= |ids|
  {
    if n == 0 then []
    else
      var before := InputSnapshot(p, ps, kind, ids, n - 1);
      match Get(p, ps, Target(kind, ids[n - 1]))
      case None => before
      case Some(v) => before + [RIMDataItem(ids[n - 1], v)]
  }

  /** The value that `x` has when computed from what is stored now. */
  function Derive(p: ProductDefinition, ps: Partitions, kind: TargetType, x: DerivedDefinition): RIMValue {
    x.build(InputSnapshot(p, ps, InputKind(kind), x.required, |x.required|))
  }

  lemma {:induction false} InputSnapshotView(p: ProductDefinition, ps: Partitions, kind: TargetType, ids: seq<Id>, n: nat, id: Id)
    requires n <= |ids|
    ensures FindIn(InputSnapshot(p, ps, kind, ids, n), id) == if id in ids[..n] then Get(p, ps, Target(kind, id)) else None
  {
    if n != 0 {
      InputSnapshotView(p, ps, kind, ids, n - 1, id);
      assert ids[..n] == ids[..n - 1] + [ids[n - 1]];
      var before := InputSnapshot(p, ps, kind, ids, n - 1);
      match Get(p, ps, Target(kind, ids[n - 1]))
      case None =>
      case Some(v) =>
        FindInAppend(before, RIMDataItem(ids[n - 1], v), id);
    }
  }

  lemma FindInAppend(s: RIMSnapshot, item: RIMDataItem, id: Id)
    ensures FindIn(s + [item], id) ==
            if FindIn(s, id).Some? then FindIn(s, id) else if item.id == id then Some(item.value) else None
  {
    var k := IndexWith(s, ItemId, id);
    var k' := IndexWith(s + [item], ItemId, id);
    assert forall i :: 0 <= i < |s| ==> (s + [item])[i] == s[i];
    assert (s + [item])[|s|] == item;
    if k < |s| {
      assert ItemId((s + [item])[k]) == id;
      assert k' <= k;
      assert ItemId(s[k']) == id;
    } else if item.id == id {
      assert ItemId((s + [item])[|s|]) == id;
    }
  }

  /** Derived values are equal when every declared input is. */
  lemma DeriveUnchanged(p: ProductDefinition, ps: Partitions, ps': Partitions, kind: TargetType, x: DerivedDefinition)
    requires forall id :: id in x.required ==> Get(p, ps, Target(InputKind(kind), id)) == Get(p, ps', Target(InputKind(kind), id))
    ensures Derive(p, ps, kind, x) == Derive(p, ps', kind, x)
  {
    InputSnapshotUnchanged(p, ps, ps', InputKind(kind), x.required, |x.required|);
  }

  lemma {:induction false} InputSnapshotUnchanged(
    p: ProductDefinition, ps: Partitions, ps': Partitions, kind: TargetType, ids: seq<Id>, n: nat)
    requires n <= |ids|
    requires forall id :: id in ids ==> Get(p, ps, Target(kind, id)) == Get(p, ps', Target(kind, id))
    ensures InputSnapshot(p, ps, kind, ids, n) == InputSnapshot(p, ps', kind, ids, n)
  {
    if n != 0 {
      InputSnapshotUnchanged(p, ps, ps', kind, ids, n - 1);
      assert ids[n - 1] in ids;
    }
  }

  /** Any snapshot that shows the stored inputs gives the derived value. */
  lemma FramedBuild(p: ProductDefinition, ps: Partitions, kind: TargetType, x: DerivedDefinition, s: RIMSnapshot)
    requires Framed(x)
    requires forall id :: id in x.required ==> FindIn(s, id) == Get(p, ps, Target(InputKind(kind), id))
    ensures x.build(s) == Derive(p, ps, kind, x)
  {
    var t := InputSnapshot(p, ps, InputKind(kind), x.required, |x.required|);
    forall id | id in x.required ensures FindIn(s, id) == FindIn(t, id) {
      InputSnapshotView(p, ps, InputKind(kind), x.required, |x.required|, id);
      assert x.required[..|x.required|] == x.required;
    }
    assert SameView(s, t, x.required);
  }

  // Whole-partition snapshots.

  /** `s` is the first n partitions one after the other, each in some order. */
  ghost predicate Concatenates(s: RIMSnapshot, ps: Partitions, domains: seq<DomainId>, n: nat)
    requires n <= |domains|
    decreases n, 1
  {
    if n == 0 then s == []
    else exists k :: 0 <= k <= |s| && Splits(s, k, ps, domains, n)
  }

  ghost predicate Splits(s: RIMSnapshot, k: nat, ps: Partitions, domains: seq<DomainId>, n: nat)
    requires 0 < n <= |domains| && k <= |s|
    decreases n, 0
  {
    Concatenates(s[..k], ps, domains, n - 1) && Enumerates(s[k..], PartitionOf(ps, domains[n - 1]))
  }

  /** SnapshotBuilder::Build. */
  method BuildSnapshot(store: PartitionStorageRegistry, domains: seq<DomainId>) returns (snapshot: RIMSnapshot)
    requires store.Valid()
    ensures Concatenates(snapshot, store.contents, domains, |domains|)
  {
    snapshot := [];
    for i := 0 to |domains|
      invariant Concatenates(snapshot, store.contents, domains, i)
    {
      var storage := store.Find(domains[i]);
      ghost var k := |snapshot|;
      ghost var before := snapshot;
      if storage != null {
        var items := storage.GetAll();
        snapshot := snapshot + items;
        assert snapshot[k..] == items;
      }
      assert snapshot[..k] == before;
      assert Splits(snapshot, k, store.contents, domains, i + 1);
    }
  }

  /** Looks up a stored value through its domain number. */
  method Read(context: ProductContext, store: PartitionStorageRegistry, t: Target) returns (v: Option<RIMValue>)
    requires context.Built() && store.Valid()
    ensures v == Get(context.product, store.contents, t)
  {
    var domainId := context.FindDomainId(t);
    if domainId == INVALID_DOMAIN {
      return None;
    }
    v := ReadDomain(store, domainId, t.id);
  }

  method ReadDomain(store: PartitionStorageRegistry, domain: DomainId, id: Id) returns (v: Option<RIMValue>)
    requires store.Valid()
    ensures v == Find(store.contents, domain, id)
  {
    var storage := store.Find(domain);
    if storage == null {
      return None;
    }
    var item := storage.Find(id);
    v := if item.Some? then Some(item.value.value) else None;
  }

  /** FacadeSnapshotProvider::Create. */
  method CreateFacadeSnapshot(context: ProductContext, store: PartitionStorageRegistry, id: Id) returns (snapshot: RIMSnapshot)
    requires context.Built() && store.Valid()
    ensures snapshot == FacadeSnapshot(context.product, store.contents, id)
  {
    var found := context.FindFacade(id);
    assert context.AgreesAt(id);
    if found.None? {
      return [];
    }
    snapshot := CollectCapabilities(context, store, found.value.required);
  }

  method CollectCapabilities(context: ProductContext, store: PartitionStorageRegistry, required: seq<Id>)
    returns (snapshot: RIMSnapshot)
    requires context.Built() && store.Valid()
    ensures snapshot == InputSnapshot(context.product, store.contents, Capability, required, |required|)
  {
    snapshot := [];
    for i := 0 to |required|
      invariant snapshot == InputSnapshot(context.product, store.contents, Capability, required, i)
    {
      var item := Read(context, store, Target(Capability, required[i]));
      if item.Some? {
        snapshot := snapshot + [RIMDataItem(required[i], item.value)];
      }
    }
  }

  function FacadeSnapshot(p: ProductDefinition, ps: Partitions, id: Id): RIMSnapshot {
    match FindFacade(p, id)
    case None => []
    case Some(f) => InputSnapshot(p, ps, Capability, f.required, |f.required|)
  }
}
