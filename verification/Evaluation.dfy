/** What one turn of each worker does to the store and to the queue it feeds, as functions. */
module Evaluation {
  import opened Values
  import opened Queues
  import opened Product
  import opened Storage
  import opened Context
  import opened Partitioning
  import opened Snapshots
  import opened PublisherQueue
  import Fnv = BinaryHash

  /** What waits in a capability queue. */
  datatype CapabilityInput = CapabilityInput(changedDataId: Id)

  // The store worker.

  /** The decision whether a binary or other value changed: sizes first, then hashes, then the diff. */
  function Changed(diff: DiffCallback, current: RIMValue, new_: RIMValue): bool {
    if current.BinaryValue? && new_.BinaryValue? then
      |current.bytes| != |new_.bytes| || Fnv.Hash(current.bytes) != Fnv.Hash(new_.bytes) || diff(current, new_)
    else
      diff(current, new_)
  }

  /** With the identity diff, sizes and hashes decide nothing that the diff would not. */
  lemma FastPathIsExact(current: RIMValue, new_: RIMValue)
    ensures Changed(IdentityDiff, current, new_) == IdentityDiff(current, new_)
  {
  }

  /** For any diff: the fast path agrees with it on every pair of values exactly when the diff
      reports every pair of binaries that differ in size or hash. */
  lemma FastPathExactly(diff: DiffCallback)
    ensures (forall a, b :: Changed(diff, a, b) == diff(a, b)) <==>
            (forall a: seq<Byte>, b: seq<Byte> :: |a| != |b| || Fnv.Hash(a) != Fnv.Hash(b) ==> diff(BinaryValue(a), BinaryValue(b)))
  {
    if forall a, b :: Changed(diff, a, b) == diff(a, b) {
      forall a: seq<Byte>, b: seq<Byte> | |a| != |b| || Fnv.Hash(a) != Fnv.Hash(b)
        ensures diff(BinaryValue(a), BinaryValue(b))
      {
        assert Changed(diff, BinaryValue(a), BinaryValue(b));
      }
    }
  }

  /** The value that the store worker writes for an item. */
  function StoredValue(definition: DataItemDefinition, current: Option<RIMValue>, setValue: RIMValue): RIMValue {
    Retag(definition.store(if current.Some? then current.value else EMPTY_VALUE, setValue), definition.storeValueType)
  }

  /** True when the item makes the worker write and push. */
  predicate Writes(p: ProductDefinition, ps: Partitions, item: RIMDataItem) {
    && FindDataItem(p, item.id).Some?
    && DataDomainId(p, item.id) != INVALID_DOMAIN
    && var definition := FindDataItem(p, item.id).value;
       var current := Get(p, ps, Target(Data, item.id));
       || current.None?
       || definition.diff.None?
       || Changed(definition.diff.value, current.value, StoredValue(definition, current, item.value))
  }

  function AfterStore(p: ProductDefinition, ps: Partitions, item: RIMDataItem): Partitions {
    if Writes(p, ps, item) then
      var t := Target(Data, item.id);
      Set(p, ps, t, StoredValue(FindDataItem(p, item.id).value, Get(p, ps, t), item.value))
    else ps
  }

  // The capability worker.

  /** The store together with the publisher's queue, which accepts nothing once shut down. */
  datatype Stage = Stage(ps: Partitions, published: seq<PublisherInput>, shut: bool)

  function InputFor(p: ProductDefinition, t: Target): PublisherInput {
    PublisherInput(t, Low, match RouteOf(p, t) case None => KeepAll case Some(r) => r.compression)
  }

  function Published(p: ProductDefinition, s: Stage, t: Target): Stage {
    if s.shut then s else s.(published := Inserted(PLAIN, s.published, InputFor(p, t)))
  }

  /** The verdict of Evaluate on a capability or a facade. */
  predicate Renews(p: ProductDefinition, ps: Partitions, kind: TargetType, x: DerivedDefinition) {
    var t := Target(kind, x.id);
    && DomainOf(p, t) != INVALID_DOMAIN
    && (Get(p, ps, t).None? || x.diff(Get(p, ps, t).value, Derive(p, ps, kind, x)))
  }

  /** Evaluate and, when it reports a change, publish. */
  function Evaluated(p: ProductDefinition, s: Stage, kind: TargetType, x: DerivedDefinition): Stage {
    var t := Target(kind, x.id);
    if Renews(p, s.ps, kind, x) then
      Published(p, s.(ps := Set(p, s.ps, t, Derive(p, s.ps, kind, x))), t)
    else s
  }

  /** PublishFacadeChanges, up to the n-th facade. */
  function AfterFacades(p: ProductDefinition, s: Stage, fs: seq<DerivedDefinition>, n: nat): Stage
    requires n <= |fs|
  {
    if n == 0 then s else Evaluated(p, AfterFacades(p, s, fs, n - 1), Facade, fs[n - 1])
  }

  /** One round of PublishCapabilityChanges. */
  function AfterCapability(p: ProductDefinition, s: Stage, c: DerivedDefinition): Stage {
    if Renews(p, s.ps, Capability, c) then
      var fs := Dependents(p.facades, c.id);
      AfterFacades(p, Evaluated(p, s, Capability, c), fs, |fs|)
    else s
  }

  function AfterCapabilities(p: ProductDefinition, s: Stage, cs: seq<DerivedDefinition>, n: nat): Stage
    requires n <= |cs|
  {
    if n == 0 then s else AfterCapability(p, AfterCapabilities(p, s, cs, n - 1), cs[n - 1])
  }

  /** CapabilityWorker::Process. */
  function Processed(p: ProductDefinition, s: Stage, d: Id): Stage {
    if d == INVALID_DATA_ID then s
    else
      var cs := Dependents(p.capabilities, d);
      AfterCapabilities(p, Published(p, s, Target(Data, d)), cs, |cs|)
  }
}
