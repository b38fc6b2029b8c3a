/** The workers, as methods on shared stores and queues, proved to do what module Evaluation says. */
module Workers {
  import opened Values
  import opened Queues
  import opened Product
  import opened Storage
  import opened Context
  import opened Partitioning
  import opened Snapshots
  import opened SnapshotAgreement
  import opened PublisherQueue
  import opened Evaluation
  import Fnv = BinaryHash

  /** What the workers assume of a product: it passed validation, its partitions are separate, and
      its capabilities look only at the data they declare. */
  ghost predicate Sound(p: ProductDefinition) {
    && Valid(p)
    && Separated(p)
    && forall c :: FramedIn(p, c)
  }

  ghost predicate FramedIn(p: ProductDefinition, c: DerivedDefinition) {
    c in p.capabilities ==> Framed(c)
  }

  /** CapabilityManager::Evaluate and FacadeManager::Evaluate: the same steps on the domains of the
      respective kind. */
  method Evaluate(kind: TargetType, context: ProductContext, store: PartitionStorageRegistry, snapshot: RIMSnapshot, x: DerivedDefinition)
    returns (changed: bool)
    requires context.Built() && store.Valid()
    requires x.build(snapshot) == Derive(context.product, store.contents, kind, x)
    modifies store, store.Repr
    ensures store.Valid() && fresh(store.Repr - old(store.Repr))
    ensures changed == Renews(context.product, old(store.contents), kind, x)
    ensures store.contents ==
            if changed then Set(context.product, old(store.contents), Target(kind, x.id),
                                Derive(context.product, old(store.contents), kind, x))
            else old(store.contents)
  {
    var newValue := x.build(snapshot);
    var domainId := context.FindDomainId(Target(kind, x.id));
    if domainId == INVALID_DOMAIN {
      return false;
    }
    var storage := store.GetOrCreate(domainId);
    var storedItem := storage.Find(x.id);
    changed := storedItem.None? || x.diff(storedItem.value.value, newValue);
    if changed {
      PutAfterCreate(old(store.contents), domainId, x.id, newValue);
      store.StoreThrough(domainId, storage, RIMDataItem(x.id, newValue));
    }
  }

  class DataStoreWorker {
    const context: ProductContext
    const queue: EventQueue<RIMDataItem>
    const store: PartitionStorageRegistry
    const capabilityQueue: EventQueue<CapabilityInput>

    constructor (context: ProductContext, queue: EventQueue<RIMDataItem>, store: PartitionStorageRegistry,
                 capabilityQueue: EventQueue<CapabilityInput>)
      ensures this.context == context && this.queue == queue && this.store == store
      ensures this.capabilityQueue == capabilityQueue
    {
      this.context, this.queue, this.store, this.capabilityQueue := context, queue, store, capabilityQueue;
    }

    method Process(item: RIMDataItem)
      requires context.Built() && store.Valid()
      modifies store, store.Repr, capabilityQueue`events
      ensures store.Valid() && fresh(store.Repr - old(store.Repr))
      ensures store.contents == AfterStore(context.product, old(store.contents), item)
      ensures capabilityQueue.events ==
              if Writes(context.product, old(store.contents), item) && !capabilityQueue.shutdown
              then Inserted(capabilityQueue.policy, old(capabilityQueue.events), CapabilityInput(item.id))
              else old(capabilityQueue.events)
    {
      var value := ValueToWrite(item);
      if value.None? {
        return;
      }
      store.StoreIn(context.FindDomainId(Target(Data, item.id)), RIMDataItem(item.id, value.value));
      var _ := capabilityQueue.Push(CapabilityInput(item.id));
    }

    /** The first part of Process: what it will write, if anything. */
    method ValueToWrite(item: RIMDataItem) returns (r: Option<RIMValue>)
      requires context.Built() && store.Valid()
      ensures r.Some? <==> Writes(context.product, store.contents, item)
      ensures r.Some? ==>
                r.value == StoredValue(FindDataItem(context.product, item.id).value,
                                       Get(context.product, store.contents, Target(Data, item.id)), item.value)
    {
      assert context.AgreesAt(item.id);
      var definition := context.FindDataItem(item.id);
      if definition.None? {
        return None;
      }
      var domainId := context.FindDataDomainId(item.id);
      if domainId == INVALID_DOMAIN {
        return None;
      }
      var current := ReadDomain(store, domainId, item.id);
      var value := definition.value.store(if current.Some? then current.value else EMPTY_VALUE, item.value);
      value := Retag(value, definition.value.storeValueType);
      if current.Some? && definition.value.diff.Some? {
        var changed := HasChanged(definition.value.diff.value, domainId, item.id, current.value, value);
        if !changed {
          return None;
        }
      }
      return Some(value);
    }

    /** The cascade of size, hash and diff; the stored side's hash is the one kept with its bytes. */
    method HasChanged(diff: DiffCallback, domainId: DomainId, id: Id, current: RIMValue, value: RIMValue) returns (changed: bool)
      requires store.Valid() && Find(store.contents, domainId, id) == Some(current)
      ensures changed == Changed(diff, current, value)
    {
      if current.BinaryValue? && value.BinaryValue? {
        var storage := store.Find(domainId);
        var info := storage.GetBinaryInfo(id);
        if info.Some? {
          if info.value.size != |value.bytes| {
            return true;
          }
          var newHash := Fnv.CalculateBinaryHash(value.bytes);
          if info.value.hash != newHash {
            return true;
          }
        }
      }
      return diff(current, value);
    }

    method ExecuteOnce() returns (worked: bool)
      requires context.Built() && store.Valid()
      modifies queue`events, store, store.Repr, capabilityQueue`events
      ensures store.Valid() && fresh(store.Repr - old(store.Repr))
      ensures worked == (old(queue.events) != [])
      ensures !worked ==> queue.events == old(queue.events) && capabilityQueue.events == old(capabilityQueue.events)
      ensures !worked ==> store.contents == old(store.contents)
      ensures worked ==>
                && queue.events == old(queue.events)[1..]
                && store.contents == AfterStore(context.product, old(store.contents), old(queue.events)[0])
                && capabilityQueue.events ==
                     if Writes(context.product, old(store.contents), old(queue.events)[0]) && !capabilityQueue.shutdown
                     then Inserted(capabilityQueue.policy, old(capabilityQueue.events), CapabilityInput(old(queue.events)[0].id))
                     else old(capabilityQueue.events)
    {
      var item := queue.TryPop();
      if item.None? {
        return false;
      }
      Process(item.value);
      return true;
    }
  }

  class CapabilityWorker {
    const context: ProductContext
    const store: PartitionStorageRegistry
    const queue: EventQueue<CapabilityInput>
    const publisherQueue: EventQueue<PublisherInput>

    constructor (context: ProductContext, store: PartitionStorageRegistry, queue: EventQueue<CapabilityInput>,
                 publisherQueue: EventQueue<PublisherInput>)
      ensures this.context == context && this.store == store
      ensures this.queue == queue && this.publisherQueue == publisherQueue
    {
      this.context, this.store, this.queue, this.publisherQueue := context, store, queue, publisherQueue;
    }

    ghost predicate Ready()
      reads store, store.Repr
    {
      && context.Built() && store.Valid() && publisherQueue.policy == PLAIN
      && Sound(context.product) && Tidy(context.product, store.contents)
    }

    ghost function Now(): Stage
      reads store, publisherQueue
    {
      Stage(store.contents, publisherQueue.events, publisherQueue.shutdown)
    }

    method PublishTarget(t: Target)
      requires context.Built() && publisherQueue.policy == PLAIN
      modifies publisherQueue`events
      ensures Now() == Published(context.product, old(Now()), t)
    {
      var route := context.ResolveRoute(t);
      var compression := if route.Some? then route.value.compression else KeepAll;
      var _ := publisherQueue.Push(PublisherInput(t, Low, compression));
    }

    method EvaluateAndPublish(kind: TargetType, snapshot: RIMSnapshot, x: DerivedDefinition) returns (changed: bool)
      requires Ready()
      requires Defined(context.product, Target(kind, x.id))
      requires x.build(snapshot) == Derive(context.product, store.contents, kind, x)
      modifies store, store.Repr, publisherQueue`events
      ensures Ready() && fresh(store.Repr - old(store.Repr))
      ensures changed == Renews(context.product, old(store.contents), kind, x)
      ensures Now() == Evaluated(context.product, old(Now()), kind, x)
    {
      changed := Evaluate(kind, context, store, snapshot, x);
      if changed {
        SetKeepsTidy(context.product, old(store.contents), Target(kind, x.id),
                     Derive(context.product, old(store.contents), kind, x));
        PublishTarget(Target(kind, x.id));
      }
    }

    method EvaluateFacade(f: DerivedDefinition)
      requires Ready() && f in context.product.facades
      modifies store, store.Repr, publisherQueue`events
      ensures Ready() && fresh(store.Repr - old(store.Repr))
      ensures Now() == Evaluated(context.product, old(Now()), Facade, f)
    {
      assert Meets(context.product, FacadeIdsDiffer);
      DistinctFindsItself(context.product.facades, DerivedId, f);
      var snapshot := CreateFacadeSnapshot(context, store, f.id);
      var _ := EvaluateAndPublish(Facade, snapshot, f);
    }

    method PublishFacadeChanges(capabilityId: Id)
      requires Ready()
      modifies store, store.Repr, publisherQueue`events
      ensures Ready() && fresh(store.Repr - old(store.Repr))
      ensures var fs := Dependents(context.product.facades, capabilityId);
              Now() == AfterFacades(context.product, old(Now()), fs, |fs|)
    {
      assert context.AgreesAt(capabilityId);
      var facades := context.facadeDependencies.Find(capabilityId);
      forall i | 0 <= i < |facades| ensures facades[i] in context.product.facades {
        DependentsMembers(context.product.facades, capabilityId, facades[i]);
      }
      EvaluateFacades(facades);
    }

    method EvaluateFacades(facades: seq<DerivedDefinition>)
      requires Ready() && forall i :: 0 <= i < |facades| ==> facades[i] in context.product.facades
      modifies store, store.Repr, publisherQueue`events
      ensures Ready() && fresh(store.Repr - old(store.Repr))
      ensures Now() == AfterFacades(context.product, old(Now()), facades, |facades|)
    {
      ghost var start := Now();
      for i := 0 to |facades|
        invariant Ready() && fresh(store.Repr - old(store.Repr))
        invariant Now() == AfterFacades(context.product, start, facades, i)
      {
        EvaluateFacade(facades[i]);
      }
    }

    /** CapabilitySnapshotProvider::Create, for a capability of the product. */
    method CapabilitySnapshot(c: DerivedDefinition) returns (snapshot: RIMSnapshot)
      requires Ready() && c in context.product.capabilities
      ensures c.build(snapshot) == Derive(context.product, store.contents, Capability, c)
    {
      assert context.AgreesAt(c.id);
      snapshot := BuildSnapshot(store, context.capabilityDomains.Find(c.id));
      CapabilitySnapshotAgrees(context.product, store.contents, c, snapshot);
      assert FramedIn(context.product, c);
      FramedBuild(context.product, store.contents, Capability, c, snapshot);
    }

    method EvaluateCapability(c: DerivedDefinition) returns (changed: bool)
      requires Ready() && c in context.product.capabilities
      modifies store, store.Repr, publisherQueue`events
      ensures Ready() && fresh(store.Repr - old(store.Repr))
      ensures changed == Renews(context.product, old(store.contents), Capability, c)
      ensures Now() == Evaluated(context.product, old(Now()), Capability, c)
    {
      assert Meets(context.product, CapabilityIdsDiffer);
      DistinctFindsItself(context.product.capabilities, DerivedId, c);
      var snapshot := CapabilitySnapshot(c);
      changed := EvaluateAndPublish(Capability, snapshot, c);
    }

    method PublishCapabilityChanges(dataId: Id)
      requires Ready()
      modifies store, store.Repr, publisherQueue`events
      ensures Ready() && fresh(store.Repr - old(store.Repr))
      ensures var cs := Dependents(context.product.capabilities, dataId);
              Now() == AfterCapabilities(context.product, old(Now()), cs, |cs|)
    {
      assert context.AgreesAt(dataId);
      var capabilities := context.capabilityDependencies.Find(dataId);
      forall i | 0 <= i < |capabilities| ensures capabilities[i] in context.product.capabilities {
        DependentsMembers(context.product.capabilities, dataId, capabilities[i]);
      }
      EvaluateCapabilities(capabilities);
    }

    method EvaluateCapabilities(capabilities: seq<DerivedDefinition>)
      requires Ready() && forall i :: 0 <= i < |capabilities| ==> capabilities[i] in context.product.capabilities
      modifies store, store.Repr, publisherQueue`events
      ensures Ready() && fresh(store.Repr - old(store.Repr))
      ensures Now() == AfterCapabilities(context.product, old(Now()), capabilities, |capabilities|)
    {
      ghost var start := Now();
      for i := 0 to |capabilities|
        invariant Ready() && fresh(store.Repr - old(store.Repr))
        invariant Now() == AfterCapabilities(context.product, start, capabilities, i)
      {
        EvaluateOneCapability(capabilities[i]);
      }
    }

    method EvaluateOneCapability(c: DerivedDefinition)
      requires Ready() && c in context.product.capabilities
      modifies store, store.Repr, publisherQueue`events
      ensures Ready() && fresh(store.Repr - old(store.Repr))
      ensures Now() == AfterCapability(context.product, old(Now()), c)
    {
      var changed := EvaluateCapability(c);
      if changed {
        PublishFacadeChanges(c.id);
      }
    }

    method Process(change: CapabilityInput)
      requires Ready()
      modifies store, store.Repr, publisherQueue`events
      ensures Ready() && fresh(store.Repr - old(store.Repr))
      ensures Now() == Processed(context.product, old(Now()), change.changedDataId)
    {
      if change.changedDataId == INVALID_DATA_ID {
        return;
      }
      PublishTarget(Target(Data, change.changedDataId));
      PublishCapabilityChanges(change.changedDataId);
    }

    method ExecuteOnce() returns (worked: bool)
      requires Ready()
      modifies queue`events, store, store.Repr, publisherQueue`events
      ensures Ready() && fresh(store.Repr - old(store.Repr))
      ensures worked == (old(queue.events) != [])
      ensures !worked ==> queue.events == old(queue.events) && Now() == old(Now())
      ensures worked ==>
                && queue.events == old(queue.events)[1..]
                && Now() == Processed(context.product, old(Now()), old(queue.events)[0].changedDataId)
    {
      var item := queue.TryPop();
      if item.None? {
        return false;
      }
      Process(item.value);
      return true;
    }
  }
}
