/** The dispatcher and the executors of all routes on shared stores and queues: every call they take
    is a run of the state machine in module Pipeline. */
module Execution {
  import opened Values
  import opened Queues
  import opened Product
  import opened Storage
  import opened Context
  import Partitioning
  import opened SnapshotAgreement
  import opened Evaluation
  import opened Workers
  import opened Pipeline
  import opened Routing

  class AdapterDispatcher {
    const context: ProductContext
    const routeProvider: RouteProvider

    constructor (context: ProductContext, routeProvider: RouteProvider)
      ensures this.context == context && this.routeProvider == routeProvider
    {
      this.context, this.routeProvider := context, routeProvider;
    }

    /** The one queue that a call may touch. */
    ghost function StoreQueueOf(id: Id): set<EventQueue<RIMDataItem>>
      reads routeProvider
    {
      var queues := routeProvider.Find(id);
      if queues == null then {} else {queues.storeQueue}
    }

    /** The answer of the push is not looked at: an item refused by a queue that was shut down is
        still reported as dispatched. */
    method Dispatch(item: RIMDataItem) returns (accepted: bool)
      requires context.Built() && routeProvider.Serves(context.product)
      modifies StoreQueueOf(item.id)`events
      ensures accepted == Accepted(context.product, item).Some?
      ensures accepted ==>
                && RouteNameOf(context.product, item.id).Some?
                && var name := RouteNameOf(context.product, item.id).value;
                   && name in routeProvider.queues
                   && var queue := routeProvider.queues[name].storeQueue;
                      queue.events == if queue.shutdown then old(queue.events)
                                      else Inserted(StorePolicy(context.product, name), old(queue.events),
                                                    Accepted(context.product, item).value)
      ensures !accepted ==> forall queue :: queue in StoreQueueOf(item.id) ==> queue.events == old(queue.events)
    {
      assert context.AgreesAt(item.id);
      var definition := context.FindDataItem(item.id);
      if definition.None? {
        return false;
      }
      if item.value.Type() != definition.value.rawValueType {
        return false;
      }
      var outItem := RIMDataItem(item.id, definition.value.normalize(item.value));
      FoundQueues(context.product, routeProvider, item.id);
      var queue := routeProvider.Find(outItem.id);
      if queue == null {
        return false;
      }
      var _ := queue.storeQueue.Push(outItem);
      return true;
    }
  }

  /** The table answers for exactly the ids that have a route, with the queues of that route. */
  lemma FoundQueues(p: ProductDefinition, provider: RouteProvider, id: Id)
    requires provider.Serves(p)
    ensures provider.Find(id) != null <==> FindDataItem(p, id).Some?
    ensures provider.Find(id) != null ==>
              && RouteNameOf(p, id).Some? && RouteNameOf(p, id).value in provider.queues
              && provider.Find(id) == provider.queues[RouteNameOf(p, id).value]
              && provider.Find(id).storeQueue.policy == StorePolicy(p, RouteNameOf(p, id).value)
  {
    assert RoutesFirst(p, provider.queues, provider.routingTable, |p.dataItems|, id);
    if provider.Find(id) != null {
      ServedPolicies(p, provider, RouteNameOf(p, id).value);
    }
  }

  lemma ServedPolicies(p: ProductDefinition, provider: RouteProvider, name: string)
    requires provider.Serves(p) && name in provider.queues
    ensures provider.queues[name].storeQueue.policy == StorePolicy(p, name)
    ensures provider.queues[name].capabilityQueue.policy == CapabilityPolicy(p, name)
  {
    assert ServesFirst(provider.queues, p.routes, |p.routes|, name);
  }

  /** Main result: a validated product dispatches exactly its own data items with values of their raw type. */
  lemma DispatchedExactly(p: ProductDefinition, item: RIMDataItem)
    requires Valid(p)
    ensures Accepted(p, item).Some? <==>
            exists definition :: definition in p.dataItems && definition.id == item.id && definition.rawValueType == item.value.Type()
  {
    assert Meets(p, DataRoutesKnown) && Meets(p, DataIdsDiffer);
    if definition :| definition in p.dataItems && definition.id == item.id {
      DistinctFindsItself(p.dataItems, DataItemId, definition);
    }
  }

  /** Main result: what a validated product queues for an item is the item's value, normalised by the one
      definition with its id; a value of another type than the raw one is refused. */
  lemma QueuesNormalized(p: ProductDefinition, item: RIMDataItem, definition: DataItemDefinition)
    requires Valid(p) && definition in p.dataItems && definition.id == item.id
    ensures Accepted(p, item) ==
            if item.value.Type() == definition.rawValueType then Some(RIMDataItem(item.id, definition.normalize(item.value))) else None
  {
    assert Meets(p, DataRoutesKnown) && Meets(p, DataIdsDiffer);
    DistinctFindsItself(p.dataItems, DataItemId, definition);
  }

  class RouteExecutor {
    const dataStoreWorker: DataStoreWorker
    const capabilityWorker: CapabilityWorker

    constructor (context: ProductContext, queues: RouteQueues, store: PartitionStorageRegistry, publisherQueue: EventQueue<PublisherInput>)
      ensures Wired(context, queues, store, publisherQueue)
    {
      dataStoreWorker := new DataStoreWorker(context, queues.storeQueue, store, queues.capabilityQueue);
      capabilityWorker := new CapabilityWorker(context, store, queues.capabilityQueue, publisherQueue);
    }

    ghost predicate Wired(context: ProductContext, queues: RouteQueues, store: PartitionStorageRegistry,
            publisherQueue: EventQueue<PublisherInput>) {
      && dataStoreWorker.context == context && dataStoreWorker.queue == queues.storeQueue
      && dataStoreWorker.store == store && dataStoreWorker.capabilityQueue == queues.capabilityQueue
      && capabilityWorker.context == context && capabilityWorker.store == store
      && capabilityWorker.queue == queues.capabilityQueue && capabilityWorker.publisherQueue == publisherQueue
    }

    ghost predicate Joined() {
      && capabilityWorker.context == dataStoreWorker.context && capabilityWorker.store == dataStoreWorker.store
      && capabilityWorker.queue == dataStoreWorker.capabilityQueue
    }

    /** The part of a pipeline state that this executor works on. */
    ghost predicate Shows(s: State, route: string)
      reads dataStoreWorker.queue, dataStoreWorker.capabilityQueue, dataStoreWorker.store, capabilityWorker.publisherQueue
    {
      && dataStoreWorker.queue.events == QueueOf(s.storeQueues, route)
      && dataStoreWorker.capabilityQueue.events == QueueOf(s.capabilityQueues, route)
      && dataStoreWorker.capabilityQueue.policy == CapabilityPolicy(dataStoreWorker.context.product, route)
      && !dataStoreWorker.capabilityQueue.shutdown
      && dataStoreWorker.store.contents == s.ps
      && capabilityWorker.publisherQueue.events == s.published
      && capabilityWorker.publisherQueue.shutdown == s.shut
    }

    method TurnOfStoreWorker(ghost s: State, ghost route: string) returns (worked: bool)
      requires Joined() && Shows(s, route) && capabilityWorker.Ready()
      modifies dataStoreWorker.queue`events, dataStoreWorker.capabilityQueue`events
      modifies dataStoreWorker.store, dataStoreWorker.store.Repr
      ensures dataStoreWorker.store.Valid() && fresh(dataStoreWorker.store.Repr - old(dataStoreWorker.store.Repr))
      ensures Shows(AfterStoreTurn(dataStoreWorker.context.product, s, route), route)
      ensures worked <==> QueueOf(s.storeQueues, route) != []
    {
      worked := dataStoreWorker.ExecuteOnce();
    }

    method TurnOfCapabilityWorker(ghost s: State, ghost route: string) returns (worked: bool)
      requires Joined() && Shows(s, route) && capabilityWorker.Ready()
      modifies capabilityWorker.queue`events
      modifies capabilityWorker.store, capabilityWorker.store.Repr, capabilityWorker.publisherQueue`events
      ensures capabilityWorker.Ready() && fresh(capabilityWorker.store.Repr - old(capabilityWorker.store.Repr))
      ensures Shows(AfterCapabilityTurn(capabilityWorker.context.product, s, route), route)
      ensures worked <==> QueueOf(s.capabilityQueues, route) != []
    {
      assert capabilityWorker.Now() == StageOf(s);
      worked := capabilityWorker.ExecuteOnce();
    }

    /** A turn of the store worker and then, if it had work, one of the capability worker. */
    method ExecuteOnce(ghost s: State, ghost route: string) returns (worked: bool)
      requires Joined() && Shows(s, route) && capabilityWorker.Ready()
      modifies dataStoreWorker.queue`events, dataStoreWorker.capabilityQueue`events
      modifies dataStoreWorker.store, dataStoreWorker.store.Repr, capabilityWorker.publisherQueue`events
      ensures capabilityWorker.Ready() && fresh(dataStoreWorker.store.Repr - old(dataStoreWorker.store.Repr))
      ensures Shows(Executed(dataStoreWorker.context.product, s, route), route)
      ensures worked <==>
                && QueueOf(s.storeQueues, route) != []
                && QueueOf(AfterStoreTurn(dataStoreWorker.context.product, s, route).capabilityQueues, route) != []
    {
      worked := TurnOfStoreWorker(s, route);
      if !worked {
        return false;
      }
      StoreTurnTidy(dataStoreWorker.context.product, s, route);
      worked := TurnOfCapabilityWorker(AfterStoreTurn(dataStoreWorker.context.product, s, route), route);
    }
  }

  /** ExecuteOnce on the state of the pipeline. */
  function Executed(p: ProductDefinition, s: State, route: string): State {
    if QueueOf(s.storeQueues, route) == [] then s
    else AfterCapabilityTurn(p, AfterStoreTurn(p, s, route), route)
  }

  lemma StoreTurnTidy(p: ProductDefinition, s: State, route: string)
    requires Sound(p) && Tidy(p, s.ps)
    ensures Tidy(p, AfterStoreTurn(p, s, route).ps)
  {
    var q := QueueOf(s.storeQueues, route);
    if q != [] && Writes(p, s.ps, q[0]) {
      var t := Target(Data, q[0].id);
      SetKeepsTidy(p, s.ps, t, StoredValue(FindDataItem(p, q[0].id).value, Partitioning.Get(p, s.ps, t), q[0].value));
    }
  }
}
