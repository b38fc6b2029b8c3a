/** The queues of every route, the table from data ids to routes, and the dispatcher in front of them. */
module Routing {
  import opened Values
  import opened Queues
  import opened Product
  import opened Context
  import opened Evaluation
  import opened Pipeline
  import opened Snapshots

  class RouteQueues {
    const storeQueue: EventQueue<RIMDataItem>
    const capabilityQueue: EventQueue<CapabilityInput>

    constructor (route: RouteDefinition)
      ensures MadeFor(route)
      ensures fresh(storeQueue) && storeQueue.events == [] && !storeQueue.shutdown
      ensures fresh(capabilityQueue) && capabilityQueue.events == [] && !capabilityQueue.shutdown
    {
      storeQueue := new EventQueue(PolicyFor(route.storePolicy, ItemId));
      capabilityQueue := new EventQueue(PolicyFor(route.capabilityPolicy, ChangedDataId));
    }

    ghost predicate MadeFor(route: RouteDefinition) {
      && storeQueue.policy == PolicyFor(route.storePolicy, ItemId)
      && capabilityQueue.policy == PolicyFor(route.capabilityPolicy, ChangedDataId)
    }
  }

  type RouteTable = map<string, RouteQueues>

  /** The queues of the first `n` routes: where a name repeats, the first route with it keeps its place. */
  ghost predicate ServesFirst(queues: RouteTable, routes: seq<RouteDefinition>, n: nat, name: string)
    requires n <= |routes|
  {
    var k := IndexWith(routes, RouteName, name);
    && (name in queues <==> k < n)
    && (name in queues ==> queues[name].MadeFor(routes[k]))
  }

  ghost predicate Serving(queues: RouteTable, routes: seq<RouteDefinition>, n: nat)
    requires n <= |routes|
  {
    forall name :: ServesFirst(queues, routes, n, name)
  }

  ghost predicate Unshared(queues: RouteTable) {
    forall m, n :: m in queues && n in queues && m != n ==>
      queues[m].storeQueue != queues[n].storeQueue && queues[m].capabilityQueue != queues[n].capabilityQueue
  }

  ghost predicate RoutesFirst(p: ProductDefinition, queues: RouteTable, table: map<Id, RouteQueues>, n: nat, id: Id)
    requires n <= |p.dataItems|
  {
    var k := IndexWith(p.dataItems, DataItemId, id);
    && (id in table <==> k < n)
    && (id in table ==>
          && RouteNameOf(p, id).Some? && RouteNameOf(p, id).value in queues
          && table[id] == queues[RouteNameOf(p, id).value])
  }

  ghost predicate Tabled(p: ProductDefinition, queues: RouteTable, table: map<Id, RouteQueues>, n: nat)
    requires n <= |p.dataItems|
  {
    forall id :: RoutesFirst(p, queues, table, n, id)
  }

  class RouteProvider {
    var queues: RouteTable
    var routingTable: map<Id, RouteQueues>

    constructor ()
      ensures queues == map[] && routingTable == map[]
    {
      queues, routingTable := map[], map[];
    }

    /** One pair of queues for each route name, and each data item leads to those of its route. */
    ghost predicate Serves(p: ProductDefinition)
      reads this
    {
      && Serving(queues, p.routes, |p.routes|)
      && Tabled(p, queues, routingTable, |p.dataItems|)
      && Unshared(queues)
    }

    /** What the two assertions inside demand is that the route of every data item is known, which is
        one of the rules of validation and all that is needed here. */
    method Initialize(context: ProductContext)
      requires context.Built() && Meets(context.product, DataRoutesKnown)
      modifies this
      ensures Serves(context.product)
      ensures forall name :: name in queues ==>
        && fresh(queues[name].storeQueue) && queues[name].storeQueue.events == [] && !queues[name].storeQueue.shutdown
        && fresh(queues[name].capabilityQueue) && queues[name].capabilityQueue.events == [] && !queues[name].capabilityQueue.shutdown
    {
      queues := CreateQueues(context.product.routes);
      routingTable := TableOf(context, queues);
    }

    function Find(id: Id): (r: RouteQueues?)
      reads this
    {
      if id in routingTable then routingTable[id] else null
    }
  }

  method CreateQueues(routes: seq<RouteDefinition>) returns (queues: RouteTable)
    ensures Serving(queues, routes, |routes|)
    ensures Unshared(queues)
    ensures forall name :: name in queues ==>
      && fresh(queues[name].storeQueue) && queues[name].storeQueue.events == [] && !queues[name].storeQueue.shutdown
      && fresh(queues[name].capabilityQueue) && queues[name].capabilityQueue.events == [] && !queues[name].capabilityQueue.shutdown
  {
    queues := map[];
    for i := 0 to |routes|
      invariant Serving(queues, routes, i)
      invariant Unshared(queues)
      invariant forall name :: name in queues ==>
        && fresh(queues[name].storeQueue) && queues[name].storeQueue.events == [] && !queues[name].storeQueue.shutdown
        && fresh(queues[name].capabilityQueue) && queues[name].capabilityQueue.events == [] && !queues[name].capabilityQueue.shutdown
    {
      var created := new RouteQueues(routes[i]);
      ServesOneMore(queues, routes, i, created);
      if routes[i].name !in queues {
        queues := queues[routes[i].name := created];
      }
    }
  }

  lemma ServesOneMore(queues: RouteTable, routes: seq<RouteDefinition>, n: nat, created: RouteQueues)
    requires n < |routes| && created.MadeFor(routes[n])
    requires Serving(queues, routes, n)
    ensures var queues' := if routes[n].name in queues then queues else queues[routes[n].name := created];
            Serving(queues', routes, n + 1)
  {
    var queues' := if routes[n].name in queues then queues else queues[routes[n].name := created];
    var m := n + 1;
    forall name ensures ServesFirst(queues', routes, m, name) {
      assert ServesFirst(queues, routes, n, name);
      var k := IndexWith(routes, RouteName, name);
    }
  }

  /** Finds the route of a data item; the two assertions hold here. */
  method NameOfRoute(context: ProductContext, item: DataItemDefinition, ghost queues: RouteTable) returns (name: string)
    requires context.Built() && item in context.product.dataItems && Meets(context.product, DataRoutesKnown)
    requires Serving(queues, context.product.routes, |context.product.routes|)
    ensures FindRoute(context.product, item.routeId).Some?
    ensures name == FindRoute(context.product, item.routeId).value.name
    ensures name in queues
  {
    assert context.AgreesAt(item.routeId);
    var route := context.FindRoute(item.routeId);
    assert route.Some?;
    name := route.value.name;
    assert ServesFirst(queues, context.product.routes, |context.product.routes|, name);
    assert route.value in context.product.routes;
  }

  method TableOf(context: ProductContext, queues: RouteTable) returns (table: map<Id, RouteQueues>)
    requires context.Built() && Meets(context.product, DataRoutesKnown)
    requires Serving(queues, context.product.routes, |context.product.routes|)
    ensures Tabled(context.product, queues, table, |context.product.dataItems|)
  {
    var items := context.product.dataItems;
    table := map[];
    for i := 0 to |items|
      invariant Tabled(context.product, queues, table, i)
    {
      var name := NameOfRoute(context, items[i], queues);
      RoutesOneMore(context.product, queues, table, i);
      if items[i].id !in table {
        table := table[items[i].id := queues[name]];
      }
    }
  }

  lemma RoutesOneMore(p: ProductDefinition, queues: RouteTable, table: map<Id, RouteQueues>, n: nat)
    requires n < |p.dataItems|
    requires var route := FindRoute(p, p.dataItems[n].routeId); route.Some? && route.value.name in queues
    requires Tabled(p, queues, table, n)
    ensures var item := p.dataItems[n];
            var table' := if item.id in table then table else table[item.id := queues[FindRoute(p, item.routeId).value.name]];
            Tabled(p, queues, table', n + 1)
  {
    var item := p.dataItems[n];
    var table' := if item.id in table then table else table[item.id := queues[FindRoute(p, item.routeId).value.name]];
    var m := n + 1;
    forall id ensures RoutesFirst(p, queues, table', m, id) {
      assert RoutesFirst(p, queues, table, n, id);
      var k := IndexWith(p.dataItems, DataItemId, id);
    }
  }
}
