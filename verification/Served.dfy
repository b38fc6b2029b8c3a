/** Which route serves a value, told from the definition alone, and what the route decides for it. */
module Served {
  import opened Values
  import opened Queues
  import opened Product
  import opened Context
  import opened Evaluation
  import opened RateLimiter
  import opened Publishing
  import opened Unrouted

  /** The definition of `t` names the route id `id`. */
  ghost predicate Names(p: ProductDefinition, t: Target, id: Id) {
    match t.kind
    case Data => exists x :: x in p.dataItems && x.id == t.id && x.routeId == id
    case Capability => exists x :: x in p.capabilities && x.id == t.id && x.routeId == id
    case Facade => exists x :: x in p.facades && x.id == t.id && x.routeId == id
  }

  /** The first of the product's routes with the id. */
  ghost predicate FirstRoute(p: ProductDefinition, id: Id, r: RouteDefinition) {
    exists k :: 0 <= k < |p.routes| && p.routes[k] == r && r.id == id && forall j :: 0 <= j < k ==> p.routes[j].id != id
  }

  lemma FoundIsFirst(p: ProductDefinition, id: Id, r: RouteDefinition)
    ensures FindRoute(p, id) == Some(r) <==> FirstRoute(p, id, r)
  {
    var k := IndexWith(p.routes, RouteId, id);
    assert forall j :: 0 <= j < |p.routes| ==> RouteId(p.routes[j]) == p.routes[j].id;
    if FirstRoute(p, id, r) {
      var m :| 0 <= m < |p.routes| && p.routes[m] == r && r.id == id && forall j :: 0 <= j < m ==> p.routes[j].id != id;
      assert m == k;
    }
  }

  lemma DataNames(p: ProductDefinition, t: Target, id: Id)
    requires Valid(p) && t.kind == Data
    ensures Names(p, t, id) <==> FindDataItem(p, t.id).Some? && FindDataItem(p, t.id).value.routeId == id
  {
    assert Meets(p, DataIdsDiffer);
    if x :| x in p.dataItems && x.id == t.id && x.routeId == id {
      DistinctFindsItself(p.dataItems, DataItemId, x);
    }
    var k := IndexWith(p.dataItems, DataItemId, t.id);
    assert k < |p.dataItems| ==> p.dataItems[k] in p.dataItems && DataItemId(p.dataItems[k]) == p.dataItems[k].id;
  }

  lemma DerivedNames(xs: seq<DerivedDefinition>, t: Id, id: Id)
    requires Distinct(xs, DerivedId)
    ensures (exists x :: x in xs && x.id == t && x.routeId == id) <==>
            FindWith(xs, DerivedId, t).Some? && FindWith(xs, DerivedId, t).value.routeId == id
  {
    if x :| x in xs && x.id == t && x.routeId == id {
      DistinctFindsItself(xs, DerivedId, x);
    }
    var k := IndexWith(xs, DerivedId, t);
    assert k < |xs| ==> xs[k] in xs && DerivedId(xs[k]) == xs[k].id;
  }

  /** Main result: data item, capability or facade, a value is served by the first route with the id that
      its definition names, and by none if there is no such route or no such definition. */
  lemma ServedExactly(p: ProductDefinition, t: Target, r: RouteDefinition)
    requires Valid(p)
    ensures RouteOf(p, t) == Some(r) <==> exists id :: Names(p, t, id) && FirstRoute(p, id, r)
  {
    if RouteOf(p, t) == Some(r) {
      ServedByName(p, t, r.id, r);
    }
    if id :| Names(p, t, id) && FirstRoute(p, id, r) {
      ServedByName(p, t, id, r);
    }
  }

  lemma ServedByName(p: ProductDefinition, t: Target, id: Id, r: RouteDefinition)
    requires Valid(p)
    ensures Names(p, t, id) && FirstRoute(p, id, r) ==> RouteOf(p, t) == Some(r)
    ensures RouteOf(p, t) == Some(r) && id == r.id ==> Names(p, t, id) && FirstRoute(p, id, r)
  {
    assert Meets(p, CapabilityIdsDiffer) && Meets(p, FacadeIdsDiffer);
    FoundIsFirst(p, id, r);
    if t.kind == Data {
      DataNames(p, t, id);
    } else {
      DerivedNames(if t.kind == Capability then p.capabilities else p.facades, t.id, id);
    }
    if RouteOf(p, t) == Some(r) {
      FoundHasId(p, t, r);
    }
  }

  lemma FoundHasId(p: ProductDefinition, t: Target, r: RouteDefinition)
    requires RouteOf(p, t) == Some(r)
    ensures FindRoute(p, r.id) == Some(r)
    ensures t.kind == Data ==> FindDataItem(p, t.id).Some? && FindDataItem(p, t.id).value.routeId == r.id
    ensures t.kind == Capability ==> FindCapability(p, t.id).Some? && FindCapability(p, t.id).value.routeId == r.id
    ensures t.kind == Facade ==> FindFacade(p, t.id).Some? && FindFacade(p, t.id).value.routeId == r.id
  {
    assert RouteId(r) == r.id;
  }

  /** Main result: changes of a value can be notified exactly if its definition names the id of some
      route. */
  lemma NotifiedExactly(p: ProductDefinition, t: Target)
    requires Valid(p)
    ensures EverPasses(p, t) <==> exists id, r :: Names(p, t, id) && r in p.routes && r.id == id
  {
    PassesExactlyIfRouted(p, t);
    if RouteOf(p, t).Some? {
      ServedExactly(p, t, RouteOf(p, t).value);
    }
    if id, r :| Names(p, t, id) && r in p.routes && r.id == id {
      var first := SomeFirst(p, r);
      ServedExactly(p, t, first);
    }
  }

  lemma SomeFirst(p: ProductDefinition, r: RouteDefinition) returns (first: RouteDefinition)
    requires r in p.routes
    ensures FirstRoute(p, r.id, first)
  {
    var i :| 0 <= i < |p.routes| && p.routes[i] == r;
    assert RouteId(p.routes[i]) == r.id;
    first := FindRoute(p, r.id).value;
    FoundIsFirst(p, r.id, first);
  }

  /** The route decides how announcements of the value are compressed; without one they are not. */
  lemma CompressedAsServed(p: ProductDefinition, t: Target, id: Id, r: RouteDefinition)
    requires Valid(p) && Names(p, t, id)
    ensures FirstRoute(p, id, r) ==> InputFor(p, t).compression == r.compression
    ensures (forall s :: s in p.routes ==> s.id != id) ==> InputFor(p, t).compression == KeepAll
  {
    ServedExactly(p, t, r);
    if RouteOf(p, t).Some? {
      var found := RouteOf(p, t).value;
      ServedExactly(p, t, found);
      var named :| Names(p, t, named) && FirstRoute(p, named, found);
      NamesOne(p, t, id, named);
      assert found in p.routes && found.id == id;
    }
  }

  lemma NamesOne(p: ProductDefinition, t: Target, a: Id, b: Id)
    requires Valid(p) && Names(p, t, a) && Names(p, t, b)
    ensures a == b
  {
    assert Meets(p, CapabilityIdsDiffer) && Meets(p, FacadeIdsDiffer);
    if t.kind == Data {
      DataNames(p, t, a);
      DataNames(p, t, b);
    } else {
      DerivedNames(if t.kind == Capability then p.capabilities else p.facades, t.id, a);
      DerivedNames(if t.kind == Capability then p.capabilities else p.facades, t.id, b);
    }
  }

  /** Main result: the changes of a value that are let through are spread over the milliseconds that its
      route asks for, on a clock of nanoseconds. */
  lemma SpreadAsServed(p: ProductDefinition, changes: seq<Change>, t: Target, from: Time, to: Time, id: Id, r: RouteDefinition)
    requires Valid(p) && InOrder(changes) && Names(p, t, id) && FirstRoute(p, id, r)
    requires Through(p, changes, |changes|, t, from, to) > 0
    ensures (Through(p, changes, |changes|, t, from, to) - 1) * (r.minimumNotifyIntervalMs * 1_000_000) <= to - from
  {
    ServedExactly(p, t, r);
    ChangesAreSpread(p, changes, t, from, to);
  }
}
