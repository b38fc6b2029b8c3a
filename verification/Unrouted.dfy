/** What validation does not ask of routes, and what follows for publication. */
module Unrouted {
  import opened Values
  import opened Queues
  import opened Product
  import opened Context
  import opened Evaluation
  import opened RateLimiter
  import opened Publishing

  /** The same capability or facade, but for its route. */
  ghost predicate SameButRoute(x: DerivedDefinition, y: DerivedDefinition) {
    y == x.(routeId := y.routeId)
  }

  ghost predicate SameButDerivedRoutes(p: ProductDefinition, q: ProductDefinition) {
    && q == p.(capabilities := q.capabilities, facades := q.facades)
    && |q.capabilities| == |p.capabilities| && |q.facades| == |p.facades|
    && (forall i :: 0 <= i < |p.capabilities| ==> SameButRoute(p.capabilities[i], q.capabilities[i]))
    && (forall i :: 0 <= i < |p.facades| ==> SameButRoute(p.facades[i], q.facades[i]))
  }

  lemma DataRuleAlike(p: ProductDefinition, q: ProductDefinition, rule: Rule)
    requires p.domains == q.domains && p.routes == q.routes && p.dataItems == q.dataItems
    requires !rule.CapabilityNamesDiffer? && !rule.CapabilityIdsDiffer? && !rule.RequiredDataKnown?
    requires !rule.FacadeNamesDiffer? && !rule.FacadeIdsDiffer? && !rule.RequiredCapabilitiesKnown?
    ensures Meets(p, rule) <==> Meets(q, rule)
  {
    if rule == DataDomainsKnown {
      assert forall item :: DomainKnown(p, item) <==> DomainKnown(q, item);
    }
  }

  lemma RuleAlike(p: ProductDefinition, q: ProductDefinition, rule: Rule)
    requires SameButDerivedRoutes(p, q)
    ensures Meets(p, rule) <==> Meets(q, rule)
  {
    match rule
    case CapabilityNamesDiffer => SameKeysAlike(p.capabilities, q.capabilities, DerivedName);
    case CapabilityIdsDiffer => SameKeysAlike(p.capabilities, q.capabilities, DerivedId);
    case RequiredDataKnown => RequiredAlike(p.dataItems, p.dataItems, DataItemId, p.capabilities, q.capabilities);
    case FacadeNamesDiffer => SameKeysAlike(p.facades, q.facades, DerivedName);
    case FacadeIdsDiffer => SameKeysAlike(p.facades, q.facades, DerivedId);
    case RequiredCapabilitiesKnown => RequiredAlike(p.capabilities, q.capabilities, DerivedId, p.facades, q.facades);
    case _ => DataRuleAlike(p, q, rule);
  }

  /** Validation does not look at the routes of capabilities and facades. */
  lemma DerivedRoutesAreUnchecked(p: ProductDefinition, q: ProductDefinition)
    requires SameButDerivedRoutes(p, q)
    ensures Valid(p) <==> Valid(q)
  {
    forall rule ensures Meets(p, rule) <==> Meets(q, rule) {
      RuleAlike(p, q, rule);
    }
  }

  lemma SameKeysAlike<K>(xs: seq<DerivedDefinition>, ys: seq<DerivedDefinition>, getter: DerivedDefinition -> K)
    requires |xs| == |ys| && forall i :: 0 <= i < |xs| ==> getter(xs[i]) == getter(ys[i])
    ensures Distinct(xs, getter) <==> Distinct(ys, getter)
  {
  }

  lemma RequiredAlike<T>(items: seq<T>, items': seq<T>, getter: T -> Id, xs: seq<DerivedDefinition>, ys: seq<DerivedDefinition>)
    requires |items| == |items'| && forall i :: 0 <= i < |items| ==> getter(items[i]) == getter(items'[i])
    requires |xs| == |ys| && forall i :: 0 <= i < |xs| ==> SameButRoute(xs[i], ys[i])
    ensures (forall i :: 0 <= i < |xs| ==> AllDefined(items, getter, xs[i].required)) <==>
            (forall i :: 0 <= i < |ys| ==> AllDefined(items', getter, ys[i].required))
  {
    forall id ensures FindWith(items, getter, id).Some? <==> FindWith(items', getter, id).Some? {
      var k, k' := IndexWith(items, getter, id), IndexWith(items', getter, id);
      assert k < |items| ==> getter(items'[k]) == id;
      assert k' < |items| ==> getter(items[k']) == id;
    }
    forall i | 0 <= i < |xs| ensures AllDefined(items, getter, xs[i].required) <==> AllDefined(items', getter, ys[i].required) {
      assert xs[i].required == ys[i].required;
    }
  }

  /** Validation lets a route in whose id another route has, as long as its name is new; every id that
      was found is found as before, so the first route with an id serves it. */
  lemma RouteIdsAreUnchecked(p: ProductDefinition, r: RouteDefinition)
    requires Valid(p) && FindWith(p.routes, RouteName, r.name).None?
    ensures var q := p.(routes := p.routes + [r]);
            Valid(q) && forall id :: FindRoute(q, id) == if FindRoute(p, id).Some? then FindRoute(p, id)
                                                         else if r.id == id then Some(r) else None
  {
    var q := p.(routes := p.routes + [r]);
    forall id ensures FindRoute(q, id) == if FindRoute(p, id).Some? then FindRoute(p, id) else if r.id == id then Some(r) else None {
      var k, k' := IndexWith(p.routes, RouteId, id), IndexWith(q.routes, RouteId, id);
      assert forall i :: 0 <= i < |p.routes| ==> q.routes[i] == p.routes[i];
      assert q.routes[|p.routes|] == r;
    }
    forall rule ensures Meets(q, rule) {
      assert Meets(p, rule);
      if rule == DataDomainsKnown {
        assert forall item :: DomainKnown(p, item) <==> DomainKnown(q, item);
      } else if rule == RouteNamesDiffer {
        assert forall i :: 0 <= i < |p.routes| ==> RouteName(p.routes[i]) != RouteName(r);
      }
    }
  }

  /** Some change of `t`, after some changes, passes the rate limiter. */
  ghost predicate EverPasses(p: ProductDefinition, t: Target) {
    exists changes: seq<Change>, from: Time, to: Time :: Through(p, changes, |changes|, t, from, to) > 0
  }

  /** A target's changes can pass the rate limiter exactly when the target has a route. */
  lemma PassesExactlyIfRouted(p: ProductDefinition, t: Target)
    ensures EverPasses(p, t) <==> RouteOf(p, t).Some?
  {
    if EverPasses(p, t) {
      var changes: seq<Change>, from: Time, to: Time :| Through(p, changes, |changes|, t, from, to) > 0;
      ThroughHasRoute(p, changes, |changes|, t, from, to);
    }
    if RouteOf(p, t).Some? {
      var changes := [Change(t, 0)];
      assert LimiterAfter(p, changes, 0) == map[];
      assert Through(p, changes, |changes|, t, 0, 0) == 1;
    }
  }

  /** So any valid product can be given a capability whose changes never pass, and whose events are
      never compressed, without validation noticing. */
  lemma UnroutedNeverPasses(p: ProductDefinition, i: nat, r: Id)
    requires Valid(p) && i < |p.capabilities| && FindRoute(p, r).None?
    ensures var c := p.capabilities[i].(routeId := r);
            var q, t := p.(capabilities := p.capabilities[i := c]), Target(Capability, c.id);
            Valid(q) && !EverPasses(q, t) && InputFor(q, t).compression == KeepAll
  {
    var c := p.capabilities[i].(routeId := r);
    var q := p.(capabilities := p.capabilities[i := c]);
    DerivedRoutesAreUnchecked(p, q);
    assert Meets(q, CapabilityIdsDiffer) && q.capabilities[i] == c;
    DistinctFindsItself(q.capabilities, DerivedId, c);
    PassesExactlyIfRouted(q, Target(Capability, c.id));
  }
}
