/** The twelve rules of validation in plain terms, without getters and searches. */
module Rules {
  import opened Values
  import opened Product

  ghost predicate HasRoute(p: ProductDefinition, id: Id) {
    exists r :: r in p.routes && r.id == id
  }

  ghost predicate HasDomain(p: ProductDefinition, pointer: DomainPointer) {
    pointer.DomainAt? && exists d :: d in p.domains && d.name.text == pointer.definition.name.text
  }

  ghost predicate HasItem(p: ProductDefinition, id: Id) {
    exists x :: x in p.dataItems && x.id == id
  }

  ghost predicate HasCapability(p: ProductDefinition, id: Id) {
    exists x :: x in p.capabilities && x.id == id
  }

  ghost predicate Asks(p: ProductDefinition, rule: Rule) {
    match rule
    case DomainNamesDiffer => forall i, j :: 0 <= i < j < |p.domains| ==> p.domains[i].name.address != p.domains[j].name.address
    case DataDomainsKnown => forall x :: x in p.dataItems ==> HasDomain(p, x.domain)
    case DataNamesDiffer => forall i, j :: 0 <= i < j < |p.dataItems| ==> p.dataItems[i].name != p.dataItems[j].name
    case DataIdsDiffer => forall i, j :: 0 <= i < j < |p.dataItems| ==> p.dataItems[i].id != p.dataItems[j].id
    case RouteNamesDiffer => forall i, j :: 0 <= i < j < |p.routes| ==> p.routes[i].name != p.routes[j].name
    case DataRoutesKnown => forall x :: x in p.dataItems ==> HasRoute(p, x.routeId)
    case CapabilityNamesDiffer => NamesDiffer(p.capabilities)
    case CapabilityIdsDiffer => IdsDiffer(p.capabilities)
    case RequiredDataKnown => forall c, id :: c in p.capabilities && id in c.required ==> HasItem(p, id)
    case FacadeNamesDiffer => NamesDiffer(p.facades)
    case FacadeIdsDiffer => IdsDiffer(p.facades)
    case RequiredCapabilitiesKnown => forall f, id :: f in p.facades && id in f.required ==> HasCapability(p, id)
  }

  ghost predicate NamesDiffer(xs: seq<DerivedDefinition>) {
    forall i, j :: 0 <= i < j < |xs| ==> xs[i].name != xs[j].name
  }

  ghost predicate IdsDiffer(xs: seq<DerivedDefinition>) {
    forall i, j :: 0 <= i < j < |xs| ==> xs[i].id != xs[j].id
  }

  lemma FoundIff<T, K>(items: seq<T>, getter: T -> K, key: K)
    ensures FindWith(items, getter, key).Some? <==> exists x :: x in items && getter(x) == key
  {
    var k := IndexWith(items, getter, key);
    if x :| x in items && getter(x) == key {
      var i :| 0 <= i < |items| && items[i] == x;
    }
  }

  lemma RouteFoundIff(p: ProductDefinition, id: Id)
    ensures FindRoute(p, id).Some? <==> HasRoute(p, id)
  {
    FoundIff(p.routes, RouteId, id);
    assert forall r :: RouteId(r) == r.id;
  }

  lemma DomainKnownIff(p: ProductDefinition, item: DataItemDefinition)
    ensures DomainKnown(p, item) <==> HasDomain(p, item.domain)
  {
    if item.domain.DomainAt? {
      FoundIff(p.domains, DomainText, item.domain.definition.name.text);
      assert forall d :: DomainText(d) == d.name.text;
    }
  }

  lemma ItemFoundIff(p: ProductDefinition, id: Id)
    ensures FindWith(p.dataItems, DataItemId, id).Some? <==> HasItem(p, id)
  {
    FoundIff(p.dataItems, DataItemId, id);
    assert forall x :: DataItemId(x) == x.id;
  }

  lemma CapabilityFoundIff(p: ProductDefinition, id: Id)
    ensures FindWith(p.capabilities, DerivedId, id).Some? <==> HasCapability(p, id)
  {
    FoundIff(p.capabilities, DerivedId, id);
    assert forall x :: DerivedId(x) == x.id;
  }

  /** All the ids that some definitions require are defined. */
  lemma AllDefinedIff<T>(items: seq<T>, getter: T -> Id, xs: seq<DerivedDefinition>)
    ensures (forall i :: 0 <= i < |xs| ==> AllDefined(items, getter, xs[i].required)) <==>
            (forall x, id :: x in xs && id in x.required ==> FindWith(items, getter, id).Some?)
  {
    if forall i :: 0 <= i < |xs| ==> AllDefined(items, getter, xs[i].required) {
      forall x, id | x in xs && id in x.required ensures FindWith(items, getter, id).Some? {
        var i :| 0 <= i < |xs| && xs[i] == x;
        var j :| 0 <= j < |x.required| && x.required[j] == id;
        assert AllDefined(items, getter, xs[i].required);
      }
    }
  }

  lemma DistinctIff(xs: seq<DerivedDefinition>)
    ensures Distinct(xs, DerivedId) <==> IdsDiffer(xs)
    ensures Distinct(xs, DerivedName) <==> NamesDiffer(xs)
  {
    assert forall i :: 0 <= i < |xs| ==> DerivedId(xs[i]) == xs[i].id && DerivedName(xs[i]) == xs[i].name;
  }

  lemma DataRuleIff(p: ProductDefinition, rule: Rule)
    requires rule in {DomainNamesDiffer, DataDomainsKnown, DataNamesDiffer, DataIdsDiffer, RouteNamesDiffer, DataRoutesKnown}
    ensures Meets(p, rule) <==> Asks(p, rule)
  {
    match rule
    case DomainNamesDiffer => assert forall i :: 0 <= i < |p.domains| ==> DomainAddress(p.domains[i]) == p.domains[i].name.address;
    case DataDomainsKnown =>
      forall x ensures DomainKnown(p, x) <==> HasDomain(p, x.domain) {
        DomainKnownIff(p, x);
      }
    case DataNamesDiffer => assert forall i :: 0 <= i < |p.dataItems| ==> DataItemName(p.dataItems[i]) == p.dataItems[i].name;
    case DataIdsDiffer => assert forall i :: 0 <= i < |p.dataItems| ==> DataItemId(p.dataItems[i]) == p.dataItems[i].id;
    case RouteNamesDiffer => assert forall i :: 0 <= i < |p.routes| ==> RouteName(p.routes[i]) == p.routes[i].name;
    case DataRoutesKnown =>
      forall id ensures FindRoute(p, id).Some? <==> HasRoute(p, id) {
        RouteFoundIff(p, id);
      }
  }

  lemma RequiredDataIff(p: ProductDefinition)
    ensures Meets(p, RequiredDataKnown) <==> Asks(p, RequiredDataKnown)
  {
    AllDefinedIff(p.dataItems, DataItemId, p.capabilities);
    forall id ensures FindWith(p.dataItems, DataItemId, id).Some? <==> HasItem(p, id) {
      ItemFoundIff(p, id);
    }
  }

  lemma RequiredCapabilitiesIff(p: ProductDefinition)
    ensures Meets(p, RequiredCapabilitiesKnown) <==> Asks(p, RequiredCapabilitiesKnown)
  {
    AllDefinedIff(p.capabilities, DerivedId, p.facades);
    forall id ensures FindWith(p.capabilities, DerivedId, id).Some? <==> HasCapability(p, id) {
      CapabilityFoundIff(p, id);
    }
  }

  lemma RuleIff(p: ProductDefinition, rule: Rule)
    ensures Meets(p, rule) <==> Asks(p, rule)
  {
    match rule
    case CapabilityNamesDiffer => DistinctIff(p.capabilities);
    case CapabilityIdsDiffer => DistinctIff(p.capabilities);
    case FacadeNamesDiffer => DistinctIff(p.facades);
    case FacadeIdsDiffer => DistinctIff(p.facades);
    case RequiredDataKnown => RequiredDataIff(p);
    case RequiredCapabilitiesKnown => RequiredCapabilitiesIff(p);
    case _ => DataRuleIff(p, rule);
  }

  /** Main result: a product is valid exactly if it meets the twelve rules as they read. */
  lemma ValidExactly(p: ProductDefinition)
    ensures Valid(p) <==> forall rule :: Asks(p, rule)
  {
    forall rule ensures Meets(p, rule) <==> Asks(p, rule) {
      RuleIff(p, rule);
    }
  }
}
