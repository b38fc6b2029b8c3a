/** ProductContext: hash indexes, domain numbers and inverted dependency indexes of a product. */
module Context {
  import opened Values
  import opened Product
  import opened Storage

  // Domain numbers.

  /** `id++` on an unsigned 32-bit counter. */
  function Next(id: DomainId): DomainId {
    if id == 0xFFFF_FFFF then 0 else id + 1
  }

  /** The value of such a counter after n increments from 0. */
  function Numbered(n: nat): DomainId {
    if n == 0 then 0 else Next(Numbered(n - 1))
  }

  lemma {:induction false} NumberedIsModulo(n: nat)
    ensures Numbered(n) == n % 0x1_0000_0000
  {
    if n != 0 {
      NumberedIsModulo(n - 1);
    }
  }

  /** The domains of the first n items in order of first appearance, one entry per pointer. */
  function DataDomains(items: seq<DataItemDefinition>, n: nat): seq<DomainPointer>
    requires n <= |items|
  {
    if n == 0 then []
    else
      var before := DataDomains(items, n - 1);
      if items[n - 1].domain in before then before else before + [items[n - 1].domain]
  }

  function PositionOf<T(==)>(s: seq<T>, x: T): (k: nat)
    ensures k <= |s|
    ensures k < |s| ==> s[k] == x
    ensures k == |s| <==> x !in s
  {
    if s == [] || s[0] == x then 0 else 1 + PositionOf(s[1..], x)
  }

  /** The number that the first n items give an id; a repeated id keeps its last number. */
  function DataDomainIdIn(items: seq<DataItemDefinition>, n: nat, id: Id): DomainId
    requires n <= |items|
  {
    if n == 0 then INVALID_DOMAIN
    else if items[n - 1].id == id then Numbered(1 + PositionOf(DataDomains(items, n), items[n - 1].domain))
    else DataDomainIdIn(items, n - 1, id)
  }

  function DataDomainId(p: ProductDefinition, id: Id): DomainId {
    DataDomainIdIn(p.dataItems, |p.dataItems|, id)
  }

  /** Derived definitions are numbered one after the other; a repeated id keeps its first number. */
  function DerivedNumber(definitions: seq<DerivedDefinition>, first: nat, id: Id): DomainId {
    var k := IndexWith(definitions, DerivedId, id);
    if k < |definitions| then Numbered(first + k) else INVALID_DOMAIN
  }

  function CapabilityDomainId(p: ProductDefinition, id: Id): DomainId {
    DerivedNumber(p.capabilities, |p.domains| + 1, id)
  }

  function FacadeDomainId(p: ProductDefinition, id: Id): DomainId {
    DerivedNumber(p.facades, |p.domains| + 1 + |p.capabilities|, id)
  }

  /** The partition that stores the value of a target. */
  function DomainOf(p: ProductDefinition, t: Target): DomainId {
    match t.kind
    case Data => DataDomainId(p, t.id)
    case Capability => CapabilityDomainId(p, t.id)
    case Facade => FacadeDomainId(p, t.id)
  }

  /** `domains` maps each of the pointers seen so far to its number. */
  ghost predicate NumbersThe(domains: map<DomainPointer, DomainId>, seen: seq<DomainPointer>) {
    && (forall x :: x in domains <==> x in seen)
    && (forall x :: x in domains ==> domains[x] == Numbered(1 + PositionOf(seen, x)))
  }

  lemma NumbersTheNext(domains: map<DomainPointer, DomainId>, seen: seq<DomainPointer>, x: DomainPointer)
    requires NumbersThe(domains, seen) && x !in seen
    ensures NumbersThe(domains[x := Numbered(1 + |seen|)], seen + [x])
    ensures PositionOf(seen + [x], x) == |seen|
  {
    PositionAfterAppend(seen, x);
  }

  lemma {:induction false} PositionAfterAppend<T>(s: seq<T>, x: T)
    requires x !in s
    ensures PositionOf(s + [x], x) == |s|
    ensures forall y :: y in s ==> PositionOf(s + [x], y) == PositionOf(s, y)
  {
    if s != [] {
      PositionAfterAppend(s[1..], x);
      assert (s + [x])[1..] == s[1..] + [x];
    }
  }

  function Lookup(m: map<Id, DomainId>, id: Id): DomainId {
    if id in m then m[id] else INVALID_DOMAIN
  }

  ghost predicate NumbersTheItems(m: map<Id, DomainId>, items: seq<DataItemDefinition>, n: nat)
    requires n <= |items|
  {
    forall id :: Lookup(m, id) == DataDomainIdIn(items, n, id)
  }

  lemma NewDomainStep(items: seq<DataItemDefinition>, n: nat, domains: map<DomainPointer, DomainId>)
    requires n < |items| && items[n].domain !in domains
    requires NumbersThe(domains, DataDomains(items, n))
    ensures var id := Numbered(1 + |DataDomains(items, n)|);
            && Next(id) == Numbered(1 + |DataDomains(items, n + 1)|)
            && NumbersThe(domains[items[n].domain := id], DataDomains(items, n + 1))
  {
    NumbersTheNext(domains, DataDomains(items, n), items[n].domain);
  }

  lemma KnownDomainStep(items: seq<DataItemDefinition>, n: nat, domains: map<DomainPointer, DomainId>)
    requires n < |items| && items[n].domain in domains
    requires NumbersThe(domains, DataDomains(items, n))
    ensures DataDomains(items, n + 1) == DataDomains(items, n)
  {
  }

  lemma NumberStep(items: seq<DataItemDefinition>, n: nat, domains: map<DomainPointer, DomainId>, m: map<Id, DomainId>)
    requires n < |items| && items[n].domain in domains
    requires NumbersThe(domains, DataDomains(items, n + 1))
    requires NumbersTheItems(m, items, n)
    ensures NumbersTheItems(m[items[n].id := domains[items[n].domain]], items, n + 1)
  {
    var m' := m[items[n].id := domains[items[n].domain]];
    forall id ensures Lookup(m', id) == DataDomainIdIn(items, n + 1, id) {
      assert Lookup(m, id) == DataDomainIdIn(items, n, id);
    }
  }

  class DataDomainMap {
    const numbers: map<Id, DomainId>

    constructor (items: seq<DataItemDefinition>)
      ensures NumbersTheItems(numbers, items, |items|)
    {
      var m := NumberItems(items);
      numbers := m;
    }

    static method NumberItems(items: seq<DataItemDefinition>) returns (m: map<Id, DomainId>)
      ensures NumbersTheItems(m, items, |items|)
    {
      m := map[];
      var domains: map<DomainPointer, DomainId> := map[];
      var nextId: DomainId := 1;
      for i := 0 to |items|
        invariant nextId == Numbered(1 + |DataDomains(items, i)|)
        invariant NumbersThe(domains, DataDomains(items, i))
        invariant NumbersTheItems(m, items, i)
      {
        var item := items[i];
        var domainId;
        if item.domain !in domains {
          NewDomainStep(items, i, domains);
          domainId := nextId;
          nextId := Next(nextId);
          domains := domains[item.domain := domainId];
        } else {
          KnownDomainStep(items, i, domains);
          domainId := domains[item.domain];
        }
        NumberStep(items, i, domains, m);
        m := m[item.id := domainId];
      }
    }

    function Find(id: Id): DomainId {
      Lookup(numbers, id)
    }
  }

  // The domains a capability reads.

  /** The domains of the first n required ids, each once, without the ids that have none. */
  function DomainCover(items: seq<DataItemDefinition>, ds: seq<DomainId>, required: seq<Id>, n: nat): seq<DomainId>
    requires n <= |required|
  {
    if n == 0 then ds
    else
      var before := DomainCover(items, ds, required, n - 1);
      var d := DataDomainIdIn(items, |items|, required[n - 1]);
      if d == INVALID_DOMAIN || d in before then before else before + [d]
  }

  /** The cover that the first n capabilities give an id. */
  function RequiredDomainsIn(items: seq<DataItemDefinition>, capabilities: seq<DerivedDefinition>, n: nat, id: Id): seq<DomainId>
    requires n <= |capabilities|
  {
    if n == 0 then []
    else
      var before := RequiredDomainsIn(items, capabilities, n - 1, id);
      var c := capabilities[n - 1];
      if c.id == id then DomainCover(items, before, c.required, |c.required|) else before
  }

  function RequiredDomains(p: ProductDefinition, id: Id): seq<DomainId> {
    RequiredDomainsIn(p.dataItems, p.capabilities, |p.capabilities|, id)
  }

  function LookupSeq<T>(m: map<Id, seq<T>>, id: Id): seq<T> {
    if id in m then m[id] else []
  }

  ghost predicate CoversThe(m: map<Id, seq<DomainId>>, items: seq<DataItemDefinition>, capabilities: seq<DerivedDefinition>, n: nat)
    requires n <= |capabilities|
  {
    forall id :: LookupSeq(m, id) == RequiredDomainsIn(items, capabilities, n, id)
  }

  lemma CoverStep(m: map<Id, seq<DomainId>>, items: seq<DataItemDefinition>, capabilities: seq<DerivedDefinition>, n: nat)
    requires n < |capabilities| && CoversThe(m, items, capabilities, n)
    ensures var c := capabilities[n];
            CoversThe(m[c.id := DomainCover(items, LookupSeq(m, c.id), c.required, |c.required|)], items, capabilities, n + 1)
  {
    var c := capabilities[n];
    var m' := m[c.id := DomainCover(items, LookupSeq(m, c.id), c.required, |c.required|)];
    forall id ensures LookupSeq(m', id) == RequiredDomainsIn(items, capabilities, n + 1, id) {
      assert LookupSeq(m, id) == RequiredDomainsIn(items, capabilities, n, id);
    }
  }

  class CapabilityRequiredDomainMap {
    const covers: map<Id, seq<DomainId>>

    constructor (items: seq<DataItemDefinition>, capabilities: seq<DerivedDefinition>)
      ensures CoversThe(covers, items, capabilities, |capabilities|)
    {
      var numbers := new DataDomainMap(items);
      var m: map<Id, seq<DomainId>> := map[];
      for i := 0 to |capabilities|
        invariant CoversThe(m, items, capabilities, i)
      {
        var c := capabilities[i];
        var domains := LookupSeq(m, c.id);
        for j := 0 to |c.required|
          invariant domains == DomainCover(items, LookupSeq(m, c.id), c.required, j)
        {
          var domainId := numbers.Find(c.required[j]);
          if domainId != INVALID_DOMAIN && domainId !in domains {
            domains := domains + [domainId];
          }
        }
        CoverStep(m, items, capabilities, i);
        m := m[c.id := domains];
      }
      covers := m;
    }

    function Find(id: Id): seq<DomainId> {
      LookupSeq(covers, id)
    }
  }

  // Inverted dependency indexes.

  ghost predicate Reached(definitions: seq<DerivedDefinition>, n: nat, k: nat) {
    if n == |definitions| then k == 0 else n < |definitions| && k <= |definitions[n].required|
  }

  /** What the first n definitions, and the first k required ids of the next, put under `id`. */
  function DependentsUpTo(definitions: seq<DerivedDefinition>, n: nat, k: nat, id: Id): seq<DerivedDefinition>
    requires Reached(definitions, n, k)
    decreases n, k
  {
    if k > 0 then
      DependentsUpTo(definitions, n, k - 1, id) + (if definitions[n].required[k - 1] == id then [definitions[n]] else [])
    else if n > 0 then
      DependentsUpTo(definitions, n - 1, |definitions[n - 1].required|, id)
    else
      []
  }

  function Dependents(definitions: seq<DerivedDefinition>, id: Id): seq<DerivedDefinition> {
    DependentsUpTo(definitions, |definitions|, 0, id)
  }

  lemma {:induction false} DependentsSound(definitions: seq<DerivedDefinition>, n: nat, k: nat, id: Id, x: DerivedDefinition)
    requires Reached(definitions, n, k)
    requires x in DependentsUpTo(definitions, n, k, id)
    ensures x in definitions && id in x.required
    decreases n, k
  {
    if k > 0 {
      if x in DependentsUpTo(definitions, n, k - 1, id) {
        DependentsSound(definitions, n, k - 1, id, x);
      }
    } else {
      DependentsSound(definitions, n - 1, |definitions[n - 1].required|, id, x);
    }
  }

  lemma {:induction false} DependentsComplete(definitions: seq<DerivedDefinition>, n: nat, k: nat, i: nat, j: nat)
    requires Reached(definitions, n, k)
    requires i < |definitions| && j < |definitions[i].required| && (i < n || (i == n && j < k))
    ensures definitions[i] in DependentsUpTo(definitions, n, k, definitions[i].required[j])
    decreases n, k
  {
    if k > 0 {
      if !(i == n && j == k - 1) {
        DependentsComplete(definitions, n, k - 1, i, j);
      }
    } else {
      DependentsComplete(definitions, n - 1, |definitions[n - 1].required|, i, j);
    }
  }

  /** How often `id` is among the first `k` of some ids. */
  function Occurrences(ids: seq<Id>, k: nat, id: Id): nat
    requires k <= |ids|
  {
    if k == 0 then 0 else Occurrences(ids, k - 1, id) + (if ids[k - 1] == id then 1 else 0)
  }

  /** A definition is put under `id` once for each time it requires it. */
  lemma {:induction false} DependentsCount(definitions: seq<DerivedDefinition>, n: nat, k: nat, id: Id, m: nat)
    requires Reached(definitions, n, k) && m < |definitions| && Distinct(definitions, DerivedId)
    ensures multiset(DependentsUpTo(definitions, n, k, id))[definitions[m]] ==
            if m < n then Occurrences(definitions[m].required, |definitions[m].required|, id)
            else if m == n then Occurrences(definitions[m].required, k, id)
            else 0
    decreases n, k
  {
    if k > 0 {
      DependentsCount(definitions, n, k - 1, id, m);
      assert n != m ==> DerivedId(definitions[n]) != DerivedId(definitions[m]);
      var before := DependentsUpTo(definitions, n, k - 1, id);
      if definitions[n].required[k - 1] == id {
        assert multiset(before + [definitions[n]]) == multiset(before) + multiset{definitions[n]};
      } else {
        assert before + [] == before;
      }
    } else if n > 0 {
      DependentsCount(definitions, n - 1, |definitions[n - 1].required|, id, m);
    }
  }

  /** Main result: the inverted index holds x under id exactly when x requires id. */
  lemma DependentsMembers(definitions: seq<DerivedDefinition>, id: Id, x: DerivedDefinition)
    ensures x in Dependents(definitions, id) <==> x in definitions && id in x.required
  {
    if x in Dependents(definitions, id) {
      DependentsSound(definitions, |definitions|, 0, id, x);
    }
    if x in definitions && id in x.required {
      var i :| 0 <= i < |definitions| && definitions[i] == x;
      var j :| 0 <= j < |x.required| && x.required[j] == id;
      DependentsComplete(definitions, |definitions|, 0, i, j);
    }
  }

  ghost predicate Rises(at: seq<nat>) {
    forall i, j :: 0 <= i < j < |at| ==> at[i] <= at[j]
  }

  /** `xs` are the definitions at the positions `at`, all of them below `n`. */
  ghost predicate StandsAt(definitions: seq<DerivedDefinition>, xs: seq<DerivedDefinition>, at: seq<nat>, n: nat) {
    |at| == |xs| && n <= |definitions| && forall i :: 0 <= i < |at| ==> at[i] < n && xs[i] == definitions[at[i]]
  }

  /** Main result: the inverted index lists definitions in the order in which the product does. */
  lemma {:induction false} DependentsInOrder(definitions: seq<DerivedDefinition>, n: nat, k: nat, id: Id) returns (at: seq<nat>)
    requires Reached(definitions, n, k)
    ensures Rises(at) && StandsAt(definitions, DependentsUpTo(definitions, n, k, id), at, if k > 0 then n + 1 else n)
    decreases n, k
  {
    if k > 0 {
      at := DependentsInOrder(definitions, n, k - 1, id);
      if definitions[n].required[k - 1] == id {
        at := at + [n];
      }
    } else if n > 0 {
      at := DependentsInOrder(definitions, n - 1, |definitions[n - 1].required|, id);
    } else {
      at := [];
    }
  }

  ghost predicate Inverts(m: map<Id, seq<DerivedDefinition>>, definitions: seq<DerivedDefinition>, n: nat, k: nat)
    requires Reached(definitions, n, k)
  {
    forall id :: LookupSeq(m, id) == DependentsUpTo(definitions, n, k, id)
  }

  lemma InvertStep(m: map<Id, seq<DerivedDefinition>>, definitions: seq<DerivedDefinition>, n: nat, k: nat)
    requires n < |definitions| && k < |definitions[n].required|
    requires Inverts(m, definitions, n, k)
    ensures var id := definitions[n].required[k];
            Inverts(m[id := LookupSeq(m, id) + [definitions[n]]], definitions, n, k + 1)
  {
    var id := definitions[n].required[k];
    var m' := m[id := LookupSeq(m, id) + [definitions[n]]];
    forall x ensures LookupSeq(m', x) == DependentsUpTo(definitions, n, k + 1, x) {
      assert LookupSeq(m, x) == DependentsUpTo(definitions, n, k, x);
    }
  }

  lemma InvertNext(m: map<Id, seq<DerivedDefinition>>, definitions: seq<DerivedDefinition>, n: nat)
    requires n < |definitions| && Inverts(m, definitions, n, |definitions[n].required|)
    ensures Inverts(m, definitions, n + 1, 0)
  {
    forall x ensures LookupSeq(m, x) == DependentsUpTo(definitions, n + 1, 0, x) {
      assert LookupSeq(m, x) == DependentsUpTo(definitions, n, |definitions[n].required|, x);
    }
  }

  /** CapabilityDependencyMap and FacadeDependencyMap: the same loops over different definitions. */
  class DependencyMap {
    const dependents: map<Id, seq<DerivedDefinition>>

    constructor (definitions: seq<DerivedDefinition>)
      ensures Inverts(dependents, definitions, |definitions|, 0)
    {
      var m: map<Id, seq<DerivedDefinition>> := map[];
      for i := 0 to |definitions|
        invariant Inverts(m, definitions, i, 0)
      {
        for j := 0 to |definitions[i].required|
          invariant Inverts(m, definitions, i, j)
        {
          var id := definitions[i].required[j];
          InvertStep(m, definitions, i, j);
          m := m[id := LookupSeq(m, id) + [definitions[i]]];
        }
        InvertNext(m, definitions, i);
      }
      dependents := m;
    }

    function Find(id: Id): seq<DerivedDefinition> {
      LookupSeq(dependents, id)
    }
  }

  // The context itself.

  function RouteOf(p: ProductDefinition, t: Target): Option<RouteDefinition> {
    match t.kind
    case Data =>
      (match FindDataItem(p, t.id)
       case None => None
       case Some(item) => FindRoute(p, item.routeId))
    case Capability =>
      (match FindCapability(p, t.id)
       case None => None
       case Some(c) => FindRoute(p, c.routeId))
    case Facade =>
      (match FindFacade(p, t.id)
       case None => None
       case Some(f) => FindRoute(p, f.routeId))
  }

  /** `m` finds what the linear search finds. */
  ghost predicate Indexes<T>(m: map<Id, T>, items: seq<T>, getter: T -> Id) {
    forall id :: (if id in m then Some(m[id]) else None) == FindWith(items, getter, id)
  }

  ghost predicate IndexesFirst<T>(m: map<Id, T>, items: seq<T>, n: nat, getter: T -> Id)
    requires n <= |items|
  {
    && (forall k :: 0 <= k < n ==> getter(items[k]) in m)
    && (forall id :: id in m ==> IndexWith(items, getter, id) < n && m[id] == items[IndexWith(items, getter, id)])
  }

  lemma EmplaceStep<T>(m: map<Id, T>, items: seq<T>, n: nat, getter: T -> Id)
    requires n < |items| && IndexesFirst(m, items, n, getter)
    ensures var id := getter(items[n]);
            IndexesFirst(if id in m then m else m[id := items[n]], items, n + 1, getter)
  {
    var id := getter(items[n]);
    if id !in m {
      assert IndexWith(items, getter, id) == n;
    }
  }

  /** `emplace` keeps the first entry of a key. */
  method IndexById<T>(items: seq<T>, getter: T -> Id) returns (m: map<Id, T>)
    ensures Indexes(m, items, getter)
  {
    m := map[];
    for i := 0 to |items|
      invariant IndexesFirst(m, items, i, getter)
    {
      EmplaceStep(m, items, i, getter);
      var id := getter(items[i]);
      if id !in m {
        m := m[id := items[i]];
      }
    }
  }

  /** The numbers of the first `n` definitions: where an id repeats, the first keeps its number. */
  ghost predicate NumbersAt(m: map<Id, DomainId>, definitions: seq<DerivedDefinition>, n: nat, first: nat, id: Id) {
    var k := IndexWith(definitions, DerivedId, id);
    && (id in m <==> k < n)
    && (id in m ==> m[id] == Numbered(first + k))
  }

  ghost predicate NumbersThoseFrom(m: map<Id, DomainId>, definitions: seq<DerivedDefinition>, n: nat, first: nat) {
    forall id :: NumbersAt(m, definitions, n, first, id)
  }

  lemma NumberDerivedStep(m: map<Id, DomainId>, definitions: seq<DerivedDefinition>, n: nat, first: nat)
    requires n < |definitions| && NumbersThoseFrom(m, definitions, n, first)
    ensures var id := definitions[n].id;
            NumbersThoseFrom(if id in m then m else m[id := Numbered(first + n)], definitions, n + 1, first)
  {
    var id, n' := definitions[n].id, n + 1;
    var m' := if id in m then m else m[id := Numbered(first + n)];
    assert DerivedId(definitions[n]) == id;
    assert NumbersAt(m, definitions, n, first, id);
    forall other ensures NumbersAt(m', definitions, n', first, other) {
      assert NumbersAt(m, definitions, n, first, other);
    }
  }

  lemma NumberAt(m: map<Id, DomainId>, definitions: seq<DerivedDefinition>, first: nat, id: Id)
    requires NumbersThoseFrom(m, definitions, |definitions|, first)
    ensures Lookup(m, id) == DerivedNumber(definitions, first, id)
  {
    assert NumbersAt(m, definitions, |definitions|, first, id);
  }

  method NumberById(definitions: seq<DerivedDefinition>, start: DomainId, ghost first: nat)
    returns (m: map<Id, DomainId>, next: DomainId)
    requires start == Numbered(first)
    ensures forall id :: Lookup(m, id) == DerivedNumber(definitions, first, id)
    ensures next == Numbered(first + |definitions|)
  {
    m, next := map[], start;
    for i := 0 to |definitions|
      invariant NumbersThoseFrom(m, definitions, i, first)
      invariant next == Numbered(first + i)
    {
      NumberDerivedStep(m, definitions, i, first);
      if definitions[i].id !in m {
        m := m[definitions[i].id := next];
      }
      next := Next(next);
    }
    forall id ensures Lookup(m, id) == DerivedNumber(definitions, first, id) {
      NumberAt(m, definitions, first, id);
    }
  }

  ghost predicate IndexesAll(
    product: ProductDefinition, routes: map<Id, RouteDefinition>, dataItems: map<Id, DataItemDefinition>,
    capabilities: map<Id, DerivedDefinition>, facades: map<Id, DerivedDefinition>)
  {
    && Indexes(routes, product.routes, RouteId)
    && Indexes(dataItems, product.dataItems, DataItemId)
    && Indexes(capabilities, product.capabilities, DerivedId)
    && Indexes(facades, product.facades, DerivedId)
  }

  method IndexAll(product: ProductDefinition)
    returns (routes: map<Id, RouteDefinition>, dataItems: map<Id, DataItemDefinition>,
             capabilities: map<Id, DerivedDefinition>, facades: map<Id, DerivedDefinition>)
    ensures IndexesAll(product, routes, dataItems, capabilities, facades)
  {
    routes := IndexById(product.routes, RouteId);
    dataItems := IndexById(product.dataItems, DataItemId);
    capabilities := IndexById(product.capabilities, DerivedId);
    facades := IndexById(product.facades, DerivedId);
  }

  ghost predicate NumbersDerived(product: ProductDefinition, capabilities: map<Id, DomainId>, facades: map<Id, DomainId>, id: Id) {
    && Lookup(capabilities, id) == CapabilityDomainId(product, id)
    && Lookup(facades, id) == FacadeDomainId(product, id)
  }

  /** Derived domains are numbered after the product's own domains, capabilities first. */
  method NumberAll(product: ProductDefinition) returns (capabilities: map<Id, DomainId>, facades: map<Id, DomainId>)
    ensures forall id :: NumbersDerived(product, capabilities, facades, id)
  {
    NumberedIsModulo(|product.domains| + 1);
    var next: DomainId := (|product.domains| + 1) % 0x1_0000_0000;
    capabilities, next := NumberById(product.capabilities, next, |product.domains| + 1);
    facades, next := NumberById(product.facades, next, |product.domains| + 1 + |product.capabilities|);
  }

  class ProductContext {
    const product: ProductDefinition
    const dataDomains: DataDomainMap
    const capabilityDomains: CapabilityRequiredDomainMap
    const capabilityDependencies: DependencyMap
    const facadeDependencies: DependencyMap
    const routesById: map<Id, RouteDefinition>
    const dataItemsById: map<Id, DataItemDefinition>
    const capabilitiesById: map<Id, DerivedDefinition>
    const facadesById: map<Id, DerivedDefinition>
    const capabilityDomainsById: map<Id, DomainId>
    const facadeDomainsById: map<Id, DomainId>

    constructor (product: ProductDefinition)
      ensures this.product == product && Built()
    {
      var routes, dataItems, capabilities, facades := IndexAll(product);
      var capabilityNumbers, facadeNumbers := NumberAll(product);
      dataDomains := new DataDomainMap(product.dataItems);
      capabilityDomains := new CapabilityRequiredDomainMap(product.dataItems, product.capabilities);
      capabilityDependencies := new DependencyMap(product.capabilities);
      facadeDependencies := new DependencyMap(product.facades);
      this.product := product;
      routesById, dataItemsById, capabilitiesById, facadesById := routes, dataItems, capabilities, facades;
      capabilityDomainsById, facadeDomainsById := capabilityNumbers, facadeNumbers;
      new;
      forall id ensures AgreesAt(id) {
        PartsAgree(id);
      }
    }

    /** What the parts promise when they are built. */
    ghost predicate Assembled() {
      && IndexesAll(product, routesById, dataItemsById, capabilitiesById, facadesById)
      && NumbersTheItems(dataDomains.numbers, product.dataItems, |product.dataItems|)
      && (forall id :: NumbersDerived(product, capabilityDomainsById, facadeDomainsById, id))
      && CoversThe(capabilityDomains.covers, product.dataItems, product.capabilities, |product.capabilities|)
      && Inverts(capabilityDependencies.dependents, product.capabilities, |product.capabilities|, 0)
      && Inverts(facadeDependencies.dependents, product.facades, |product.facades|, 0)
    }

    lemma PartsAgree(id: Id)
      requires Assembled()
      ensures AgreesAt(id)
    {
      assert NumbersDerived(product, capabilityDomainsById, facadeDomainsById, id);
    }

    /** Every index agrees with the definition it was built from. */
    ghost predicate Built() {
      forall id :: AgreesAt(id)
    }

    ghost predicate AgreesAt(id: Id) {
      && FindDataItem(id) == Product.FindDataItem(product, id)
      && FindCapability(id) == Product.FindCapability(product, id)
      && FindFacade(id) == Product.FindFacade(product, id)
      && FindRoute(id) == Product.FindRoute(product, id)
      && FindDataDomainId(id) == DataDomainId(product, id)
      && FindCapabilityDomainId(id) == CapabilityDomainId(product, id)
      && FindFacadeDomainId(id) == FacadeDomainId(product, id)
      && capabilityDomains.Find(id) == RequiredDomains(product, id)
      && capabilityDependencies.Find(id) == Dependents(product.capabilities, id)
      && facadeDependencies.Find(id) == Dependents(product.facades, id)
    }

    function FindDataItem(id: Id): Option<DataItemDefinition> {
      if id in dataItemsById then Some(dataItemsById[id]) else None
    }

    function FindCapability(id: Id): Option<DerivedDefinition> {
      if id in capabilitiesById then Some(capabilitiesById[id]) else None
    }

    function FindFacade(id: Id): Option<DerivedDefinition> {
      if id in facadesById then Some(facadesById[id]) else None
    }

    function FindRoute(id: Id): Option<RouteDefinition> {
      if id in routesById then Some(routesById[id]) else None
    }

    function FindDataDomainId(id: Id): DomainId {
      dataDomains.Find(id)
    }

    function FindCapabilityDomainId(id: Id): DomainId {
      Lookup(capabilityDomainsById, id)
    }

    function FindFacadeDomainId(id: Id): DomainId {
      Lookup(facadeDomainsById, id)
    }

    function FindDomainId(t: Target): (r: DomainId)
      requires Built()
      ensures r == DomainOf(product, t)
    {
      assert AgreesAt(t.id);
      match t.kind
      case Data => FindDataDomainId(t.id)
      case Capability => FindCapabilityDomainId(t.id)
      case Facade => FindFacadeDomainId(t.id)
    }

    function ResolveRoute(t: Target): (r: Option<RouteDefinition>)
      requires Built()
      ensures r == RouteOf(product, t)
    {
      assert AgreesAt(t.id);
      match t.kind
      case Data =>
        (match FindDataItem(t.id)
         case None => None
         case Some(item) => assert AgreesAt(item.routeId); FindRoute(item.routeId))
      case Capability =>
        (match FindCapability(t.id)
         case None => None
         case Some(c) => assert AgreesAt(c.routeId); FindRoute(c.routeId))
      case Facade =>
        (match FindFacade(t.id)
         case None => None
         case Some(f) => assert AgreesAt(f.routeId); FindRoute(f.routeId))
    }
  }
}
