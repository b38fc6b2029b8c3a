/** A product definition, the linear searches over it, and its validation. */
module Product {
  import opened Values
  import opened Queues

  /** A C string: the code compares some by address and others by their characters. */
  datatype CString = CString(address: nat, text: string)

  datatype DomainDefinition = DomainDefinition(name: CString)

  /** `const DomainDefinition*`: equal exactly when the addresses are. */
  datatype DomainPointer = NullDomain | DomainAt(address: nat, definition: DomainDefinition)

  datatype QueuePolicy = BufferedQueue | CoalescingQueue

  datatype RouteDefinition = RouteDefinition(
    id: Id, name: string, storePolicy: QueuePolicy, capabilityPolicy: QueuePolicy,
    compression: CompressionPolicy, minimumNotifyIntervalMs: UInt32)

  datatype DataItemDefinition = DataItemDefinition(
    id: Id, name: string, domain: DomainPointer, routeId: Id,
    rawValueType: ValueType, setValueType: ValueType, storeValueType: ValueType,
    normalize: RIMValue -> RIMValue, store: StoreCallback, diff: Option<DiffCallback>)

  type RIMSnapshot = seq<RIMDataItem>

  /** CapabilityItemDefinition and FacadeItemDefinition have the same fields; `required` holds data
      ids in the first and capability ids in the second. */
  datatype DerivedDefinition = DerivedDefinition(
    id: Id, name: string, build: RIMSnapshot -> RIMValue, diff: DiffCallback, required: seq<Id>, routeId: Id)

  datatype ProductDefinition = ProductDefinition(
    domains: seq<DomainDefinition>, routes: seq<RouteDefinition>, dataItems: seq<DataItemDefinition>,
    capabilities: seq<DerivedDefinition>, facades: seq<DerivedDefinition>)

  // Linear searches.

  /** The position of the first entry from `i` on with the key, or the number of entries. */
  function IndexFrom<T, K(==)>(items: seq<T>, i: nat, getter: T -> K, key: K): (k: nat)
    requires i <= |items|
    ensures i <= k <= |items|
    ensures k < |items| ==> getter(items[k]) == key
    ensures forall j :: i <= j < k ==> getter(items[j]) != key
    decreases |items| - i
  {
    if i == |items| || getter(items[i]) == key then i else IndexFrom(items, i + 1, getter, key)
  }

  function IndexWith<T, K(==)>(items: seq<T>, getter: T -> K, key: K): (k: nat)
    ensures k <= |items|
    ensures k < |items| ==> getter(items[k]) == key
    ensures forall j :: 0 <= j < k ==> getter(items[j]) != key
  {
    IndexFrom(items, 0, getter, key)
  }

  function FindWith<T, K(==)>(items: seq<T>, getter: T -> K, key: K): (r: Option<T>)
    ensures r.None? <==> forall i :: 0 <= i < |items| ==> getter(items[i]) != key
    ensures r.Some? ==> r.value in items && getter(r.value) == key
  {
    var k := IndexWith(items, getter, key);
    if k < |items| then Some(items[k]) else None
  }

  /** The loop of every Find function. */
  method Search<T, K(==)>(items: seq<T>, getter: T -> K, key: K) returns (found: Option<T>)
    ensures found == FindWith(items, getter, key)
  {
    for i := 0 to |items|
      invariant forall j :: 0 <= j < i ==> getter(items[j]) != key
    {
      if getter(items[i]) == key {
        return Some(items[i]);
      }
    }
    return None;
  }

  function DomainAddress(d: DomainDefinition): nat { d.name.address }
  function DomainText(d: DomainDefinition): string { d.name.text }
  function RouteId(r: RouteDefinition): Id { r.id }
  function RouteName(r: RouteDefinition): string { r.name }
  function DataItemId(d: DataItemDefinition): Id { d.id }
  function DataItemName(d: DataItemDefinition): string { d.name }
  function DerivedId(d: DerivedDefinition): Id { d.id }
  function DerivedName(d: DerivedDefinition): string { d.name }

  function FindRoute(p: ProductDefinition, id: Id): Option<RouteDefinition> {
    FindWith(p.routes, RouteId, id)
  }

  function FindDataItem(p: ProductDefinition, id: Id): Option<DataItemDefinition> {
    FindWith(p.dataItems, DataItemId, id)
  }

  function FindCapability(p: ProductDefinition, id: Id): Option<DerivedDefinition> {
    FindWith(p.capabilities, DerivedId, id)
  }

  function FindFacade(p: ProductDefinition, id: Id): Option<DerivedDefinition> {
    FindWith(p.facades, DerivedId, id)
  }

  // Validation.

  ghost predicate Distinct<T, K>(items: seq<T>, getter: T -> K) {
    forall i, j :: 0 <= i < j < |items| ==> getter(items[i]) != getter(items[j])
  }

  /** What validation demands, rule by rule. */
  datatype Rule =
    | DomainNamesDiffer | DataDomainsKnown | DataNamesDiffer | DataIdsDiffer | RouteNamesDiffer | DataRoutesKnown
    | CapabilityNamesDiffer | CapabilityIdsDiffer | RequiredDataKnown
    | FacadeNamesDiffer | FacadeIdsDiffer | RequiredCapabilitiesKnown

  /** Domain names are told apart by address, all other names by their characters. */
  ghost predicate Meets(p: ProductDefinition, rule: Rule) {
    match rule
    case DomainNamesDiffer => Distinct(p.domains, DomainAddress)
    case DataDomainsKnown => forall i :: 0 <= i < |p.dataItems| ==> DomainKnown(p, p.dataItems[i])
    case DataNamesDiffer => Distinct(p.dataItems, DataItemName)
    case DataIdsDiffer => Distinct(p.dataItems, DataItemId)
    case RouteNamesDiffer => Distinct(p.routes, RouteName)
    case DataRoutesKnown => forall i :: 0 <= i < |p.dataItems| ==> FindRoute(p, p.dataItems[i].routeId).Some?
    case CapabilityNamesDiffer => Distinct(p.capabilities, DerivedName)
    case CapabilityIdsDiffer => Distinct(p.capabilities, DerivedId)
    case RequiredDataKnown =>
      forall i :: 0 <= i < |p.capabilities| ==> AllDefined(p.dataItems, DataItemId, p.capabilities[i].required)
    case FacadeNamesDiffer => Distinct(p.facades, DerivedName)
    case FacadeIdsDiffer => Distinct(p.facades, DerivedId)
    case RequiredCapabilitiesKnown =>
      forall i :: 0 <= i < |p.facades| ==> AllDefined(p.capabilities, DerivedId, p.facades[i].required)
  }

  ghost predicate Valid(p: ProductDefinition) {
    forall rule :: Meets(p, rule)
  }

  ghost predicate DomainKnown(p: ProductDefinition, item: DataItemDefinition) {
    && item.domain.DomainAt?
    && FindWith(p.domains, DomainText, item.domain.definition.name.text).Some?
  }

  ghost predicate AllDefined<T>(items: seq<T>, getter: T -> Id, ids: seq<Id>) {
    forall j :: 0 <= j < |ids| ==> FindWith(items, getter, ids[j]).Some?
  }

  method HasDuplicate<T, K(==)>(items: seq<T>, getter: T -> K) returns (found: bool)
    ensures found <==> !Distinct(items, getter)
  {
    for i := 0 to |items|
      invariant forall a, b :: 0 <= a < i && a < b < |items| ==> getter(items[a]) != getter(items[b])
    {
      for j := i + 1 to |items|
        invariant forall b :: i < b < j ==> getter(items[i]) != getter(items[b])
      {
        if getter(items[i]) == getter(items[j]) {
          return true;
        }
      }
    }
    return false;
  }

  method RequiredDefined<T>(items: seq<T>, getter: T -> Id, definitions: seq<DerivedDefinition>) returns (ok: bool)
    ensures ok <==> forall i :: 0 <= i < |definitions| ==> AllDefined(items, getter, definitions[i].required)
  {
    for i := 0 to |definitions|
      invariant forall a :: 0 <= a < i ==> AllDefined(items, getter, definitions[a].required)
    {
      var required := definitions[i].required;
      for j := 0 to |required|
        invariant forall b :: 0 <= b < j ==> FindWith(items, getter, required[b]).Some?
      {
        var found := Search(items, getter, required[j]);
        if found.None? {
          assert !AllDefined(items, getter, definitions[i].required);
          return false;
        }
      }
    }
    return true;
  }

  method DomainsKnown(p: ProductDefinition) returns (ok: bool)
    ensures ok <==> forall i :: 0 <= i < |p.dataItems| ==> DomainKnown(p, p.dataItems[i])
  {
    for i := 0 to |p.dataItems|
      invariant forall a :: 0 <= a < i ==> DomainKnown(p, p.dataItems[a])
    {
      var pointer := p.dataItems[i].domain;
      if pointer.NullDomain? {
        return false;
      }
      var domain := Search(p.domains, DomainText, pointer.definition.name.text);
      if domain.None? {
        return false;
      }
    }
    return true;
  }

  method RoutesKnown(p: ProductDefinition) returns (ok: bool)
    ensures ok <==> forall i :: 0 <= i < |p.dataItems| ==> FindRoute(p, p.dataItems[i].routeId).Some?
  {
    for i := 0 to |p.dataItems|
      invariant forall a :: 0 <= a < i ==> FindRoute(p, p.dataItems[a].routeId).Some?
    {
      var route := Search(p.routes, RouteId, p.dataItems[i].routeId);
      if route.None? {
        return false;
      }
    }
    return true;
  }

  /** The checks on domains, data items and routes. */
  method ValidateData(p: ProductDefinition) returns (ok: bool)
    ensures ok <==>
            Meets(p, DomainNamesDiffer) && Meets(p, DataDomainsKnown) && Meets(p, DataNamesDiffer)
            && Meets(p, DataIdsDiffer) && Meets(p, RouteNamesDiffer) && Meets(p, DataRoutesKnown)
  {
    var duplicate := HasDuplicate(p.domains, DomainAddress);
    if duplicate { return false; }
    var known := DomainsKnown(p);
    if !known { return false; }
    duplicate := HasDuplicate(p.dataItems, DataItemName);
    if duplicate { return false; }
    duplicate := HasDuplicate(p.dataItems, DataItemId);
    if duplicate { return false; }
    duplicate := HasDuplicate(p.routes, RouteName);
    if duplicate { return false; }
    known := RoutesKnown(p);
    if !known { return false; }
    return true;
  }

  /** The checks on capabilities and facades. */
  method ValidateDerived(p: ProductDefinition) returns (ok: bool)
    ensures ok <==>
            Meets(p, CapabilityNamesDiffer) && Meets(p, CapabilityIdsDiffer) && Meets(p, RequiredDataKnown)
            && Meets(p, FacadeNamesDiffer) && Meets(p, FacadeIdsDiffer) && Meets(p, RequiredCapabilitiesKnown)
  {
    var duplicate := HasDuplicate(p.capabilities, DerivedName);
    if duplicate { return false; }
    duplicate := HasDuplicate(p.capabilities, DerivedId);
    if duplicate { return false; }
    var known := RequiredDefined(p.dataItems, DataItemId, p.capabilities);
    if !known { return false; }
    duplicate := HasDuplicate(p.facades, DerivedName);
    if duplicate { return false; }
    duplicate := HasDuplicate(p.facades, DerivedId);
    if duplicate { return false; }
    known := RequiredDefined(p.capabilities, DerivedId, p.facades);
    if !known { return false; }
    return true;
  }

  method ValidateProductDefinition(p: ProductDefinition) returns (ok: bool)
    ensures ok <==> Valid(p)
  {
    ok := ValidateData(p);
    if ok {
      ok := ValidateDerived(p);
    }
  }

  // What validation gives the lookups.

  /** With distinct keys, an entry is found under its own key and under no other. */
  lemma DistinctFindsItself<T, K>(items: seq<T>, getter: T -> K, x: T)
    requires Distinct(items, getter) && x in items
    ensures FindWith(items, getter, getter(x)) == Some(x)
  {
    var i :| 0 <= i < |items| && items[i] == x;
    var k := IndexWith(items, getter, getter(x));
  }
}
