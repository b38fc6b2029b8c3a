/** The PrinterA product: its normalisation, its builders and its whole definition. */
module PrinterA {
  import opened Values
  import opened Queues
  import opened Product
  import opened Partitioning
  import opened Snapshots

  const TEMPERATURE_SENSOR_A: Id := 1
  const TEMPERATURE_SENSOR_B: Id := 2
  const HUMIDITY_SENSOR: Id := 3
  const UPPER_DOOR_OPEN: Id := 4
  const RIGHT_DOOR_OPEN: Id := 5
  const LEFT_DOOR_OPEN: Id := 6
  const STAPLE_LEVEL: Id := 7
  const TONER_LEVEL: Id := 8
  const JOB_ACTIVE: Id := 9
  const JOB_ID: Id := 10
  const ERROR_LIST: Id := 11

  const CAPABILITY_ENVIRONMENT: Id := 0
  const CAPABILITY_PRINT_READY: Id := 1

  const FACADE_ENVIRONMENT_READY: Id := 0
  const FACADE_OPERATION_READY: Id := 1

  const ROUTE_VALUE: Id := 1
  const ROUTE_DATA: Id := 2
  const ROUTE_ERROR: Id := 3
  const ROUTE_FACADE: Id := 4

  // Normalisation.

  function IdentityNormalize(v: RIMValue): RIMValue { v }

  /** Degrees Celsius become kelvins. */
  function NormalizeTemperatureSensorA(v: RIMValue): RIMValue {
    match v
    case DoubleValue(celsius) => DoubleValue(celsius + 273.15)
    case _ => EMPTY_VALUE
  }

  function NormalizeBinary(v: RIMValue): RIMValue { v }

  // Builders: what a TryGet does not find stays zero or false.

  function RealOr(r: Option<real>): real { if r.Some? then r.value else 0.0 }
  function BoolOr(b: Option<bool>): bool { if b.Some? then b.value else false }
  function Int32Or(i: Option<Int32>): Int32 { if i.Some? then i.value else 0 }

  /** How bad heat and damp are together. */
  function Severity(temperature: real, humidity: real): Int32 {
    if temperature >= 60.0 + 273.15 && humidity >= 60.0 then 2
    else if temperature >= 25.0 + 273.15 && humidity >= 25.0 then 1
    else 0
  }

  function BuildEnvironmentCapability(s: RIMSnapshot): RIMValue {
    Int32Value(Severity(RealOr(TryGetDouble(s, TEMPERATURE_SENSOR_A)), RealOr(TryGetDouble(s, HUMIDITY_SENSOR))))
  }

  function BuildPrintReadyCapability(s: RIMSnapshot): RIMValue {
    BoolValue(
      && !BoolOr(TryGetBool(s, UPPER_DOOR_OPEN))
      && !BoolOr(TryGetBool(s, RIGHT_DOOR_OPEN))
      && !BoolOr(TryGetBool(s, LEFT_DOOR_OPEN)))
  }

  function BuildEnvironmentReadyFacade(s: RIMSnapshot): RIMValue {
    BoolValue(Int32Or(TryGetInt32(s, CAPABILITY_ENVIRONMENT)) != 2)
  }

  function BuildOperationReadyFacade(s: RIMSnapshot): RIMValue {
    BoolValue(Int32Or(TryGetInt32(s, CAPABILITY_ENVIRONMENT)) != 2 && BoolOr(TryGetBool(s, CAPABILITY_PRINT_READY)))
  }

  // The definition.

  const ENVIRONMENT_DOMAIN := DomainDefinition(CString(101, "Environment"))
  const DOOR_DOMAIN := DomainDefinition(CString(102, "Door"))
  const CONSUMABLE_DOMAIN := DomainDefinition(CString(103, "Consumable"))
  const JOB_DOMAIN := DomainDefinition(CString(104, "Job"))
  const ERROR_DOMAIN := DomainDefinition(CString(105, "Error"))

  function Item(id: Id, name: string, address: nat, domain: DomainDefinition, routeId: Id, ty: ValueType,
          normalize: RIMValue -> RIMValue): DataItemDefinition {
    DataItemDefinition(id, name, DomainAt(address, domain), routeId, ty, ty, ty, normalize, IdentityStore, Some(IdentityDiff))
  }

  const DATA_ITEMS: seq<DataItemDefinition> := [
    Item(TEMPERATURE_SENSOR_A, "TemperatureSensorA", 201, ENVIRONMENT_DOMAIN, ROUTE_VALUE, DoubleType, NormalizeTemperatureSensorA),
    Item(TEMPERATURE_SENSOR_B, "TemperatureSensorB", 201, ENVIRONMENT_DOMAIN, ROUTE_VALUE, DoubleType, IdentityNormalize),
    Item(HUMIDITY_SENSOR, "HumiditySensor", 201, ENVIRONMENT_DOMAIN, ROUTE_VALUE, DoubleType, IdentityNormalize),
    Item(UPPER_DOOR_OPEN, "UpperDoorOpen", 202, DOOR_DOMAIN, ROUTE_VALUE, BoolType, IdentityNormalize),
    Item(RIGHT_DOOR_OPEN, "RightDoorOpen", 202, DOOR_DOMAIN, ROUTE_VALUE, BoolType, IdentityNormalize),
    Item(LEFT_DOOR_OPEN, "LeftDoorOpen", 202, DOOR_DOMAIN, ROUTE_VALUE, BoolType, IdentityNormalize),
    Item(STAPLE_LEVEL, "StapleLevel", 203, CONSUMABLE_DOMAIN, ROUTE_DATA, UInt32Type, IdentityNormalize),
    Item(TONER_LEVEL, "TonerLevel", 203, CONSUMABLE_DOMAIN, ROUTE_DATA, Int32Type, IdentityNormalize),
    Item(JOB_ACTIVE, "JobActive", 204, JOB_DOMAIN, ROUTE_DATA, BoolType, IdentityNormalize),
    Item(JOB_ID, "JobId", 204, JOB_DOMAIN, ROUTE_DATA, Int32Type, IdentityNormalize),
    Item(ERROR_LIST, "ErrorList", 205, ERROR_DOMAIN, ROUTE_ERROR, BinaryType, NormalizeBinary)]

  const ENVIRONMENT := DerivedDefinition(
    CAPABILITY_ENVIRONMENT, "Environment", BuildEnvironmentCapability, IdentityDiff,
    [TEMPERATURE_SENSOR_A, TEMPERATURE_SENSOR_B, HUMIDITY_SENSOR], ROUTE_VALUE)

  const PRINT_READY := DerivedDefinition(
    CAPABILITY_PRINT_READY, "PrintReady", BuildPrintReadyCapability, IdentityDiff,
    [UPPER_DOOR_OPEN, RIGHT_DOOR_OPEN, LEFT_DOOR_OPEN], ROUTE_DATA)

  const ENVIRONMENT_READY := DerivedDefinition(
    FACADE_ENVIRONMENT_READY, "EnvironmentReady", BuildEnvironmentReadyFacade, IdentityDiff, [CAPABILITY_ENVIRONMENT], ROUTE_FACADE)

  const OPERATION_READY := DerivedDefinition(
    FACADE_OPERATION_READY, "OperationReady", BuildOperationReadyFacade, IdentityDiff,
    [CAPABILITY_ENVIRONMENT, CAPABILITY_PRINT_READY], ROUTE_FACADE)

  const ROUTES: seq<RouteDefinition> := [
    RouteDefinition(ROUTE_VALUE, "ValueRoute", BufferedQueue, BufferedQueue, KeepLatest, 100),
    RouteDefinition(ROUTE_DATA, "DataRoute", BufferedQueue, BufferedQueue, KeepOldest, 100),
    RouteDefinition(ROUTE_ERROR, "ErrorRoute", CoalescingQueue, BufferedQueue, KeepAll, 0),
    RouteDefinition(ROUTE_FACADE, "FacadeRoute", CoalescingQueue, BufferedQueue, KeepOldest, 100)]

  const PRINTER_A := ProductDefinition(
    [ENVIRONMENT_DOMAIN, DOOR_DOMAIN, CONSUMABLE_DOMAIN, JOB_DOMAIN, ERROR_DOMAIN],
    ROUTES, DATA_ITEMS, [ENVIRONMENT, PRINT_READY], [ENVIRONMENT_READY, OPERATION_READY])

  // What the general results ask of a product.

  /** Main result: the capability builders look at nothing but the data they declare. */
  lemma CapabilityBuildersAreFramed()
    ensures Framed(ENVIRONMENT) && Framed(PRINT_READY)
  {
    forall s, t | SameView(s, t, ENVIRONMENT.required) ensures ENVIRONMENT.build(s) == ENVIRONMENT.build(t) {
      assert TEMPERATURE_SENSOR_A in ENVIRONMENT.required && HUMIDITY_SENSOR in ENVIRONMENT.required;
    }
    forall s, t | SameView(s, t, PRINT_READY.required) ensures PRINT_READY.build(s) == PRINT_READY.build(t) {
      assert UPPER_DOOR_OPEN in PRINT_READY.required && RIGHT_DOOR_OPEN in PRINT_READY.required;
      assert LEFT_DOOR_OPEN in PRINT_READY.required;
    }
  }

  /** Main result: the facade builders look at nothing but the capabilities they declare. */
  lemma FacadeBuildersAreFramed()
    ensures Framed(ENVIRONMENT_READY) && Framed(OPERATION_READY)
  {
    forall s, t | SameView(s, t, ENVIRONMENT_READY.required) ensures ENVIRONMENT_READY.build(s) == ENVIRONMENT_READY.build(t) {
      assert CAPABILITY_ENVIRONMENT in ENVIRONMENT_READY.required;
    }
    forall s, t | SameView(s, t, OPERATION_READY.required) ensures OPERATION_READY.build(s) == OPERATION_READY.build(t) {
      assert CAPABILITY_ENVIRONMENT in OPERATION_READY.required && CAPABILITY_PRINT_READY in OPERATION_READY.required;
    }
  }

  /** Data items are listed in the order of their ids. */
  lemma ItemsInOrder()
    ensures |DATA_ITEMS| == 11 && forall i :: 0 <= i < 11 ==> DATA_ITEMS[i].id == i + 1
  {
  }

  lemma ItemFound(id: Id)
    ensures FindDataItem(PRINTER_A, id) == if 1 <= id <= 11 then Some(DATA_ITEMS[id - 1]) else None
  {
    ItemsInOrder();
    var k := IndexWith(DATA_ITEMS, DataItemId, id);
    if 1 <= id <= 11 {
      assert DataItemId(DATA_ITEMS[id - 1]) == id;
    }
  }

  /** Enough of a name to tell the names of this product apart: its length and its ends. */
  function NameKey(name: string): (int, char, char) {
    if name == "" then (0, ' ', ' ') else (|name|, name[0], name[|name| - 1])
  }

  lemma DataNamesDifferHere()
    ensures Meets(PRINTER_A, DataNamesDiffer)
  {
    forall i, j | 0 <= i < j < |DATA_ITEMS| ensures DataItemName(DATA_ITEMS[i]) != DataItemName(DATA_ITEMS[j]) {
      assert NameKey(DataItemName(DATA_ITEMS[i])) != NameKey(DataItemName(DATA_ITEMS[j]));
    }
  }

  lemma OtherNamesDifferHere()
    ensures Meets(PRINTER_A, DomainNamesDiffer) && Meets(PRINTER_A, RouteNamesDiffer)
    ensures Meets(PRINTER_A, CapabilityNamesDiffer) && Meets(PRINTER_A, FacadeNamesDiffer)
    ensures Meets(PRINTER_A, CapabilityIdsDiffer) && Meets(PRINTER_A, FacadeIdsDiffer)
  {
    forall i, j | 0 <= i < j < |ROUTES| ensures RouteName(ROUTES[i]) != RouteName(ROUTES[j]) {
      assert NameKey(RouteName(ROUTES[i])) != NameKey(RouteName(ROUTES[j]));
    }
    assert NameKey(ENVIRONMENT.name) != NameKey(PRINT_READY.name);
    assert NameKey(ENVIRONMENT_READY.name) != NameKey(OPERATION_READY.name);
  }

  lemma RouteFound(id: Id)
    ensures FindRoute(PRINTER_A, id) == if 1 <= id <= 4 then Some(ROUTES[id - 1]) else None
  {
    assert forall i :: 0 <= i < 4 ==> RouteId(ROUTES[i]) == i + 1;
    var k := IndexWith(ROUTES, RouteId, id);
    if 1 <= id <= 4 {
      assert RouteId(ROUTES[id - 1]) == id;
    }
  }

  lemma DerivedFound(id: Id)
    ensures FindCapability(PRINTER_A, id) == if id == 0 then Some(ENVIRONMENT) else if id == 1 then Some(PRINT_READY) else None
    ensures FindFacade(PRINTER_A, id) == if id == 0 then Some(ENVIRONMENT_READY) else if id == 1 then Some(OPERATION_READY) else None
  {
    var cs, fs := PRINTER_A.capabilities, PRINTER_A.facades;
    assert DerivedId(cs[0]) == 0 && DerivedId(cs[1]) == 1 && DerivedId(fs[0]) == 0 && DerivedId(fs[1]) == 1;
    var k, l := IndexWith(cs, DerivedId, id), IndexWith(fs, DerivedId, id);
  }

  lemma ReferencesKnownHere()
    ensures Meets(PRINTER_A, DataIdsDiffer) && Meets(PRINTER_A, DataRoutesKnown)
  {
    ItemsInOrder();
    forall i | 0 <= i < 11 ensures FindRoute(PRINTER_A, DATA_ITEMS[i].routeId).Some? {
      RouteFound(DATA_ITEMS[i].routeId);
    }
  }

  lemma RequiredKnownHere()
    ensures Meets(PRINTER_A, RequiredDataKnown) && Meets(PRINTER_A, RequiredCapabilitiesKnown)
  {
    forall c, id | c in PRINTER_A.capabilities && id in c.required ensures FindWith(DATA_ITEMS, DataItemId, id).Some? {
      ItemFound(id);
    }
    forall f, id | f in PRINTER_A.facades && id in f.required ensures FindWith(PRINTER_A.capabilities, DerivedId, id).Some? {
      DerivedFound(id);
    }
  }

  lemma DomainsKnownHere()
    ensures Meets(PRINTER_A, DataDomainsKnown)
  {
    forall i | 0 <= i < |DATA_ITEMS| ensures DomainKnown(PRINTER_A, DATA_ITEMS[i]) {
      var domain := DATA_ITEMS[i].domain.definition;
      assert domain in PRINTER_A.domains;
      var k :| 0 <= k < |PRINTER_A.domains| && PRINTER_A.domains[k] == domain;
      assert DomainText(PRINTER_A.domains[k]) == domain.name.text;
    }
  }

  lemma IsValid()
    ensures Valid(PRINTER_A)
  {
    DataNamesDifferHere();
    OtherNamesDifferHere();
    ReferencesKnownHere();
    RequiredKnownHere();
    DomainsKnownHere();
    forall rule ensures Meets(PRINTER_A, rule) {
    }
  }

  lemma IsSeparated()
    ensures Separated(PRINTER_A)
  {
    IsValid();
    forall i, j | 0 <= i < 11 && 0 <= j < 11 && DATA_ITEMS[i].domain != DATA_ITEMS[j].domain
      ensures TextOf(DATA_ITEMS[i].domain) != TextOf(DATA_ITEMS[j].domain)
    {
      assert NameKey(TextOf(DATA_ITEMS[i].domain)) != NameKey(TextOf(DATA_ITEMS[j].domain));
    }
    NamedDomainsAreSeparated(PRINTER_A);
  }
}
