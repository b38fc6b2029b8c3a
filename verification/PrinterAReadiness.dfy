/** The general results at work on PrinterA: what its facades say about what was dispatched, whether
    the workers take whole turns or single steps. */
module PrinterAReadiness {
  import opened Values
  import opened Product
  import opened Storage
  import opened Partitioning
  import opened Snapshots
  import opened Derivation
  import opened Pipeline
  import opened Workers
  import opened Consistency
  import opened Convergence
  import opened Interleaving
  import opened OneRoute
  import opened OneRouteWork
  import opened FineConvergence
  import opened PrinterA

  lemma MeetsAssumptions()
    ensures Valid(PRINTER_A) && Separated(PRINTER_A) && UsesValidIds(PRINTER_A)
    ensures Sound(PRINTER_A) && ExactDiffs(PRINTER_A) && StoresWhatItGets(PRINTER_A)
  {
    IsValid();
    IsSeparated();
    ItemFound(INVALID_DATA_ID);
    CapabilityBuildersAreFramed();
    IdentityDiffIsExact();
    forall c ensures FramedIn(PRINTER_A, c) {
    }
    forall item | item in DATA_ITEMS ensures PlainItem(item) {
      assert item.store == IdentityStore && item.diff == Some(IdentityDiff);
    }
  }

  /** The route whose worker looks after a value. */
  function Home(t: Target): string {
    if t.kind != Data || t.id <= LEFT_DOOR_OPEN then "ValueRoute"
    else if t.id <= JOB_ID then "DataRoute"
    else "ErrorRoute"
  }

  /** All data under a capability or a facade of PrinterA belong to one route. */
  lemma IsOnOneRoute()
    ensures OnOneRoute(PRINTER_A, Home)
  {
    forall d ensures DataAtHome(PRINTER_A, Home, d) {
      ItemFound(d);
      if 1 <= d <= 11 {
        RouteFound(DATA_ITEMS[d - 1].routeId);
      }
    }
    forall kind, x ensures DerivedAtHome(PRINTER_A, Home, kind, x) {
    }
  }

  // What the facades mean.

  function AsReal(v: Option<RIMValue>): real {
    match v
    case Some(DoubleValue(d)) => d
    case _ => 0.0
  }

  function AsBool(v: Option<RIMValue>): bool {
    match v
    case Some(BoolValue(b)) => b
    case _ => false
  }

  // `last` gives each data item its last accepted reading, after normalisation.

  predicate EnvironmentKnown(last: Id -> Option<RIMValue>) {
    last(TEMPERATURE_SENSOR_A).Some? || last(TEMPERATURE_SENSOR_B).Some? || last(HUMIDITY_SENSOR).Some?
  }

  predicate DoorsKnown(last: Id -> Option<RIMValue>) {
    last(UPPER_DOOR_OPEN).Some? || last(RIGHT_DOOR_OPEN).Some? || last(LEFT_DOOR_OPEN).Some?
  }

  predicate TooHotAndDamp(last: Id -> Option<RIMValue>) {
    AsReal(last(TEMPERATURE_SENSOR_A)) >= 333.15 && AsReal(last(HUMIDITY_SENSOR)) >= 60.0
  }

  predicate WarmAndMoist(last: Id -> Option<RIMValue>) {
    AsReal(last(TEMPERATURE_SENSOR_A)) >= 298.15 && AsReal(last(HUMIDITY_SENSOR)) >= 25.0
  }

  predicate AnyDoorOpen(last: Id -> Option<RIMValue>) {
    AsBool(last(UPPER_DOOR_OPEN)) || AsBool(last(RIGHT_DOOR_OPEN)) || AsBool(last(LEFT_DOOR_OPEN))
  }

  function AsInt32(v: Option<RIMValue>): Int32 {
    match v
    case Some(Int32Value(i)) => i
    case _ => 0
  }

  // The builders on a snapshot, by what is found in it.

  lemma PrintReadyBuilt(s: RIMSnapshot)
    ensures BuildPrintReadyCapability(s) ==
            BoolValue(!AsBool(FindIn(s, UPPER_DOOR_OPEN)) && !AsBool(FindIn(s, RIGHT_DOOR_OPEN)) && !AsBool(FindIn(s, LEFT_DOOR_OPEN)))
  {
  }

  lemma OperationReadyBuilt(s: RIMSnapshot)
    ensures BuildOperationReadyFacade(s) ==
            BoolValue(AsInt32(FindIn(s, CAPABILITY_ENVIRONMENT)) != 2 && AsBool(FindIn(s, CAPABILITY_PRINT_READY)))
  {
  }

  // A store that has settled on the last readings.

  ghost predicate Settles(ps: Partitions, last: Id -> Option<RIMValue>) {
    HoldsBatch(PRINTER_A, ps) && forall d :: Stored(ps, Data, d) == last(d)
  }

  function Stored(ps: Partitions, kind: TargetType, id: Id): Option<RIMValue> {
    Get(PRINTER_A, ps, Target(kind, id))
  }

  /** The snapshot from which a derived value is built. */
  function Inputs(ps: Partitions, kind: TargetType, x: DerivedDefinition): RIMSnapshot {
    InputSnapshot(PRINTER_A, ps, InputKind(kind), x.required, |x.required|)
  }

  lemma InputSeen(ps: Partitions, kind: TargetType, x: DerivedDefinition, id: Id)
    requires id in x.required
    ensures FindIn(Inputs(ps, kind, x), id) == Stored(ps, InputKind(kind), id)
  {
    assert x.required[..|x.required|] == x.required;
    InputSnapshotView(PRINTER_A, ps, InputKind(kind), x.required, |x.required|, id);
  }

  lemma CapabilityFromData(ps: Partitions, c: DerivedDefinition)
    requires HoldsBatch(PRINTER_A, ps) && c in PRINTER_A.capabilities
    ensures Stored(ps, Capability, c.id) ==
            if HasInput(PRINTER_A, ps, Capability, c) then Some(c.build(Inputs(ps, Capability, c))) else None
  {
    assert CapabilityIsBatch(PRINTER_A, ps, c);
  }

  lemma FacadeFromCapabilities(ps: Partitions, f: DerivedDefinition)
    requires HoldsBatch(PRINTER_A, ps) && f in PRINTER_A.facades
    ensures Stored(ps, Facade, f.id) ==
            if exists i :: 0 <= i < |f.required| && Stored(ps, Capability, f.required[i]).Some?
            then Some(f.build(Inputs(ps, Facade, f)))
            else None
  {
    assert FacadeIsBatch(PRINTER_A, ps, f);
    InputsAreBatchInputs(PRINTER_A, ps, f.required, |f.required|);
    NoInputsNoSnapshot(PRINTER_A, ps, Capability, f.required, |f.required|);
  }

  lemma EnvironmentMeans(ps: Partitions, last: Id -> Option<RIMValue>)
    requires Settles(ps, last)
    ensures Stored(ps, Capability, CAPABILITY_ENVIRONMENT) ==
            if EnvironmentKnown(last)
            then Some(Int32Value(if TooHotAndDamp(last) then 2 else if WarmAndMoist(last) then 1 else 0))
            else None
  {
    CapabilityFromData(ps, ENVIRONMENT);
    InputSeen(ps, Capability, ENVIRONMENT, TEMPERATURE_SENSOR_A);
    InputSeen(ps, Capability, ENVIRONMENT, HUMIDITY_SENSOR);
    HasEnvironmentInput(ps, last);
  }

  lemma HasEnvironmentInput(ps: Partitions, last: Id -> Option<RIMValue>)
    requires Settles(ps, last)
    ensures HasInput(PRINTER_A, ps, Capability, ENVIRONMENT) <==> EnvironmentKnown(last)
  {
    assert forall d :: Get(PRINTER_A, ps, Target(Data, d)) == Stored(ps, Data, d);
    assert TEMPERATURE_SENSOR_A in ENVIRONMENT.required && TEMPERATURE_SENSOR_B in ENVIRONMENT.required;
    assert HUMIDITY_SENSOR in ENVIRONMENT.required;
  }

  lemma PrintReadyMeans(ps: Partitions, last: Id -> Option<RIMValue>)
    requires Settles(ps, last)
    ensures Stored(ps, Capability, CAPABILITY_PRINT_READY) ==
            if DoorsKnown(last) then Some(BoolValue(!AnyDoorOpen(last))) else None
  {
    CapabilityFromData(ps, PRINT_READY);
    PrintReadyBuilt(Inputs(ps, Capability, PRINT_READY));
    InputSeen(ps, Capability, PRINT_READY, UPPER_DOOR_OPEN);
    InputSeen(ps, Capability, PRINT_READY, RIGHT_DOOR_OPEN);
    InputSeen(ps, Capability, PRINT_READY, LEFT_DOOR_OPEN);
    HasDoorInput(ps, last);
  }

  lemma HasDoorInput(ps: Partitions, last: Id -> Option<RIMValue>)
    requires Settles(ps, last)
    ensures HasInput(PRINTER_A, ps, Capability, PRINT_READY) <==> DoorsKnown(last)
  {
    assert forall d :: Get(PRINTER_A, ps, Target(Data, d)) == Stored(ps, Data, d);
    assert UPPER_DOOR_OPEN in PRINT_READY.required && RIGHT_DOOR_OPEN in PRINT_READY.required;
    assert LEFT_DOOR_OPEN in PRINT_READY.required;
  }

  /** What the OperationReady facade should say of the last readings. */
  function OperationReady(last: Id -> Option<RIMValue>): Option<RIMValue> {
    if EnvironmentKnown(last) || DoorsKnown(last)
    then Some(BoolValue(!TooHotAndDamp(last) && DoorsKnown(last) && !AnyDoorOpen(last)))
    else None
  }

  lemma OperationReadyMeans(ps: Partitions, last: Id -> Option<RIMValue>)
    requires Settles(ps, last)
    ensures Stored(ps, Facade, FACADE_OPERATION_READY) == OperationReady(last)
  {
    EnvironmentMeans(ps, last);
    PrintReadyMeans(ps, last);
    FacadeFromCapabilities(ps, OPERATION_READY);
    OperationReadyBuilt(Inputs(ps, Facade, OPERATION_READY));
    assert OPERATION_READY.required[0] == CAPABILITY_ENVIRONMENT && OPERATION_READY.required[1] == CAPABILITY_PRINT_READY;
    InputSeen(ps, Facade, OPERATION_READY, CAPABILITY_ENVIRONMENT);
    InputSeen(ps, Facade, OPERATION_READY, CAPABILITY_PRINT_READY);
  }

  lemma EnvironmentReadyMeans(ps: Partitions, last: Id -> Option<RIMValue>)
    requires Settles(ps, last)
    ensures Stored(ps, Facade, FACADE_ENVIRONMENT_READY) ==
            if EnvironmentKnown(last) then Some(BoolValue(!TooHotAndDamp(last))) else None
  {
    EnvironmentMeans(ps, last);
    FacadeFromCapabilities(ps, ENVIRONMENT_READY);
    assert ENVIRONMENT_READY.required[0] == CAPABILITY_ENVIRONMENT;
    InputSeen(ps, Facade, ENVIRONMENT_READY, CAPABILITY_ENVIRONMENT);
  }

  // Runs that settle.

  function LastDispatched(ops: seq<Op>): Id -> Option<RIMValue> {
    (d: Id) => LastAccepted(PRINTER_A, ops, d)
  }

  function LastSent(moves: seq<Move>): Id -> Option<RIMValue> {
    (d: Id) => LastArrived(PRINTER_A, moves, d)
  }

  lemma TurnsSettle(ops: seq<Op>)
    requires Drained(Run(PRINTER_A, INITIAL, ops)) && Quiet(Run(PRINTER_A, INITIAL, ops))
    ensures Settles(Run(PRINTER_A, INITIAL, ops).ps, LastDispatched(ops))
  {
    MeetsAssumptions();
    QuietHoldsBatch(PRINTER_A, ops);
    forall d ensures Stored(Run(PRINTER_A, INITIAL, ops).ps, Data, d) == LastDispatched(ops)(d) {
      DrainedHoldsLastAccepted(PRINTER_A, ops, d);
    }
  }

  lemma StepsSettle(moves: seq<Move>)
    requires AtRest(Reach(PRINTER_A, moves))
    ensures Settles(Reach(PRINTER_A, moves).ps, LastSent(moves))
  {
    MeetsAssumptions();
    IsOnOneRoute();
    CalmHoldsBatch(PRINTER_A, Home, moves);
    forall d ensures Stored(Reach(PRINTER_A, moves).ps, Data, d) == LastSent(moves)(d) {
      StoredHoldsLastArrived(PRINTER_A, moves, d);
    }
  }

  /** Main result: whenever everything has come to rest, after any dispatches and any interleaving of
      the workers' single steps, the OperationReady facade says exactly whether the last accepted
      readings are not both hot and damp, some door has reported, and no door is open. */
  lemma OperationReadyAfterSteps(moves: seq<Move>)
    requires AtRest(Reach(PRINTER_A, moves))
    ensures Stored(Reach(PRINTER_A, moves).ps, Facade, FACADE_OPERATION_READY) == OperationReady(LastSent(moves))
  {
    StepsSettle(moves);
    OperationReadyMeans(Reach(PRINTER_A, moves).ps, LastSent(moves));
  }

  /** The same of the workers' whole turns. */
  lemma OperationReadyAfterTurns(ops: seq<Op>)
    requires Drained(Run(PRINTER_A, INITIAL, ops)) && Quiet(Run(PRINTER_A, INITIAL, ops))
    ensures Stored(Run(PRINTER_A, INITIAL, ops).ps, Facade, FACADE_OPERATION_READY) == OperationReady(LastDispatched(ops))
  {
    TurnsSettle(ops);
    OperationReadyMeans(Run(PRINTER_A, INITIAL, ops).ps, LastDispatched(ops));
  }

  /** The finest interleaving of PrinterA's workers cannot leave a stale value behind, even while items
      still wait to be stored. */
  lemma CalmPrinterHoldsBatch(moves: seq<Move>)
    requires Calm(Reach(PRINTER_A, moves))
    ensures HoldsBatch(PRINTER_A, Reach(PRINTER_A, moves).ps)
  {
    MeetsAssumptions();
    IsOnOneRoute();
    CalmHoldsBatch(PRINTER_A, Home, moves);
  }
}
