/** What PrinterA says of the readings as they were dispatched: temperatures in degrees Celsius, humidity
    in percent, doors open or closed. */
module PrinterAReadings {
  import opened Values
  import opened Product
  import opened Storage
  import opened Partitioning
  import opened Evaluation
  import opened Pipeline
  import opened Consistency
  import opened Convergence
  import opened Interleaving
  import opened FineConvergence
  import opened Schedules
  import opened Settling
  import opened Derivation
  import opened Announcements
  import opened Execution
  import opened Unrouted
  import opened Served
  import opened Queues
  import opened PrinterA
  import opened PrinterAReadiness

  /** The type in which each item is dispatched. */
  function RawType(d: Id): Option<ValueType> {
    match d
    case 1 => Some(DoubleType)
    case 2 => Some(DoubleType)
    case 3 => Some(DoubleType)
    case 4 => Some(BoolType)
    case 5 => Some(BoolType)
    case 6 => Some(BoolType)
    case 7 => Some(UInt32Type)
    case 8 => Some(Int32Type)
    case 9 => Some(BoolType)
    case 10 => Some(Int32Type)
    case 11 => Some(BinaryType)
    case _ => None
  }

  predicate IsReading(item: RIMDataItem, d: Id) {
    item.id == d && RawType(d) == Some(item.value.Type())
  }

  /** What is stored of a reading: sensor A reports degrees Celsius and is stored in kelvins, everything
      else is stored as it was read. */
  function AsStored(d: Id, v: RIMValue): RIMValue {
    if d == 1 && v.DoubleValue? then DoubleValue(v.d + 273.15) else v
  }

  lemma ReadingIsAccepted(item: RIMDataItem)
    ensures Accepted(PRINTER_A, item) ==
            if IsReading(item, item.id) then Some(RIMDataItem(item.id, AsStored(item.id, item.value))) else None
  {
    IsValid();
    ItemFound(item.id);
    if 1 <= item.id <= 11 {
      assert DATA_ITEMS[item.id - 1] in PRINTER_A.dataItems;
      QueuesNormalized(PRINTER_A, item, DATA_ITEMS[item.id - 1]);
    }
  }

  lemma ReadingIsKept(d: Id, v: RIMValue)
    requires RawType(d) == Some(v.Type())
    ensures Kept(PRINTER_A, d, AsStored(d, v)) == AsStored(d, v)
  {
    ItemFound(d);
  }

  /** The last reading of `d` that was dispatched, as it was dispatched. */
  function LastReading(items: seq<RIMDataItem>, d: Id): Option<RIMValue> {
    if items == [] then None
    else if IsReading(items[|items| - 1], d) then Some(items[|items| - 1].value)
    else LastReading(items[..|items| - 1], d)
  }

  function StoredReading(items: seq<RIMDataItem>, d: Id): Option<RIMValue> {
    match LastReading(items, d)
    case None => None
    case Some(v) => Some(AsStored(d, v))
  }

  lemma {:induction false} ReadingHasItsType(items: seq<RIMDataItem>, d: Id)
    ensures LastReading(items, d).Some? ==> RawType(d) == Some(LastReading(items, d).value.Type())
  {
    if items != [] {
      ReadingHasItsType(items[..|items| - 1], d);
    }
  }

  lemma ReadingNext(items: seq<RIMDataItem>, item: RIMDataItem, d: Id)
    ensures LastReading(items + [item], d) == if IsReading(item, d) then Some(item.value) else LastReading(items, d)
  {
    assert (items + [item])[..|items|] == items;
  }

  lemma {:induction false} TurnsTakeReadings(ops: seq<Op>, d: Id)
    ensures LastAccepted(PRINTER_A, ops, d) == StoredReading(Dispatches(ops), d)
  {
    if ops != [] {
      var before, op := ops[..|ops| - 1], ops[|ops| - 1];
      TurnsTakeReadings(before, d);
      if op.Dispatch? {
        ReadingNext(Dispatches(before), op.item, d);
        ReadingIsAccepted(op.item);
        if IsReading(op.item, d) {
          ReadingIsKept(d, op.item.value);
        }
      }
    }
  }

  lemma {:induction false} StepsTakeReadings(moves: seq<Move>, d: Id)
    ensures LastArrived(PRINTER_A, moves, d) == StoredReading(Arrivals(moves), d)
  {
    if moves != [] {
      var before, move := moves[..|moves| - 1], moves[|moves| - 1];
      StepsTakeReadings(before, d);
      if move.Arrive? {
        ReadingNext(Arrivals(before), move.item, d);
        ReadingIsAccepted(move.item);
        if IsReading(move.item, d) {
          ReadingIsKept(d, move.item.value);
        }
      }
    }
  }

  // What the readings say.

  predicate AtLeast(reading: Option<RIMValue>, bound: real) {
    match reading
    case Some(DoubleValue(d)) => d >= bound
    case _ => false
  }

  predicate SaysOpen(reading: Option<RIMValue>) {
    reading == Some(BoolValue(true))
  }

  predicate HotAndDamp(items: seq<RIMDataItem>) {
    AtLeast(LastReading(items, 1), 60.0) && AtLeast(LastReading(items, 3), 60.0)
  }

  predicate WarmAndMoistRead(items: seq<RIMDataItem>) {
    AtLeast(LastReading(items, 1), 25.0) && AtLeast(LastReading(items, 3), 25.0)
  }

  predicate ClimateRead(items: seq<RIMDataItem>) {
    LastReading(items, 1).Some? || LastReading(items, 2).Some? || LastReading(items, 3).Some?
  }

  predicate DoorsRead(items: seq<RIMDataItem>) {
    LastReading(items, 4).Some? || LastReading(items, 5).Some? || LastReading(items, 6).Some?
  }

  predicate DoorOpen(items: seq<RIMDataItem>) {
    SaysOpen(LastReading(items, 4)) || SaysOpen(LastReading(items, 5)) || SaysOpen(LastReading(items, 6))
  }

  /** The predicates on stored values, told from the readings. */
  lemma StoredTellsReadings(items: seq<RIMDataItem>, last: Id -> Option<RIMValue>)
    requires forall d :: last(d) == StoredReading(items, d)
    ensures EnvironmentKnown(last) <==> ClimateRead(items)
    ensures DoorsKnown(last) <==> DoorsRead(items)
    ensures TooHotAndDamp(last) <==> HotAndDamp(items)
    ensures WarmAndMoist(last) <==> WarmAndMoistRead(items)
    ensures AnyDoorOpen(last) <==> DoorOpen(items)
  {
    forall d ensures LastReading(items, d).Some? ==> RawType(d) == Some(LastReading(items, d).value.Type()) {
      ReadingHasItsType(items, d);
    }
    assert forall d :: last(d) == StoredReading(items, d);
  }

  function Held(ps: Partitions, kind: TargetType, id: Id): Option<RIMValue> {
    Get(PRINTER_A, ps, Target(kind, id))
  }

  /** A store of PrinterA's that has settled on the readings that were dispatched. */
  ghost predicate SettlesOn(ps: Partitions, items: seq<RIMDataItem>) {
    && HoldsBatch(PRINTER_A, ps)
    && forall d :: Held(ps, Data, d) == StoredReading(items, d)
  }

  lemma SettledStore(ps: Partitions, items: seq<RIMDataItem>) returns (last: Id -> Option<RIMValue>)
    requires SettlesOn(ps, items)
    ensures Settles(ps, last) && forall d :: last(d) == StoredReading(items, d)
  {
    last := (d: Id) => StoredReading(items, d);
  }

  /** What PrinterA's two capabilities and two facades say of the readings. */
  ghost predicate Says(ps: Partitions, items: seq<RIMDataItem>) {
    && Held(ps, Capability, 0) ==
         (if ClimateRead(items) then Some(Int32Value(if HotAndDamp(items) then 2 else if WarmAndMoistRead(items) then 1 else 0))
          else None)
    && Held(ps, Capability, 1) == (if DoorsRead(items) then Some(BoolValue(!DoorOpen(items))) else None)
    && Held(ps, Facade, 0) == (if ClimateRead(items) then Some(BoolValue(!HotAndDamp(items))) else None)
    && Held(ps, Facade, 1) ==
         (if ClimateRead(items) || DoorsRead(items)
          then Some(BoolValue(!HotAndDamp(items) && DoorsRead(items) && !DoorOpen(items)))
          else None)
  }

  lemma SettledSays(ps: Partitions, items: seq<RIMDataItem>)
    requires SettlesOn(ps, items)
    ensures Says(ps, items)
  {
    var last := SettledStore(ps, items);
    StoredTellsReadings(items, last);
    EnvironmentMeans(ps, last);
    PrintReadyMeans(ps, last);
    EnvironmentReadyMeans(ps, last);
    OperationReadyMeans(ps, last);
  }

  /** Main result: at rest after any interleaving of single steps, PrinterA's store holds the last reading
      of every item, sensor A's in kelvins, and its capabilities and facades say of the readings, as they
      were dispatched, what they should: hot means 60 degrees Celsius, damp 60 percent. */
  lemma SaysAfterSteps(moves: seq<Move>)
    requires AtRest(Reach(PRINTER_A, moves))
    ensures forall d :: Held(Reach(PRINTER_A, moves).ps, Data, d) == StoredReading(Arrivals(moves), d)
    ensures Says(Reach(PRINTER_A, moves).ps, Arrivals(moves))
  {
    StepsSettle(moves);
    var ps := Reach(PRINTER_A, moves).ps;
    forall d ensures Held(ps, Data, d) == StoredReading(Arrivals(moves), d) {
      StepsTakeReadings(moves, d);
      assert Held(ps, Data, d) == LastSent(moves)(d);
    }
    SettledSays(ps, Arrivals(moves));
  }

  /** The same after any schedule of whole turns. */
  lemma SaysAfterTurns(ops: seq<Op>)
    requires Drained(Run(PRINTER_A, INITIAL, ops)) && Quiet(Run(PRINTER_A, INITIAL, ops))
    ensures forall d :: Held(Run(PRINTER_A, INITIAL, ops).ps, Data, d) == StoredReading(Dispatches(ops), d)
    ensures Says(Run(PRINTER_A, INITIAL, ops).ps, Dispatches(ops))
  {
    TurnsSettle(ops);
    var ps := Run(PRINTER_A, INITIAL, ops).ps;
    forall d ensures Held(ps, Data, d) == StoredReading(Dispatches(ops), d) {
      TurnsTakeReadings(ops, d);
      assert Held(ps, Data, d) == LastDispatched(ops)(d);
    }
    SettledSays(ps, Dispatches(ops));
  }

  // What PrinterA does not announce.

  lemma TellsExactlyHere()
    ensures AllTellExactly(PRINTER_A)
  {
    IdentityDiffIsExact();
    forall x | x in PRINTER_A.capabilities || x in PRINTER_A.facades ensures TellsExactly(x) {
      forall s ensures !x.diff(x.build(s), x.build(s)) {
        IdentityDiffExactly(x.build(s), x.build(s));
      }
    }
  }

  lemma OneCapabilityEach(d: Id, f: DerivedDefinition)
    requires f in PRINTER_A.facades
    ensures OneFeeds(PRINTER_A, d, f, if d <= 3 then ENVIRONMENT else PRINT_READY)
  {
    forall b | b in PRINTER_A.capabilities && d in b.required && b.id in f.required
      ensures b == if d <= 3 then ENVIRONMENT else PRINT_READY
    {
      assert b == ENVIRONMENT || b == PRINT_READY;
    }
  }

  /** Main result: on PrinterA, from an emptied publisher queue, a turn announces the item that it was told
      about and exactly the capabilities and facades whose stored value it changed. */
  lemma TurnAnnouncesChanges(s: Stage, d: Id, u: Target)
    requires !s.shut && s.published == [] && d != INVALID_DATA_ID
    ensures Announced(Processed(PRINTER_A, s, d), u) <==>
            u == Target(Data, d) || (u.kind != Data && !Same(PRINTER_A, s.ps, Processed(PRINTER_A, s, d).ps, u))
  {
    IsValid();
    IsSeparated();
    TellsExactlyHere();
    match u.kind
    case Data => TurnAnnouncesOneItem(PRINTER_A, s, d, u.id);
    case Capability => TurnAnnouncesChangedCapabilities(PRINTER_A, s, d, u.id);
    case Facade => FacadeAnnouncedExactly(s, d, u.id);
  }

  lemma FacadeAnnouncedExactly(s: Stage, d: Id, u: Id)
    requires Valid(PRINTER_A) && Separated(PRINTER_A) && AllTellExactly(PRINTER_A)
    requires !s.shut && s.published == [] && d != INVALID_DATA_ID
    ensures var s' := Processed(PRINTER_A, s, d);
            Announced(s', Target(Facade, u)) <==> !Same(PRINTER_A, s.ps, s'.ps, Target(Facade, u))
  {
    match FindFacade(PRINTER_A, u)
    case None =>
      UndefinedIsAbsent(PRINTER_A, s.ps, Target(Facade, u));
      UndefinedIsAbsent(PRINTER_A, Processed(PRINTER_A, s, d).ps, Target(Facade, u));
      TurnAnnouncesDefinedFacades(PRINTER_A, s, d, u);
      forall f | f in PRINTER_A.facades ensures f.id != u {
        DefinedByMembership(PRINTER_A, Facade, f);
      }
    case Some(f) =>
      OneCapabilityEach(d, f);
      TurnAnnouncesChangedFacade(PRINTER_A, s, d, f, if d <= 3 then ENVIRONMENT else PRINT_READY);
  }

  // Who is served by what.

  /** Every facade of PrinterA can be notified, and keeps its oldest announcement. */
  lemma FacadesAreServed(f: DerivedDefinition)
    requires f in PRINTER_A.facades
    ensures EverPasses(PRINTER_A, Target(Facade, f.id)) && InputFor(PRINTER_A, Target(Facade, f.id)).compression == KeepOldest
  {
    IsValid();
    assert Names(PRINTER_A, Target(Facade, f.id), ROUTE_FACADE);
    assert ROUTES[3] in PRINTER_A.routes && ROUTES[3].id == ROUTE_FACADE;
    NotifiedExactly(PRINTER_A, Target(Facade, f.id));
    assert FirstRoute(PRINTER_A, ROUTE_FACADE, ROUTES[3]);
    CompressedAsServed(PRINTER_A, Target(Facade, f.id), ROUTE_FACADE, ROUTES[3]);
  }
}
