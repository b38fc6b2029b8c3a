/** Two small products that can go stale: a capability with one input on each of two routes, and a
    facade over two capabilities of which each has one input on one route. */
module RaceExample {
  import opened Values
  import opened Queues
  import opened Product
  import opened Storage
  import opened Context
  import opened Partitioning
  import opened Snapshots
  import opened Evaluation
  import opened Derivation
  import opened Pipeline
  import opened Consistency
  import opened Interleaving
  import opened RouteRace
  import opened FacadeRace

  /** Shows the second item, and zero without it. */
  function BuildSecond(s: RIMSnapshot): RIMValue {
    match TryGetInt32(s, 2)
    case Some(i) => Int32Value(i)
    case None => Int32Value(0)
  }

  const SECOND := DerivedDefinition(0, "Second", BuildSecond, IdentityDiff, [1, 2], 1)

  const TWO_ROUTES := ProductDefinition(
    [SHARED_NAME],
    [RouteDefinition(1, "Left", BufferedQueue, BufferedQueue, KeepAll, 0),
     RouteDefinition(2, "Right", BufferedQueue, BufferedQueue, KeepAll, 0)],
    [ItemIn(1, "First", 10), ItemIn(2, "Second", 10).(routeId := 2)],
    [SECOND],
    [])

  const SEVEN := RIMDataItem(1, Int32Value(7))
  const FIVE := RIMDataItem(2, Int32Value(5))

  lemma ItemsFound(id: Id)
    ensures FindDataItem(TWO_ROUTES, id) ==
            if id == 1 then Some(TWO_ROUTES.dataItems[0]) else if id == 2 then Some(TWO_ROUTES.dataItems[1]) else None
  {
    var items := TWO_ROUTES.dataItems;
    assert DataItemId(items[0]) == 1 && DataItemId(items[1]) == 2;
    var k := IndexWith(items, DataItemId, id);
  }

  lemma RoutesFound()
    ensures FindRoute(TWO_ROUTES, 1) == Some(TWO_ROUTES.routes[0]) && FindRoute(TWO_ROUTES, 2) == Some(TWO_ROUTES.routes[1])
  {
    var routes := TWO_ROUTES.routes;
    assert RouteId(routes[0]) == 1 && RouteId(routes[1]) == 2;
    var k, l := IndexWith(routes, RouteId, 1), IndexWith(routes, RouteId, 2);
  }

  lemma IsValid()
    ensures Valid(TWO_ROUTES)
  {
    var p := TWO_ROUTES;
    ItemsFound(1);
    ItemsFound(2);
    RoutesFound();
    assert DomainText(p.domains[0]) == TextOf(p.dataItems[0].domain) == TextOf(p.dataItems[1].domain);
    assert |DataItemName(p.dataItems[0])| != |DataItemName(p.dataItems[1])|;
    assert |RouteName(p.routes[0])| != |RouteName(p.routes[1])|;
    assert AllDefined(p.dataItems, DataItemId, SECOND.required);
    forall rule ensures Meets(p, rule) {
    }
  }

  lemma BothAccepted()
    ensures Accepted(TWO_ROUTES, SEVEN) == Some(SEVEN) && Accepted(TWO_ROUTES, FIVE) == Some(FIVE)
    ensures RouteNameOf(TWO_ROUTES, 1) == Some("Left") && RouteNameOf(TWO_ROUTES, 2) == Some("Right")
  {
    ItemsFound(1);
    ItemsFound(2);
    RoutesFound();
  }

  /** The capability shows whatever is stored of the second item. */
  lemma ShowsSecond(ps: Partitions)
    ensures Derive(TWO_ROUTES, ps, Capability, SECOND) ==
            match Get(TWO_ROUTES, ps, Target(Data, 2)) case Some(Int32Value(i)) => Int32Value(i) case _ => Int32Value(0)
  {
    assert SECOND.required[..2] == SECOND.required && SECOND.required[1] == 2;
    InputSnapshotView(TWO_ROUTES, ps, Data, SECOND.required, 2, 2);
  }

  lemma FiveIsKept(ps: Partitions)
    requires Separated(TWO_ROUTES) && Get(TWO_ROUTES, ps, Target(Data, 2)) == None
    ensures Get(TWO_ROUTES, AfterStore(TWO_ROUTES, ps, FIVE), Target(Data, 2)) == Some(Int32Value(5))
  {
    BothAccepted();
    ItemsFound(2);
    NewItemIsWritten(TWO_ROUTES, ps, FIVE);
    SetKeepsOthers(TWO_ROUTES, ps, Target(Data, 2), Int32Value(5), Target(Data, 2));
  }

  lemma IsRacy()
    requires Separated(TWO_ROUTES)
    ensures Racy(TWO_ROUTES, SECOND, SEVEN, FIVE)
    ensures FirstValue(TWO_ROUTES, SECOND, SEVEN) == Int32Value(0) && BothValue(TWO_ROUTES, SECOND, SEVEN, FIVE) == Int32Value(5)
  {
    BothAccepted();
    var ps := AfterStore(TWO_ROUTES, map[], SEVEN);
    SecondIsNew(TWO_ROUTES, SEVEN, FIVE);
    ShowsSecond(ps);
    FiveIsKept(ps);
    ShowsSecond(AfterStore(TWO_ROUTES, ps, FIVE));
    assert Occurrences(SECOND.required, 1, 1) == 1;
    assert SECOND.required[0] == 1 && SECOND.required[1] == 2;
  }

  /** Counterexample: with 7 sent on the left and 5 on the right, everything comes to rest with the
      capability at 0, although the data say 5. */
  lemma StaysAtZero() returns (moves: seq<Move>)
    ensures Valid(TWO_ROUTES) && Separated(TWO_ROUTES)
    ensures forall route :: LocalOf(Reach(TWO_ROUTES, moves), route) == IDLE
    ensures Get(TWO_ROUTES, Reach(TWO_ROUTES, moves).ps, Target(Capability, 0)) == Some(Int32Value(0))
    ensures Derive(TWO_ROUTES, Reach(TWO_ROUTES, moves).ps, Capability, SECOND) == Int32Value(5)
  {
    IsValid();
    NamedDomainsAreSeparated(TWO_ROUTES);
    ItemsFound(INVALID_DATA_ID);
    IsRacy();
    moves := TwoRoutesGoStale(TWO_ROUTES, SECOND, SEVEN, FIVE);
  }

  // One input, one route, one capability: and a facade over both.

  function BuildLeft(s: RIMSnapshot): RIMValue { Int32Value(1) }

  /** Shows the second capability, and zero without it. */
  function BuildShown(s: RIMSnapshot): RIMValue {
    match TryGetInt32(s, 1)
    case Some(i) => Int32Value(i)
    case None => Int32Value(0)
  }

  const LEFT := DerivedDefinition(0, "Left", BuildLeft, IdentityDiff, [1], 1)
  const RIGHT := DerivedDefinition(1, "RightSide", BuildSecond, IdentityDiff, [2], 2)
  const SHOWN := DerivedDefinition(0, "Shown", BuildShown, IdentityDiff, [0, 1], 1)

  const TWO_SIDES := TWO_ROUTES.(capabilities := [LEFT, RIGHT], facades := [SHOWN])

  lemma SidesFound(id: Id)
    ensures FindDataItem(TWO_SIDES, id) == FindDataItem(TWO_ROUTES, id)
    ensures FindRoute(TWO_SIDES, id) == FindRoute(TWO_ROUTES, id)
    ensures FindCapability(TWO_SIDES, id) == if id == 0 then Some(LEFT) else if id == 1 then Some(RIGHT) else None
  {
    var cs := TWO_SIDES.capabilities;
    assert DerivedId(cs[0]) == 0 && DerivedId(cs[1]) == 1;
    var k := IndexWith(cs, DerivedId, id);
  }

  lemma SidesAreValid()
    ensures Valid(TWO_SIDES)
  {
    var p := TWO_SIDES;
    IsValid();
    ItemsFound(1);
    ItemsFound(2);
    SidesFound(0);
    SidesFound(1);
    SidesFound(2);
    assert |DerivedName(LEFT)| != |DerivedName(RIGHT)|;
    assert AllDefined(p.dataItems, DataItemId, LEFT.required) && AllDefined(p.dataItems, DataItemId, RIGHT.required);
    assert AllDefined(p.capabilities, DerivedId, SHOWN.required);
    forall rule ensures Meets(p, rule) {
      assert Meets(TWO_ROUTES, rule);
      if rule == DataDomainsKnown {
        assert forall item :: DomainKnown(p, item) <==> DomainKnown(TWO_ROUTES, item);
      }
    }
  }

  lemma SidesAreSound()
    ensures Valid(TWO_SIDES) && Separated(TWO_SIDES) && UsesValidIds(TWO_SIDES)
  {
    SidesAreValid();
    NamedDomainsAreSeparated(TWO_SIDES);
    SidesFound(INVALID_DATA_ID);
    ItemsFound(INVALID_DATA_ID);
  }

  lemma SidesAccepted()
    ensures Accepted(TWO_SIDES, SEVEN) == Some(SEVEN) && Accepted(TWO_SIDES, FIVE) == Some(FIVE)
    ensures RouteNameOf(TWO_SIDES, 1) == Some("Left") && RouteNameOf(TWO_SIDES, 2) == Some("Right")
  {
    BothAccepted();
    SidesFound(1);
    SidesFound(2);
  }

  lemma SideOfFirst()
    ensures Dependents(TWO_SIDES.capabilities, 1) == [LEFT] && Dependents(TWO_SIDES.facades, 0) == [SHOWN]
  {
    var cs, fs := TWO_SIDES.capabilities, TWO_SIDES.facades;
    assert DependentsUpTo(cs, 0, 1, 1) == [LEFT] && DependentsUpTo(cs, 1, 0, 1) == [LEFT] && DependentsUpTo(cs, 1, 1, 1) == [LEFT];
    assert DependentsUpTo(fs, 0, 1, 0) == [SHOWN] && DependentsUpTo(fs, 0, 2, 0) == [SHOWN];
  }

  lemma SideOfSecond()
    ensures Dependents(TWO_SIDES.capabilities, 2) == [RIGHT] && Dependents(TWO_SIDES.facades, 1) == [SHOWN]
  {
    var cs, fs := TWO_SIDES.capabilities, TWO_SIDES.facades;
    assert DependentsUpTo(cs, 0, 1, 2) == [] && DependentsUpTo(cs, 1, 0, 2) == [] && DependentsUpTo(cs, 1, 1, 2) == [RIGHT];
    assert DependentsUpTo(fs, 0, 1, 1) == [] && DependentsUpTo(fs, 0, 2, 1) == [SHOWN];
  }

  lemma SidesFeed()
    ensures Feeds(TWO_SIDES, SHOWN, LEFT, RIGHT, SEVEN, FIVE)
  {
    SidesAccepted();
    SideOfFirst();
    SideOfSecond();
    assert LEFT.required != RIGHT.required;
  }

  /** The facade shows whatever is stored of the second capability, and that shows the second item. */
  lemma SidesShow(ps: Partitions)
    ensures Derive(TWO_SIDES, ps, Facade, SHOWN) ==
            match Get(TWO_SIDES, ps, Target(Capability, 1)) case Some(Int32Value(i)) => Int32Value(i) case _ => Int32Value(0)
    ensures Derive(TWO_SIDES, ps, Capability, RIGHT) ==
            match Get(TWO_SIDES, ps, Target(Data, 2)) case Some(Int32Value(i)) => Int32Value(i) case _ => Int32Value(0)
  {
    assert SHOWN.required[..2] == SHOWN.required && SHOWN.required[1] == 1;
    InputSnapshotView(TWO_SIDES, ps, Capability, SHOWN.required, 2, 1);
    assert RIGHT.required[..1] == RIGHT.required && RIGHT.required[0] == 2;
    InputSnapshotView(TWO_SIDES, ps, Data, RIGHT.required, 1, 2);
  }

  /** After the first item the facade has nothing of the second capability to show. */
  lemma FirstSide()
    requires Separated(TWO_SIDES)
    ensures var ps := Fed(TWO_SIDES, map[], LEFT, SEVEN);
            && Accepted(TWO_SIDES, SEVEN).Some?
            && Get(TWO_SIDES, ps, Target(Data, 2)) == None && Get(TWO_SIDES, ps, Target(Capability, 1)) == None
  {
    var p := TWO_SIDES;
    SidesAccepted();
    SidesFound(0);
    var stored := AfterStore(p, map[], SEVEN);
    SecondIsNew(p, SEVEN, FIVE);
    NothingDerivedYet(p, SEVEN, Target(Capability, 1));
    EvaluatedEffect(p, Stage(stored, [], false), Capability, LEFT);
    assert Same(p, stored, Fed(p, map[], LEFT, SEVEN), Target(Data, 2));
    assert Same(p, stored, Fed(p, map[], LEFT, SEVEN), Target(Capability, 1));
  }

  lemma SecondSide(ps: Partitions)
    requires Separated(TWO_SIDES) && Accepted(TWO_SIDES, FIVE).Some?
    requires Get(TWO_SIDES, ps, Target(Data, 2)) == None && Get(TWO_SIDES, ps, Target(Capability, 1)) == None
    ensures Get(TWO_SIDES, Fed(TWO_SIDES, ps, RIGHT, FIVE), Target(Capability, 1)) == Some(Int32Value(5))
  {
    var p := TWO_SIDES;
    SidesAccepted();
    SidesFound(1);
    SidesFound(2);
    ItemsFound(2);
    NewItemIsWritten(p, ps, FIVE);
    var stored := AfterStore(p, ps, FIVE);
    SetKeepsOthers(p, ps, Target(Data, 2), Int32Value(5), Target(Data, 2));
    SetKeepsOthers(p, ps, Target(Data, 2), Int32Value(5), Target(Capability, 1));
    SidesShow(stored);
    YieldingTakesValue(p, Stage(stored, [], false), RIGHT);
  }

  lemma SidesDiffer()
    requires Separated(TWO_SIDES)
    ensures Accepted(TWO_SIDES, SEVEN).Some? && Accepted(TWO_SIDES, FIVE).Some?
    ensures FirstFacade(TWO_SIDES, SHOWN, LEFT, SEVEN) == Int32Value(0)
    ensures BothFacade(TWO_SIDES, SHOWN, LEFT, RIGHT, SEVEN, FIVE) == Int32Value(5)
  {
    SidesAccepted();
    FirstSide();
    var ps := Fed(TWO_SIDES, map[], LEFT, SEVEN);
    SecondSide(ps);
    SidesShow(ps);
    SidesShow(Fed(TWO_SIDES, ps, RIGHT, FIVE));
  }

  /** Counterexample: with 7 sent on the left and 5 on the right, everything comes to rest with the
      facade at 0, although its second capability says 5. */
  lemma FacadeStaysAtZero() returns (moves: seq<Move>)
    ensures Valid(TWO_SIDES) && Separated(TWO_SIDES)
    ensures forall route :: LocalOf(Reach(TWO_SIDES, moves), route) == IDLE
    ensures Get(TWO_SIDES, Reach(TWO_SIDES, moves).ps, Target(Facade, 0)) == Some(Int32Value(0))
    ensures Derive(TWO_SIDES, Reach(TWO_SIDES, moves).ps, Facade, SHOWN) == Int32Value(5)
  {
    SidesAreSound();
    SidesFeed();
    SidesDiffer();
    moves := FacadeGoesStale(TWO_SIDES, SHOWN, LEFT, RIGHT, SEVEN, FIVE);
  }
}
