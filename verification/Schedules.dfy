/** Every schedule of whole turns is one interleaving of single steps: the coarse machine is the fine
    one with its workers taking turns. */
module Schedules {
  import opened Values
  import opened Queues
  import opened Product
  import opened Storage
  import opened Partitioning
  import opened SnapshotAgreement
  import opened Evaluation
  import opened Pipeline
  import opened Consistency
  import opened Interleaving
  import opened FinePublication
  import opened Grain

  // Going on from where some moves lead.

  /** The items that arrive in the course of some moves. */
  function Arrivals(moves: seq<Move>): seq<RIMDataItem> {
    if moves == [] then []
    else
      var before := Arrivals(moves[..|moves| - 1]);
      match moves[|moves| - 1]
      case Arrive(item) => before + [item]
      case _ => before
  }

  lemma Continue(p: ProductDefinition, moves: seq<Move>, move: Move) returns (longer: seq<Move>)
    ensures Reach(p, longer) == Moved(p, Reach(p, moves), move)
    ensures Arrivals(longer) == if move.Arrive? then Arrivals(moves) + [move.item] else Arrivals(moves)
  {
    longer := moves + [move];
    assert longer[..|longer| - 1] == moves;
  }

  function WithSolo(w: World, route: string, s: Solo): World {
    World(s.ps, w.locals[route := LocalOf(w, route).(workPc := s.pc)], s.published)
  }

  lemma AloneOneMore(p: ProductDefinition, w: World, route: string, m: Solo)
    requires route in w.locals && (m.pc != Resting || LocalOf(w, route).capabilityQueue == [])
    ensures Moved(p, WithSolo(w, route, m), WorkMove(route)) == WithSolo(w, route, SoloStep(p, m))
  {
    var l, w' := LocalOf(w, route), WithSolo(w, route, m);
    assert LocalOf(w', route) == l.(workPc := m.pc);
    MoveIsSoloStep(p, w', route);
    var l' := l.(workPc := SoloStep(p, m).pc);
    assert w'.locals[route := l'] == w.locals[route := l'];
  }

  lemma AloneNothing(p: ProductDefinition, w: World, route: string)
    requires route in w.locals
    ensures var s := Solo(w.ps, w.published, LocalOf(w, route).workPc); WithSolo(w, route, SoloRun(p, s, 0)) == w
  {
    assert w.locals[route := LocalOf(w, route)] == w.locals;
  }

  /** The worker does not rest before its n-th step from `s`. */
  ghost predicate Busy(p: ProductDefinition, s: Solo, n: nat) {
    forall k: nat :: k < n ==> BusyAt(p, s, k)
  }

  ghost predicate BusyAt(p: ProductDefinition, s: Solo, k: nat) {
    SoloRun(p, s, k).pc != Resting
  }

  /** In the world a worker does what it does alone, as long as it does not take a new item. */
  lemma {:induction false} ContinueAlone(p: ProductDefinition, moves: seq<Move>, route: string, s: Solo, n: nat)
    returns (longer: seq<Move>)
    requires var w := Reach(p, moves);
             && route in w.locals && (LocalOf(w, route).capabilityQueue == [] || Busy(p, s, n))
             && s == Solo(w.ps, w.published, LocalOf(w, route).workPc)
    ensures Reach(p, longer) == WithSolo(Reach(p, moves), route, SoloRun(p, s, n))
    ensures Arrivals(longer) == Arrivals(moves)
  {
    var w := Reach(p, moves);
    if n == 0 {
      longer := moves;
      AloneNothing(p, w, route);
    } else {
      var k := n - 1;
      assert Busy(p, s, n) ==> BusyAt(p, s, k) && Busy(p, s, k);
      var before := ContinueAlone(p, moves, route, s, k);
      longer := Continue(p, before, WorkMove(route));
      AloneOneMore(p, w, route, SoloRun(p, s, k));
      SoloRunStep(p, s, k);
    }
  }

  lemma SoloRunStep(p: ProductDefinition, s: Solo, n: nat)
    ensures SoloRun(p, s, n + 1) == SoloStep(p, SoloRun(p, s, n))
  {
  }

  lemma ContinueTo(p: ProductDefinition, moves: seq<Move>, route: string, s': Solo) returns (longer: seq<Move>)
    requires var w := Reach(p, moves);
             && route in w.locals && LocalOf(w, route).capabilityQueue == []
             && Leads(p, Solo(w.ps, w.published, LocalOf(w, route).workPc), s')
    ensures Reach(p, longer) == WithSolo(Reach(p, moves), route, s')
  {
    var w := Reach(p, moves);
    var s := Solo(w.ps, w.published, LocalOf(w, route).workPc);
    var n: nat :| SoloRun(p, s, n) == s';
    longer := ContinueAlone(p, moves, route, s, n);
  }

  lemma {:induction false} ContinueStore(p: ProductDefinition, moves: seq<Move>, route: string, n: nat) returns (longer: seq<Move>)
    ensures Reach(p, longer) == StoreMoves(p, Reach(p, moves), route, n) && Arrivals(longer) == Arrivals(moves)
  {
    if n == 0 {
      longer := moves;
    } else {
      longer := ContinueStore(p, moves, route, n - 1);
      longer := Continue(p, longer, StoreMove(route));
    }
  }

  // The first time a worker rests.

  lemma {:induction false} RestLasts(p: ProductDefinition, s: Solo, m: nat, n: nat)
    requires m <= n && SoloRun(p, s, m).pc == Resting
    ensures SoloRun(p, s, n) == SoloRun(p, s, m)
    decreases n
  {
    if m < n {
      RestLasts(p, s, m, n - 1);
      SoloRunStep(p, s, n - 1);
    }
  }

  lemma FirstRest(p: ProductDefinition, s: Solo, s': Solo) returns (m: nat)
    requires Leads(p, s, s') && s'.pc == Resting
    ensures SoloRun(p, s, m) == s' && Busy(p, s, m)
  {
    var n: nat :| SoloRun(p, s, n) == s';
    m := FirstRestBy(p, s, n);
  }

  lemma {:induction false} FirstRestBy(p: ProductDefinition, s: Solo, n: nat) returns (m: nat)
    requires SoloRun(p, s, n).pc == Resting
    ensures SoloRun(p, s, m) == SoloRun(p, s, n) && Busy(p, s, m)
  {
    if n != 0 && SoloRun(p, s, n - 1).pc == Resting {
      m := FirstRestBy(p, s, n - 1);
      RestLasts(p, s, n - 1, n);
    } else {
      m := n;
      BusyUntil(p, s, n);
    }
  }

  lemma BusyUntil(p: ProductDefinition, s: Solo, n: nat)
    requires n != 0 ==> BusyAt(p, s, n - 1)
    ensures Busy(p, s, n)
  {
    forall k: nat | k < n ensures BusyAt(p, s, k) {
      if !BusyAt(p, s, k) {
        RestLasts(p, s, k, n - 1);
      }
    }
  }

  // The invariant that turns need.

  lemma {:induction false} AlwaysTidy(p: ProductDefinition, moves: seq<Move>)
    requires Separated(p)
    ensures Tidy(p, Reach(p, moves).ps)
  {
    if moves == [] {
      EmptyIsTidy(p);
    } else {
      var before := moves[..|moves| - 1];
      AlwaysTidy(p, before);
      AlwaysProper(p, before);
      MoveKeepsTidy(p, Reach(p, before), moves[|moves| - 1]);
    }
  }

  lemma MoveKeepsTidy(p: ProductDefinition, w: World, move: Move)
    requires Separated(p) && AllProper(p, w) && Tidy(p, w.ps)
    ensures Tidy(p, Moved(p, w, move).ps)
  {
    match move
    case StoreMove(route) =>
      assert ProperOn(p, w, route);
      match LocalOf(w, route).storePc {
        case StoreDecided(id, v) => SetKeepsTidy(p, w.ps, Target(Data, id), v);
        case _ =>
      }
    case WorkMove(route) =>
      assert ProperOn(p, w, route);
      match LocalOf(w, route).workPc {
        case Decided(kind, x, v, _, _) => SetKeepsTidy(p, w.ps, Target(kind, x.id), v);
        case _ =>
      }
    case _ =>
  }

  // Matching states.

  /** Between turns: the same store, the same queues, and every worker at rest. */
  ghost predicate Matches(s: State, w: World) {
    w.ps == s.ps && w.published == s.published && forall route :: MatchesOn(s, w, route)
  }

  ghost predicate MatchesOn(s: State, w: World, route: string) {
    LocalOf(w, route) == Local(QueueOf(s.storeQueues, route), StoreIdle, QueueOf(s.capabilityQueues, route), Resting)
  }

  lemma DispatchMatches(p: ProductDefinition, s: State, w: World, item: RIMDataItem)
    requires Matches(s, w)
    ensures Matches(AfterDispatch(p, s, item), Moved(p, w, Arrive(item)))
  {
    forall route ensures MatchesOn(AfterDispatch(p, s, item), Moved(p, w, Arrive(item)), route) {
      assert MatchesOn(s, w, route);
    }
  }

  lemma PublishMatches(p: ProductDefinition, s: State, w: World)
    requires Matches(s, w)
    ensures Matches(AfterPublishTurn(s), Moved(p, w, TakePublished))
  {
    forall route ensures MatchesOn(AfterPublishTurn(s), Moved(p, w, TakePublished), route) {
      assert MatchesOn(s, w, route);
    }
  }

  lemma StoreTurnMatches(p: ProductDefinition, s: State, w: World, route: string)
    requires Matches(s, w) && QueueOf(s.storeQueues, route) != []
    ensures var item := QueueOf(s.storeQueues, route)[0];
            Matches(AfterStoreTurn(p, s, route), StoreMoves(p, w, route, if Writes(p, s.ps, item) then 4 else 2))
  {
    assert MatchesOn(s, w, route);
    StoreTurnAloneIsTurn(p, w, route);
    StoredMatches(p, s, w, route);
  }

  lemma StoredMatches(p: ProductDefinition, s: State, w: World, route: string)
    requires Matches(s, w) && QueueOf(s.storeQueues, route) != []
    ensures var l, item := LocalOf(w, route), QueueOf(s.storeQueues, route)[0];
            var rest := l.(storeQueue := QueueOf(s.storeQueues, route)[1..]);
            Matches(AfterStoreTurn(p, s, route),
                    w.(ps := AfterStore(p, w.ps, item),
                       locals := w.locals[route :=
                         if Writes(p, w.ps, item)
                         then rest.(capabilityQueue := Inserted(CapabilityPolicy(p, route), l.capabilityQueue, CapabilityInput(item.id)))
                         else rest]))
  {
    var l, item := LocalOf(w, route), QueueOf(s.storeQueues, route)[0];
    var rest := l.(storeQueue := QueueOf(s.storeQueues, route)[1..]);
    var l' := if Writes(p, w.ps, item)
              then rest.(capabilityQueue := Inserted(CapabilityPolicy(p, route), l.capabilityQueue, CapabilityInput(item.id)))
              else rest;
    assert MatchesOn(s, w, route);
    RouteMatches(s, AfterStoreTurn(p, s, route), w, route, l', AfterStore(p, w.ps, item));
  }

  /** A step of one route leaves every other route matching. */
  lemma RouteMatches(s: State, s': State, w: World, route: string, l': Local, ps': Partitions)
    requires Matches(s, w) && s'.ps == ps' && s'.published == s.published
    requires forall other :: other != route ==>
               QueueOf(s'.storeQueues, other) == QueueOf(s.storeQueues, other)
               && QueueOf(s'.capabilityQueues, other) == QueueOf(s.capabilityQueues, other)
    requires l' == Local(QueueOf(s'.storeQueues, route), StoreIdle, QueueOf(s'.capabilityQueues, route), Resting)
    ensures Matches(s', w.(ps := ps', locals := w.locals[route := l']))
  {
    var w' := w.(ps := ps', locals := w.locals[route := l']);
    forall other ensures MatchesOn(s', w', other) {
      assert MatchesOn(s, w, other);
    }
  }

  /** Popped and told, the worker takes its turn and comes to rest. */
  lemma CapabilityTurnMatches(p: ProductDefinition, s: State, w: World, route: string)
    requires Matches(s, w) && QueueOf(s.capabilityQueues, route) != []
    requires QueueOf(s.capabilityQueues, route)[0].changedDataId != INVALID_DATA_ID
    ensures var d, w1 := QueueOf(s.capabilityQueues, route)[0].changedDataId, Moved(p, w, WorkMove(route));
            var stage := Processed(p, StageOf(s), d);
            && route in w1.locals && Solo(w1.ps, w1.published, LocalOf(w1, route).workPc) == Solo(s.ps, s.published, Told(d))
            && Matches(AfterCapabilityTurn(p, s, route), WithSolo(w1, route, Solo(stage.ps, stage.published, Resting)))
  {
    var d, w1 := QueueOf(s.capabilityQueues, route)[0].changedDataId, Moved(p, w, WorkMove(route));
    var stage := Processed(p, StageOf(s), d);
    var s', w' := AfterCapabilityTurn(p, s, route), WithSolo(w1, route, Solo(stage.ps, stage.published, Resting));
    assert MatchesOn(s, w, route);
    forall other ensures MatchesOn(s', w', other) {
      assert MatchesOn(s, w, other);
    }
  }

  lemma FollowsCapabilityTurn(p: ProductDefinition, s: State, moves: seq<Move>, route: string) returns (longer: seq<Move>)
    requires Valid(p) && Separated(p) && UsesValidIds(p) && Matches(s, Reach(p, moves)) && !s.shut
    requires QueueOf(s.capabilityQueues, route) != []
    ensures Matches(AfterCapabilityTurn(p, s, route), Reach(p, longer)) && Arrivals(longer) == Arrivals(moves)
  {
    var w, d := Reach(p, moves), QueueOf(s.capabilityQueues, route)[0].changedDataId;
    AlwaysTidy(p, moves);
    AlwaysProper(p, moves);
    assert ProperOn(p, w, route) && MatchesOn(s, w, route);
    HeadIsDue(p, LocalOf(w, route));
    CapabilityTurnMatches(p, s, w, route);
    TurnAloneIsProcessed(p, s.ps, s.published, d);
    var stage := Processed(p, StageOf(s), d);
    var told := Solo(s.ps, s.published, Told(d));
    var n := FirstRest(p, told, Solo(stage.ps, stage.published, Resting));
    longer := Continue(p, moves, WorkMove(route));
    longer := ContinueAlone(p, longer, route, told, n);
  }

  lemma FollowsStoreTurn(p: ProductDefinition, s: State, moves: seq<Move>, route: string) returns (longer: seq<Move>)
    requires Matches(s, Reach(p, moves)) && QueueOf(s.storeQueues, route) != []
    ensures Matches(AfterStoreTurn(p, s, route), Reach(p, longer)) && Arrivals(longer) == Arrivals(moves)
  {
    StoreTurnMatches(p, s, Reach(p, moves), route);
    longer := ContinueStore(p, moves, route, if Writes(p, s.ps, QueueOf(s.storeQueues, route)[0]) then 4 else 2);
  }

  /** The items dispatched in the course of some steps of the coarse machine. */
  function Dispatches(ops: seq<Op>): seq<RIMDataItem> {
    if ops == [] then []
    else
      var before := Dispatches(ops[..|ops| - 1]);
      match ops[|ops| - 1]
      case Dispatch(item) => before + [item]
      case _ => before
  }

  lemma FollowsStep(p: ProductDefinition, s: State, moves: seq<Move>, op: Op) returns (longer: seq<Move>)
    requires Valid(p) && Separated(p) && UsesValidIds(p) && Matches(s, Reach(p, moves)) && !s.shut && op != ShutPublisher
    ensures Matches(Step(p, s, op), Reach(p, longer))
    ensures Arrivals(longer) == if op.Dispatch? then Arrivals(moves) + [op.item] else Arrivals(moves)
  {
    var w := Reach(p, moves);
    longer := moves;
    match op
    case Dispatch(item) =>
      DispatchMatches(p, s, w, item);
      longer := Continue(p, moves, Arrive(item));
    case StoreTurn(route) =>
      if QueueOf(s.storeQueues, route) != [] {
        longer := FollowsStoreTurn(p, s, moves, route);
      }
    case CapabilityTurn(route) =>
      if QueueOf(s.capabilityQueues, route) != [] {
        longer := FollowsCapabilityTurn(p, s, moves, route);
      }
    case PublishTurn =>
      PublishMatches(p, s, w);
      longer := Continue(p, moves, TakePublished);
    case ShutPublisher =>
  }

  ghost predicate KeepsPublisherOpen(ops: seq<Op>) {
    forall i :: 0 <= i < |ops| ==> ops[i] != ShutPublisher
  }

  lemma {:induction false} StaysOpen(p: ProductDefinition, ops: seq<Op>)
    requires KeepsPublisherOpen(ops)
    ensures !Run(p, INITIAL, ops).shut
  {
    if ops != [] {
      StaysOpen(p, ops[..|ops| - 1]);
      StepStaysOpen(p, Run(p, INITIAL, ops[..|ops| - 1]), ops[|ops| - 1]);
    }
  }

  lemma StepStaysOpen(p: ProductDefinition, s: State, op: Op)
    requires op != ShutPublisher && !s.shut
    ensures !Step(p, s, op).shut
  {
  }

  /** Main result: every run of whole turns, on any product, with any routes, is a run of single steps
      with the same arrivals: same store, same queues, same publications, all workers at rest. */
  lemma {:induction false} TurnsAreInterleavings(p: ProductDefinition, ops: seq<Op>) returns (moves: seq<Move>)
    requires Valid(p) && Separated(p) && UsesValidIds(p) && KeepsPublisherOpen(ops)
    ensures Matches(Run(p, INITIAL, ops), Reach(p, moves)) && Arrivals(moves) == Dispatches(ops)
  {
    if ops == [] {
      moves := [];
      forall route ensures MatchesOn(INITIAL, START, route) {
      }
    } else {
      var before, op := ops[..|ops| - 1], ops[|ops| - 1];
      moves := TurnsAreInterleavings(p, before);
      StaysOpen(p, before);
      moves := FollowsStep(p, Run(p, INITIAL, before), moves, op);
    }
  }
}
