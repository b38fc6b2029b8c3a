/** The last accepted value at the finer grain: whatever the order of the single steps, an item's last
    accepted value is in its store queue, in the hands of its store worker, or stored. */
module FineConvergence {
  import opened Values
  import opened Queues
  import opened Product
  import opened Storage
  import opened Partitioning
  import opened Evaluation
  import opened Derivation
  import opened Pipeline
  import opened Consistency
  import opened Convergence
  import opened Interleaving
  import opened OneRoute
  import opened OneRouteWork
  import opened FinePublication

  /** The value of the last arrival of `d` that was accepted, as the store keeps it. */
  function LastArrived(p: ProductDefinition, moves: seq<Move>, d: Id): Option<RIMValue> {
    if moves == [] then None
    else
      var move := moves[|moves| - 1];
      if Brings(p, move, d) then Some(Kept(p, d, Accepted(p, move.item).value.value))
      else LastArrived(p, moves[..|moves| - 1], d)
  }

  predicate Brings(p: ProductDefinition, move: Move, d: Id) {
    move.Arrive? && move.item.id == d && Accepted(p, move.item).Some?
  }

  // The invariant.

  /** What a store worker holds of `d`, and what it will store for it. */
  function InStore(p: ProductDefinition, pc: StorePc, d: Id): Option<RIMValue> {
    match pc
    case StorePopped(item) => if item.id == d then Some(Kept(p, d, item.value)) else None
    case StoreDecided(id, v) => if id == d then Some(v) else None
    case _ => None
  }

  /** The value of `d` that the store will hold once the route's queue has drained. */
  function LatestOn(p: ProductDefinition, ps: Partitions, l: Local, d: Id): Option<RIMValue> {
    match LastWaiting(l.storeQueue, d)
    case Some(v) => Some(Kept(p, d, v))
    case None => if InStore(p, l.storePc, d).Some? then InStore(p, l.storePc, d) else Get(p, ps, Target(Data, d))
  }

  function FineLatest(p: ProductDefinition, w: World, d: Id): Option<RIMValue> {
    match RouteNameOf(p, d)
    case None => Get(p, w.ps, Target(Data, d))
    case Some(route) => LatestOn(p, w.ps, LocalOf(w, route), d)
  }

  /** Only the workers of its own route ever hold an item. */
  ghost predicate ServedOn(p: ProductDefinition, w: World, route: string, d: Id) {
    var l := LocalOf(w, route);
    LastWaiting(l.storeQueue, d).Some? || InStore(p, l.storePc, d).Some? ==> RouteNameOf(p, d) == Some(route)
  }

  ghost predicate AllServed(p: ProductDefinition, w: World) {
    forall route, d :: ServedOn(p, w, route, d)
  }

  lemma ServedStoreStep(p: ProductDefinition, w: World, route: string, d: Id)
    requires ServedOn(p, w, route, d)
    ensures ServedOn(p, Moved(p, w, StoreMove(route)), route, d)
  {
    var l := LocalOf(w, route);
    if l.storePc.StoreIdle? && l.storeQueue != [] {
      PoppedLast(l.storeQueue, d);
    }
  }

  lemma ServedArrival(p: ProductDefinition, w: World, item: RIMDataItem, route: string, d: Id)
    requires ServedOn(p, w, route, d)
    ensures ServedOn(p, Moved(p, w, Arrive(item)), route, d)
  {
    if Accepted(p, item).Some? {
      InsertedLast(p, route, LocalOf(w, route).storeQueue, Accepted(p, item).value, d);
    }
  }

  lemma MoveKeepsServed(p: ProductDefinition, w: World, move: Move)
    requires AllServed(p, w)
    ensures AllServed(p, Moved(p, w, move))
  {
    forall route, d ensures ServedOn(p, Moved(p, w, move), route, d) {
      assert ServedOn(p, w, route, d);
      match move
      case Arrive(item) => ServedArrival(p, w, item, route, d);
      case StoreMove(other) =>
        if other == route {
          ServedStoreStep(p, w, route, d);
        }
      case _ =>
    }
  }

  lemma {:induction false} AlwaysServed(p: ProductDefinition, moves: seq<Move>)
    ensures AllServed(p, Reach(p, moves))
  {
    if moves == [] {
      forall route, d ensures ServedOn(p, START, route, d) {
      }
    } else {
      AlwaysServed(p, moves[..|moves| - 1]);
      MoveKeepsServed(p, Reach(p, moves[..|moves| - 1]), moves[|moves| - 1]);
    }
  }

  // What each move does to it.

  /** Deciding to write and deciding not to write both leave the value that was popped. */
  lemma DecidesLatest(p: ProductDefinition, route: string, ps: Partitions, l: Local)
    requires Separated(p) && StoresWhatItGets(p) && l.storePc.StorePopped? && FindDataItem(p, l.storePc.item.id).Some?
    ensures var item, l' := l.storePc.item, StoreStep(p, route, ps, l);
            var kept := Some(Kept(p, item.id, item.value));
            if l'.storePc.StoreDecided? then InStore(p, l'.storePc, item.id) == kept
            else l'.storePc.StoreIdle? && Get(p, ps, Target(Data, item.id)) == kept
  {
    var item := l.storePc.item;
    var t := Target(Data, item.id);
    StoreKeepsValue(p, ps, item);
    if Writes(p, ps, item) {
      SetKeepsOthers(p, ps, t, StoredValue(FindDataItem(p, item.id).value, Get(p, ps, t), item.value), t);
    }
  }

  /** A step of the item's own store worker passes its latest value on. */
  lemma StoreStepLatest(p: ProductDefinition, route: string, ps: Partitions, l: Local, d: Id)
    requires Separated(p) && StoresWhatItGets(p) && Proper(p, l)
    requires l.storePc.StorePopped? ==> FindDataItem(p, l.storePc.item.id).Some?
    ensures LatestOn(p, StoreWrite(p, ps, l), StoreStep(p, route, ps, l), d) == LatestOn(p, ps, l, d)
  {
    match l.storePc
    case StoreIdle =>
      if l.storeQueue != [] {
        PoppedLast(l.storeQueue, d);
      }
    case StorePopped(item) => DecidesLatest(p, route, ps, l);
    case StoreDecided(id, v) => SetKeepsOthers(p, ps, Target(Data, id), v, Target(Data, d));
    case StoreWritten(_) =>
  }

  lemma HeldIsDefined(p: ProductDefinition, w: World, route: string)
    requires AllServed(p, w) && LocalOf(w, route).storePc.StorePopped?
    ensures FindDataItem(p, LocalOf(w, route).storePc.item.id).Some?
  {
    assert ServedOn(p, w, route, LocalOf(w, route).storePc.item.id);
  }

  /** A step of another route's store worker does not touch the item. */
  lemma StoreMoveElsewhere(p: ProductDefinition, w: World, route: string, d: Id)
    requires Separated(p) && AllProper(p, w) && AllServed(p, w) && RouteNameOf(p, d) != Some(route)
    ensures Same(p, w.ps, Moved(p, w, StoreMove(route)).ps, Target(Data, d))
  {
    var l := LocalOf(w, route);
    assert ProperOn(p, w, route);
    if l.storePc.StoreDecided? {
      assert ServedOn(p, w, route, l.storePc.id);
      SetKeepsOthers(p, w.ps, Target(Data, l.storePc.id), l.storePc.v, Target(Data, d));
    }
  }

  lemma StoreMoveLatest(p: ProductDefinition, w: World, route: string, d: Id)
    requires Separated(p) && StoresWhatItGets(p) && AllProper(p, w) && AllServed(p, w)
    ensures FineLatest(p, Moved(p, w, StoreMove(route)), d) == FineLatest(p, w, d)
  {
    if RouteNameOf(p, d) == Some(route) {
      assert ProperOn(p, w, route);
      if LocalOf(w, route).storePc.StorePopped? {
        HeldIsDefined(p, w, route);
      }
      StoreStepLatest(p, route, w.ps, LocalOf(w, route), d);
    } else {
      StoreMoveElsewhere(p, w, route, d);
    }
  }

  lemma WorkMoveLatest(p: ProductDefinition, w: World, route: string, d: Id)
    requires Separated(p) && AllProper(p, w)
    ensures FineLatest(p, Moved(p, w, WorkMove(route)), d) == FineLatest(p, w, d)
  {
    var l := LocalOf(w, route);
    assert ProperOn(p, w, route);
    WorkWriteKeepsData(p, w.ps, l, d);
    WorkStepKeepsStoreSide(p, w.ps, l);
  }

  lemma WorkWriteKeepsData(p: ProductDefinition, ps: Partitions, l: Local, d: Id)
    requires Separated(p) && Proper(p, l)
    ensures Same(p, ps, WorkWrite(p, ps, l), Target(Data, d))
  {
    if l.workPc.Decided? {
      SetKeepsOthers(p, ps, Target(l.workPc.kind, l.workPc.x.id), l.workPc.v, Target(Data, d));
    }
  }

  lemma WorkStepKeepsStoreSide(p: ProductDefinition, ps: Partitions, l: Local)
    ensures WorkStep(p, ps, l).storeQueue == l.storeQueue && WorkStep(p, ps, l).storePc == l.storePc
  {
  }

  lemma ArriveLatest(p: ProductDefinition, w: World, item: RIMDataItem, d: Id)
    ensures FineLatest(p, Moved(p, w, Arrive(item)), d) ==
            if Brings(p, Arrive(item), d) then Some(Kept(p, d, Accepted(p, item).value.value)) else FineLatest(p, w, d)
  {
    if Accepted(p, item).Some? {
      var route := RouteNameOf(p, item.id).value;
      ArriveLatestOn(p, w.ps, route, LocalOf(w, route), Accepted(p, item).value, d);
      assert RouteNameOf(p, d) != Some(route) ==> item.id != d;
    }
  }

  lemma ArriveLatestOn(p: ProductDefinition, ps: Partitions, route: string, l: Local, e: RIMDataItem, d: Id)
    ensures LatestOn(p, ps, l.(storeQueue := Inserted(StorePolicy(p, route), l.storeQueue, e)), d) ==
            if e.id == d then Some(Kept(p, d, e.value)) else LatestOn(p, ps, l, d)
  {
    InsertedLast(p, route, l.storeQueue, e, d);
  }

  lemma MoveLatest(p: ProductDefinition, w: World, move: Move, d: Id)
    requires Separated(p) && StoresWhatItGets(p) && AllProper(p, w) && AllServed(p, w)
    ensures FineLatest(p, Moved(p, w, move), d) ==
            if Brings(p, move, d) then Some(Kept(p, d, Accepted(p, move.item).value.value)) else FineLatest(p, w, d)
  {
    match move
    case Arrive(item) => ArriveLatest(p, w, item, d);
    case StoreMove(route) => StoreMoveLatest(p, w, route, d);
    case WorkMove(route) => WorkMoveLatest(p, w, route, d);
    case TakePublished =>
  }

  /** Main result: in every interleaving, at every moment, an item's last accepted value is the last
      one in its store queue, or its store worker holds it, or it is stored. */
  lemma {:induction false} LatestIsLastArrived(p: ProductDefinition, moves: seq<Move>, d: Id)
    requires Separated(p) && StoresWhatItGets(p)
    ensures FineLatest(p, Reach(p, moves), d) == LastArrived(p, moves, d)
  {
    if moves == [] {
      assert LatestOn(p, map[], IDLE, d) == None;
    } else {
      var before := moves[..|moves| - 1];
      LatestIsLastArrived(p, before, d);
      AlwaysProper(p, before);
      AlwaysServed(p, before);
      MoveLatest(p, Reach(p, before), moves[|moves| - 1], d);
    }
  }

  /** No item waits to be stored or is being stored. */
  ghost predicate AllStored(w: World) {
    forall route :: StoredOn(w, route)
  }

  ghost predicate StoredOn(w: World, route: string) {
    LocalOf(w, route).storeQueue == [] && LocalOf(w, route).storePc.StoreIdle?
  }

  /** So empty store queues and idle store workers leave each data item with its last accepted value. */
  lemma StoredHoldsLastArrived(p: ProductDefinition, moves: seq<Move>, d: Id)
    requires Separated(p) && StoresWhatItGets(p) && AllStored(Reach(p, moves))
    ensures Get(p, Reach(p, moves).ps, Target(Data, d)) == LastArrived(p, moves, d)
  {
    LatestIsLastArrived(p, moves, d);
    if RouteNameOf(p, d).Some? {
      assert StoredOn(Reach(p, moves), RouteNameOf(p, d).value);
    }
  }

  // Any two ways of running the pipeline.

  /** Nothing waits and no worker holds anything. */
  ghost predicate AtRest(w: World) {
    AllStored(w) && Calm(w)
  }

  /** Main result: two interleavings of single steps over the same product, with any queue policies,
      that accepted the same last value for every item hold the same values everywhere at rest, if each
      keeps the inputs of every derived value on one route. */
  lemma InterleavingsDoNotMatter(p: ProductDefinition, home: Target -> string, moves: seq<Move>,
                                 q: ProductDefinition, home': Target -> string, moves': seq<Move>, t: Target)
    requires SameButRoutes(p, q) && Valid(p) && Valid(q)
    requires Separated(p) && UsesValidIds(p) && StoresWhatItGets(p) && ExactDiffs(p)
    requires OnOneRoute(p, home) && OnOneRoute(q, home')
    requires AtRest(Reach(p, moves)) && AtRest(Reach(q, moves'))
    requires forall d :: LastArrived(p, moves, d) == LastArrived(q, moves', d)
    ensures Get(p, Reach(p, moves).ps, t) == Get(q, Reach(q, moves').ps, t)
  {
    var a, b := Reach(p, moves).ps, Reach(q, moves').ps;
    SeparatedWhateverTheRoutes(p, q);
    forall u: Target | u.kind == Data ensures AgreeAt(p, a, q, b, u) {
      StoredHoldsLastArrived(p, moves, u.id);
      StoredHoldsLastArrived(q, moves', u.id);
    }
    CalmHoldsBatch(p, home, moves);
    CalmHoldsBatch(q, home', moves');
    BatchesAgree(p, a, q, b, t);
  }

  /** Main result: single steps in any order end where whole turns end. */
  lemma StepsEndWhereTurnsEnd(p: ProductDefinition, home: Target -> string, moves: seq<Move>,
                              q: ProductDefinition, ops: seq<Op>, t: Target)
    requires SameButRoutes(p, q) && Valid(p) && Valid(q)
    requires Separated(p) && UsesValidIds(p) && StoresWhatItGets(p) && ExactDiffs(p) && OnOneRoute(p, home)
    requires AtRest(Reach(p, moves)) && Drained(Run(q, INITIAL, ops)) && Quiet(Run(q, INITIAL, ops))
    requires forall d :: LastArrived(p, moves, d) == LastAccepted(q, ops, d)
    ensures Get(p, Reach(p, moves).ps, t) == Get(q, Run(q, INITIAL, ops).ps, t)
  {
    var a, b := Reach(p, moves).ps, Run(q, INITIAL, ops).ps;
    SeparatedWhateverTheRoutes(p, q);
    forall u: Target | u.kind == Data ensures AgreeAt(p, a, q, b, u) {
      StoredHoldsLastArrived(p, moves, u.id);
      DrainedHoldsLastAccepted(q, ops, u.id);
    }
    CalmHoldsBatch(p, home, moves);
    QuietHoldsBatch(q, ops);
    BatchesAgree(p, a, q, b, t);
  }
}
