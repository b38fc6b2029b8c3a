/** No change goes unannounced, at the finer grain: however the workers' single steps are interleaved
    and wherever the inputs of a derived value come from, a changed target that the publisher has not
    taken since is in its queue, or some worker is about to put it there. */
module FinePublication {
  import opened Values
  import opened Queues
  import opened PublisherQueue
  import opened Product
  import opened Storage
  import opened Context
  import opened Partitioning
  import opened Evaluation
  import opened Derivation
  import opened Pipeline
  import opened Consistency
  import opened Publication
  import opened Interleaving
  import opened OneRoute

  // What the workers hold is defined.

  /** Whatever is due or about to be written is a defined target, and only store workers write data. */
  ghost predicate Proper(p: ProductDefinition, l: Local) {
    && (forall d :: DueIsDefined(p, l, d))
    && (l.storePc.StoreDecided? ==> FindDataItem(p, l.storePc.id).Some?)
    && (l.workPc.Reading? ==> l.workPc.kind != Data)
    && (l.workPc.Decided? ==> l.workPc.kind != Data && Defined(p, Target(l.workPc.kind, l.workPc.x.id)))
  }

  ghost predicate DueIsDefined(p: ProductDefinition, l: Local, d: Id) {
    Due(l, d) ==> FindDataItem(p, d).Some?
  }

  lemma NumberedIsDefined(p: ProductDefinition, t: Target)
    requires DomainOf(p, t) != INVALID_DOMAIN
    ensures Defined(p, t)
  {
    if t.kind == Data && FindDataItem(p, t.id).None? {
      UndefinedHasNoNumber(p, |p.dataItems|, t.id);
    }
  }

  lemma StoreStepKeepsProper(p: ProductDefinition, route: string, ps: Partitions, l: Local)
    requires Proper(p, l)
    ensures Proper(p, StoreStep(p, route, ps, l))
  {
    var l' := StoreStep(p, route, ps, l);
    forall d ensures DueIsDefined(p, l', d) {
      assert DueIsDefined(p, l, d);
      if l.storePc.StoreWritten? {
        InsertedWaits(p, route, l.capabilityQueue, CapabilityInput(l.storePc.writtenId), d);
      }
    }
  }

  lemma WorkStepKeepsProper(p: ProductDefinition, ps: Partitions, l: Local)
    requires Proper(p, l)
    ensures Proper(p, WorkStep(p, ps, l))
  {
    var l' := WorkStep(p, ps, l);
    forall d ensures DueIsDefined(p, l', d) {
      assert DueIsDefined(p, l, d);
      if l.workPc.Resting? && l.capabilityQueue != [] {
        PoppedWaits(l.capabilityQueue, d);
      }
    }
    if l.workPc.Reading? && l'.workPc.Decided? {
      NumberedIsDefined(p, Target(l.workPc.kind, l.workPc.x.id));
    }
  }

  ghost predicate ProperOn(p: ProductDefinition, w: World, route: string) {
    Proper(p, LocalOf(w, route))
  }

  ghost predicate AllProper(p: ProductDefinition, w: World) {
    forall route :: ProperOn(p, w, route)
  }

  lemma MoveKeepsProper(p: ProductDefinition, w: World, move: Move)
    requires AllProper(p, w)
    ensures AllProper(p, Moved(p, w, move))
  {
    forall route ensures ProperOn(p, Moved(p, w, move), route) {
      assert ProperOn(p, w, route);
      var l := LocalOf(w, route);
      match move
      case StoreMove(_) => StoreStepKeepsProper(p, route, w.ps, l);
      case WorkMove(_) => WorkStepKeepsProper(p, w.ps, l);
      case Arrive(item) => ArrivalKeepsProper(p, l, LocalOf(Moved(p, w, move), route));
      case TakePublished =>
    }
  }

  lemma ArrivalKeepsProper(p: ProductDefinition, l: Local, l': Local)
    requires Proper(p, l) && l' == l.(storeQueue := l'.storeQueue)
    ensures Proper(p, l')
  {
    forall d ensures DueIsDefined(p, l', d) {
      assert DueIsDefined(p, l, d);
    }
  }

  lemma {:induction false} AlwaysProper(p: ProductDefinition, moves: seq<Move>)
    ensures AllProper(p, Reach(p, moves))
  {
    if moves == [] {
      forall route ensures ProperOn(p, START, route) {
        forall d ensures DueIsDefined(p, IDLE, d) {
        }
      }
    } else {
      AlwaysProper(p, moves[..|moves| - 1]);
      MoveKeepsProper(p, Reach(p, moves[..|moves| - 1]), moves[|moves| - 1]);
    }
  }

  // On the way to the publisher.

  /** The workers of a route are about to announce `t`: it was just stored, or it is a data item that is
      due or that the capability worker was just told about. */
  ghost predicate Carries(l: Local, t: Target) {
    || (l.workPc.Stored? && Target(l.workPc.kind, l.workPc.x.id) == t)
    || (t.kind == Data && (Due(l, t.id) || l.workPc == Told(t.id)))
  }

  ghost predicate CarriedOn(w: World, route: string, t: Target) {
    Carries(LocalOf(w, route), t)
  }

  ghost predicate OnWay(w: World, t: Target) {
    t in Targets(w.published) || exists route :: CarriedOn(w, route, t)
  }

  /** A store worker hands on what it carries, and carries what it writes. */
  lemma StoreStepCarries(p: ProductDefinition, route: string, ps: Partitions, l: Local, t: Target)
    requires Separated(p) && Proper(p, l)
    ensures var l' := StoreStep(p, route, ps, l);
            && (Carries(l, t) ==> Carries(l', t))
            && (Same(p, ps, StoreWrite(p, ps, l), t) || Carries(l', t))
  {
    match l.storePc
    case StoreDecided(id, v) => SetKeepsOthers(p, ps, Target(Data, id), v, t);
    case StoreWritten(id) => InsertedWaits(p, route, l.capabilityQueue, CapabilityInput(id), t.id);
    case _ =>
  }

  /** A capability worker hands on what it carries or announces it, and carries what it writes. */
  lemma WorkStepCarries(p: ProductDefinition, ps: Partitions, published: seq<PublisherInput>, l: Local, t: Target)
    requires Separated(p) && UsesValidIds(p) && Proper(p, l)
    ensures var l' := WorkStep(p, ps, l);
            && (Carries(l, t) ==> Carries(l', t) || t in Targets(WorkAnnounce(p, published, l)))
            && (Same(p, ps, WorkWrite(p, ps, l), t) || Carries(l', t))
    ensures Targets(published) <= Targets(WorkAnnounce(p, published, l))
  {
    match l.workPc
    case Resting =>
      if l.capabilityQueue != [] {
        HeadIsDue(p, l);
        PoppedWaits(l.capabilityQueue, t.id);
      }
    case Told(d) => InsertLosesNoTarget(published, InputFor(p, Target(Data, d)));
    case Decided(kind, x, v, _, _) => SetKeepsOthers(p, ps, Target(kind, x.id), v, t);
    case Stored(kind, x, _, _) => InsertLosesNoTarget(published, InputFor(p, Target(kind, x.id)));
    case _ =>
  }

  lemma HeadIsDue(p: ProductDefinition, l: Local)
    requires UsesValidIds(p) && Proper(p, l) && l.capabilityQueue != []
    ensures l.capabilityQueue[0].changedDataId != INVALID_DATA_ID
  {
    assert DueIsDefined(p, l, l.capabilityQueue[0].changedDataId);
  }

  /** Nothing is dropped, and nothing changes unannounced, if the one route that moved sees to it. */
  lemma OthersCarry(w: World, w': World, route: string, t: Target)
    requires forall other :: other != route ==> LocalOf(w', other) == LocalOf(w, other)
    requires Targets(w.published) <= Targets(w'.published)
    requires CarriedOn(w, route, t) ==> CarriedOn(w', route, t) || t in Targets(w'.published)
    ensures OnWay(w, t) ==> OnWay(w', t)
  {
    if OnWay(w, t) && t !in Targets(w.published) {
      var other :| CarriedOn(w, other, t);
      assert other != route ==> CarriedOn(w', other, t);
    }
  }

  ghost predicate Takes(w: World, move: Move, t: Target) {
    move.TakePublished? && w.published != [] && w.published[0].target == t
  }

  lemma StoreMoveAnnounces(p: ProductDefinition, w: World, route: string, t: Target)
    requires Separated(p) && AllProper(p, w)
    ensures var w' := Moved(p, w, StoreMove(route));
            (Same(p, w.ps, w'.ps, t) || OnWay(w', t)) && (OnWay(w, t) ==> OnWay(w', t))
  {
    var w' := Moved(p, w, StoreMove(route));
    assert ProperOn(p, w, route);
    StoreStepCarries(p, route, w.ps, LocalOf(w, route), t);
    assert Carries(LocalOf(w', route), t) ==> CarriedOn(w', route, t);
    OthersCarry(w, w', route, t);
  }

  lemma WorkMoveAnnounces(p: ProductDefinition, w: World, route: string, t: Target)
    requires Separated(p) && UsesValidIds(p) && AllProper(p, w)
    ensures var w' := Moved(p, w, WorkMove(route));
            (Same(p, w.ps, w'.ps, t) || OnWay(w', t)) && (OnWay(w, t) ==> OnWay(w', t))
  {
    var w' := Moved(p, w, WorkMove(route));
    assert ProperOn(p, w, route);
    WorkStepCarries(p, w.ps, w.published, LocalOf(w, route), t);
    assert Carries(LocalOf(w', route), t) ==> CarriedOn(w', route, t);
    OthersCarry(w, w', route, t);
  }

  lemma ArriveAnnounces(p: ProductDefinition, w: World, item: RIMDataItem, t: Target)
    ensures var w' := Moved(p, w, Arrive(item));
            w'.ps == w.ps && (OnWay(w, t) ==> OnWay(w', t))
  {
    var w' := Moved(p, w, Arrive(item));
    if OnWay(w, t) && t !in Targets(w.published) {
      var route :| CarriedOn(w, route, t);
      assert CarriedOn(w', route, t);
    }
  }

  lemma MoveAnnounces(p: ProductDefinition, w: World, move: Move, t: Target)
    requires Separated(p) && UsesValidIds(p) && AllProper(p, w) && !Takes(w, move, t)
    ensures var w' := Moved(p, w, move);
            (Same(p, w.ps, w'.ps, t) || OnWay(w', t)) && (OnWay(w, t) ==> OnWay(w', t))
  {
    match move
    case Arrive(item) => ArriveAnnounces(p, w, item, t);
    case StoreMove(route) => StoreMoveAnnounces(p, w, route, t);
    case WorkMove(route) => WorkMoveAnnounces(p, w, route, t);
    case TakePublished =>
      if t in Targets(w.published) {
        PoppedTargets(w.published, t);
      } else if OnWay(w, t) {
        var route :| CarriedOn(w, route, t);
        assert CarriedOn(Moved(p, w, move), route, t);
      }
  }

  /** In the moves of `later`, made after those of `earlier`, the publisher never takes `t`. */
  ghost predicate NeverTaken(p: ProductDefinition, earlier: seq<Move>, later: seq<Move>, t: Target) {
    forall i :: 0 <= i < |later| ==> !Takes(Reach(p, earlier + later[..i]), later[i], t)
  }

  lemma NeverTakenBefore(p: ProductDefinition, earlier: seq<Move>, later: seq<Move>, t: Target)
    requires NeverTaken(p, earlier, later, t) && later != []
    ensures NeverTaken(p, earlier, later[..|later| - 1], t)
    ensures !Takes(Reach(p, earlier + later[..|later| - 1]), later[|later| - 1], t)
  {
    var n := |later| - 1;
    assert forall i :: 0 <= i < n ==> later[..n][..i] == later[..i];
  }

  lemma ReachOneMore(p: ProductDefinition, earlier: seq<Move>, later: seq<Move>)
    requires later != []
    ensures var n := |later| - 1; Reach(p, earlier + later) == Moved(p, Reach(p, earlier + later[..n]), later[n])
  {
    SplitsBeforeLast(earlier, later);
    ReachAfter(p, earlier + later[..|later| - 1], later[|later| - 1]);
  }

  lemma SplitsBeforeLast<T>(a: seq<T>, b: seq<T>)
    requires b != []
    ensures a + b == (a + b[..|b| - 1]) + [b[|b| - 1]]
  {
  }

  lemma ReachAfter(p: ProductDefinition, moves: seq<Move>, move: Move)
    ensures Reach(p, moves + [move]) == Moved(p, Reach(p, moves), move)
  {
    assert (moves + [move])[..|moves|] == moves;
  }

  /** Main result: take any two moments of any interleaving between which the publisher never took the
      target t.  If t's stored value differs between them, t is on its way at the second; and if t was
      on its way at the first, it still is.  Inputs on several routes can make a value stale, but they
      cannot make a change go unannounced. */
  lemma {:induction false} NoStepLosesAPublication(p: ProductDefinition, earlier: seq<Move>, later: seq<Move>, t: Target)
    requires Separated(p) && UsesValidIds(p) && NeverTaken(p, earlier, later, t)
    ensures var w, w' := Reach(p, earlier), Reach(p, earlier + later);
            (Same(p, w.ps, w'.ps, t) || OnWay(w', t)) && (OnWay(w, t) ==> OnWay(w', t))
  {
    if later == [] {
      assert earlier + later == earlier;
    } else {
      var n := |later| - 1;
      var before := earlier + later[..n];
      NeverTakenBefore(p, earlier, later, t);
      NoStepLosesAPublication(p, earlier, later[..n], t);
      AlwaysProper(p, before);
      MoveAnnounces(p, Reach(p, before), later[n], t);
      ReachOneMore(p, earlier, later);
    }
  }

  // Priorities.

  ghost predicate AllLow(q: seq<PublisherInput>) {
    forall i :: 0 <= i < |q| ==> q[i].priority == Low
  }

  /** What announcing does to a queue whose events all have the lowest priority: compression decides
      whether and what to drop, and the new event goes to the end. */
  lemma LowGoesLast(p: ProductDefinition, q: seq<PublisherInput>, t: Target)
    requires AllLow(q)
    ensures AllLow(Announce(p, q, t))
    ensures var e, same := InputFor(p, t), FirstIndex(q, HasTargetOf(InputFor(p, t), PLAIN.input));
            Announce(p, q, t) == match e.compression
                                 case KeepAll => q + [e]
                                 case KeepOldest => if same < |q| then q else q + [e]
                                 case KeepLatest => RemoveAt(q, same) + [e]
  {
    var e := InputFor(p, t);
    LowInserted(q, e);
    LowInserted(RemoveAt(q, FirstIndex(q, HasTargetOf(e, PLAIN.input))), e);
  }

  lemma LowInserted(q: seq<PublisherInput>, e: PublisherInput)
    requires AllLow(q) && e.priority == Low
    ensures ByPriority(q, e, PLAIN.input) == q + [e]
  {
    var k := FirstIndex(q, RanksBelow(e, PLAIN.input));
    assert k == |q|;
  }

  /** Main result: no event of the pipeline ever has another priority than the lowest, so the order of
      the publisher's queue is the order of the announcements that compression kept. */
  lemma {:induction false} AlwaysLow(p: ProductDefinition, moves: seq<Move>)
    ensures AllLow(Reach(p, moves).published)
  {
    if moves != [] {
      var w, move := Reach(p, moves[..|moves| - 1]), moves[|moves| - 1];
      AlwaysLow(p, moves[..|moves| - 1]);
      match move
      case WorkMove(route) =>
        match LocalOf(w, route).workPc {
          case Told(d) => LowGoesLast(p, w.published, Target(Data, d));
          case Stored(kind, x, _, _) => LowGoesLast(p, w.published, Target(kind, x.id));
          case _ =>
        }
      case _ =>
    }
  }
}
