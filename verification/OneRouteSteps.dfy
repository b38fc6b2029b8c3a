/** Each step of a route's own workers keeps what holds of the route. */
module OneRouteSteps {
  import opened Values
  import opened Product
  import opened Storage
  import opened Partitioning
  import opened Snapshots
  import opened Evaluation
  import opened Derivation
  import opened Pipeline
  import opened Interleaving
  import opened OneRoute

  // Steps that write nothing and make nothing less due.

  ghost predicate DueStays(l: Local, l': Local) {
    forall d :: Due(l, d) ==> Due(l', d)
  }

  lemma AwaitsStays(l: Local, l': Local, kind: TargetType, x: DerivedDefinition)
    requires DueStays(l, l')
    ensures Awaits(l, kind, x) ==> Awaits(l', kind, x)
  {
    if Awaits(l, kind, x) {
      var d :| d in x.required && Due(l, d);
      assert Due(l', d);
    }
  }

  lemma WorkSideKept(a: Site, ps: Partitions, l: Local, l': Local)
    requires DueStays(l, l') && l'.workPc == l.workPc
    requires WorkOk(a, ps, l) && forall kind, x :: Tracked(a, ps, l, kind, x)
    ensures WorkOk(a, ps, l') && forall kind, x :: Tracked(a, ps, l', kind, x)
  {
    match l.workPc {
      case Reading(kind, x, _, _, _, _) => AwaitsStays(l, l', kind, x);
      case Decided(kind, x, _, _, _) => AwaitsStays(l, l', kind, x);
      case _ =>
    }
    forall kind, x ensures Tracked(a, ps, l', kind, x) {
      assert Tracked(a, ps, l, kind, x);
      AwaitsStays(l, l', kind, x);
    }
  }

  // Steps of the store worker.

  lemma StorePops(a: Site, ps: Partitions, l: Local)
    requires LocalOk(a, ps, l) && l.storePc.StoreIdle? && l.storeQueue != []
    ensures LocalOk(a, ps, StoreStep(a.p, a.route, ps, l))
  {
    var l' := StoreStep(a.p, a.route, ps, l);
    WorkSideKept(a, ps, l, l');
    forall d ensures QueuedOk(a, ps, l', d) {
      assert QueuedOk(a, ps, l, d);
    }
  }

  lemma StoreDecides(a: Site, ps: Partitions, l: Local)
    requires LocalOk(a, ps, l) && l.storePc.StorePopped?
    ensures LocalOk(a, ps, StoreStep(a.p, a.route, ps, l))
  {
    var l' := StoreStep(a.p, a.route, ps, l);
    WorkSideKept(a, ps, l, l');
    forall d ensures QueuedOk(a, ps, l', d) {
      assert QueuedOk(a, ps, l, d);
    }
  }

  lemma StorePushes(a: Site, ps: Partitions, l: Local)
    requires LocalOk(a, ps, l) && l.storePc.StoreWritten?
    ensures LocalOk(a, ps, StoreStep(a.p, a.route, ps, l))
  {
    var l' := StoreStep(a.p, a.route, ps, l);
    var input := CapabilityInput(l.storePc.writtenId);
    forall d ensures Due(l, d) ==> Due(l', d) {
      InsertedWaits(a.p, a.route, l.capabilityQueue, input, d);
    }
    WorkSideKept(a, ps, l, l');
    forall d ensures QueuedOk(a, ps, l', d) {
      assert QueuedOk(a, ps, l, d);
      InsertedWaits(a.p, a.route, l.capabilityQueue, input, d);
    }
  }

  /** A write to one target, seen from the route that owns it. */
  ghost predicate WritesOnly(p: ProductDefinition, ps: Partitions, ps': Partitions, t: Target) {
    (forall u :: u != t ==> Same(p, ps, ps', u)) && Get(p, ps', t).Some?
  }

  lemma InputStays(p: ProductDefinition, ps: Partitions, ps': Partitions, t: Target, kind: TargetType, x: DerivedDefinition)
    requires WritesOnly(p, ps, ps', t)
    ensures HasInput(p, ps, kind, x) ==> HasInput(p, ps', kind, x)
  {
    if HasInput(p, ps, kind, x) {
      var i :| 0 <= i < |x.required| && Get(p, ps, Target(InputKind(kind), x.required[i])).Some?;
      var u := Target(InputKind(kind), x.required[i]);
      assert u != t ==> Same(p, ps, ps', u);
      assert Get(p, ps', u).Some?;
    }
  }

  lemma AssignedStays(a: Site, ps: Partitions, ps': Partitions, t: Target, kind: TargetType, xs: seq<DerivedDefinition>)
    requires WritesOnly(a.p, ps, ps', t) && AllAssigned(a, ps, kind, xs)
    ensures AllAssigned(a, ps', kind, xs)
  {
    forall i | 0 <= i < |xs| ensures Assigned(a, ps', kind, xs[i]) {
      InputStays(a.p, ps, ps', t, kind, xs[i]);
    }
  }

  lemma LivesStoredStays(a: Site, ps: Partitions, ps': Partitions, t: Target, d: Id)
    requires WritesOnly(a.p, ps, ps', t) && LivesStored(a, ps, d)
    ensures LivesStored(a, ps', d)
  {
    assert Target(Data, d) != t ==> Same(a.p, ps, ps', Target(Data, d));
  }

  /** Values that do not read the written target are as they were. */
  lemma UnreadWrite(p: ProductDefinition, ps: Partitions, ps': Partitions, t: Target, kind: TargetType, x: DerivedDefinition)
    requires WritesOnly(p, ps, ps', t)
    requires InputKind(kind) != t.kind || t.id !in x.required
    ensures SameInputs(p, ps, ps', kind, x)
    ensures Derive(p, ps, kind, x) == Derive(p, ps', kind, x)
    ensures HasInput(p, ps, kind, x) <==> HasInput(p, ps', kind, x)
  {
    forall id | id in x.required
      ensures Get(p, ps, Target(InputKind(kind), id)) == Get(p, ps', Target(InputKind(kind), id))
    {
      assert Same(p, ps, ps', Target(InputKind(kind), id));
    }
    SameInputsSameDerive(p, ps, ps', kind, x);
  }

  lemma StoreWrites(a: Site, ps: Partitions, l: Local)
    requires Separated(a.p) && LocalOk(a, ps, l) && l.storePc.StoreDecided?
    ensures LocalOk(a, StoreWrite(a.p, ps, l), StoreStep(a.p, a.route, ps, l))
  {
    var id := l.storePc.id;
    var ps', l' := StoreWrite(a.p, ps, l), StoreStep(a.p, a.route, ps, l);
    SetWritesOnly(a.p, ps, Target(Data, id), l.storePc.v);
    forall d ensures QueuedOk(a, ps', l', d) {
      assert QueuedOk(a, ps, l, d);
      if LivesStored(a, ps, d) {
        LivesStoredStays(a, ps, ps', Target(Data, id), d);
      }
    }
    assert Due(l', id);
    StoreWriteKeepsWork(a, ps, ps', l, l', id);
    forall kind, x ensures Tracked(a, ps', l', kind, x) {
      assert Tracked(a, ps, l, kind, x);
      StoreWriteTracks(a, ps, ps', l, l', id, kind, x);
    }
  }

  lemma SetWritesOnly(p: ProductDefinition, ps: Partitions, t: Target, v: RIMValue)
    requires Separated(p) && Defined(p, t)
    ensures WritesOnly(p, ps, Set(p, ps, t, v), t)
  {
    forall u | u != t ensures Same(p, ps, Set(p, ps, t, v), u) {
      SetKeepsOthers(p, ps, t, v, u);
    }
    SetKeepsOthers(p, ps, t, v, t);
  }

  lemma StoreWriteKeepsWork(a: Site, ps: Partitions, ps': Partitions, l: Local, l': Local, id: Id)
    requires WritesOnly(a.p, ps, ps', Target(Data, id)) && WorkOk(a, ps, l)
    requires l'.workPc == l.workPc && DueStays(l, l') && Due(l', id)
    ensures WorkOk(a, ps', l')
  {
    var t := Target(Data, id);
    match l.workPc
    case Resting =>
    case Told(d) => LivesStoredStays(a, ps, ps', t, d);
    case Next(fs, todo) =>
      AssignedStays(a, ps, ps', t, Facade, fs);
      AssignedStays(a, ps, ps', t, Capability, todo);
    case Reading(kind, x, k, seen, fs, todo) =>
      AssignedStays(a, ps, ps', t, Facade, fs);
      AssignedStays(a, ps, ps', t, Capability, todo);
      InputStays(a.p, ps, ps', t, kind, x);
      AwaitsStays(l, l', kind, x);
      if kind == Facade || id !in x.required {
        UnreadWrite(a.p, ps, ps', t, kind, x);
        if Fresh(a.p, ps, kind, x, k, seen) {
          FreshSameInputs(a.p, ps, ps', kind, x, k, seen);
        }
      }
    case Decided(kind, x, v, fs, todo) =>
      AssignedStays(a, ps, ps', t, Facade, fs);
      AssignedStays(a, ps, ps', t, Capability, todo);
      InputStays(a.p, ps, ps', t, kind, x);
      AwaitsStays(l, l', kind, x);
      if kind == Facade || id !in x.required {
        UnreadWrite(a.p, ps, ps', t, kind, x);
      }
    case Stored(kind, x, fs, todo) =>
      AssignedStays(a, ps, ps', t, Facade, fs);
      AssignedStays(a, ps, ps', t, Capability, todo);
      InputStays(a.p, ps, ps', t, kind, x);
      assert Same(a.p, ps, ps', Target(kind, x.id));
  }

  lemma StoreWriteTracks(a: Site, ps: Partitions, ps': Partitions, l: Local, l': Local, id: Id, kind: TargetType, x: DerivedDefinition)
    requires WritesOnly(a.p, ps, ps', Target(Data, id)) && Tracked(a, ps, l, kind, x)
    requires l'.workPc == l.workPc && DueStays(l, l') && Due(l', id)
    ensures Tracked(a, ps', l', kind, x)
  {
    if kind != Data {
      AwaitsStays(l, l', kind, x);
      InputStays(a.p, ps, ps', Target(Data, id), kind, x);
      assert Same(a.p, ps, ps', Target(kind, x.id));
      if kind == Facade || id !in x.required {
        UnreadWrite(a.p, ps, ps', Target(Data, id), kind, x);
      }
    }
  }

  lemma StoreStepKeeps(a: Site, ps: Partitions, l: Local)
    requires Separated(a.p) && LocalOk(a, ps, l)
    ensures LocalOk(a, StoreWrite(a.p, ps, l), StoreStep(a.p, a.route, ps, l))
  {
    match l.storePc
    case StoreIdle => if l.storeQueue != [] { StorePops(a, ps, l); }
    case StorePopped(_) => StoreDecides(a, ps, l);
    case StoreDecided(_, _) => StoreWrites(a, ps, l);
    case StoreWritten(_) => StorePushes(a, ps, l);
  }
}
