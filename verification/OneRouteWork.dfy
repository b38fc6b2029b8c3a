/** The steps of a route's capability worker. */
module OneRouteWork {
  import opened Values
  import opened Queues
  import opened Product
  import opened Storage
  import opened Context
  import opened Partitioning
  import opened Snapshots
  import opened SnapshotAgreement
  import opened Derivation
  import opened Pipeline
  import opened Consistency
  import opened Interleaving
  import opened OneRoute
  import opened OneRouteSteps

  lemma WorkPops(a: Site, ps: Partitions, l: Local)
    requires UsesValidIds(a.p) && LocalOk(a, ps, l) && l.workPc.Resting? && l.capabilityQueue != []
    ensures LocalOk(a, ps, WorkStep(a.p, ps, l))
  {
    var l' := WorkStep(a.p, ps, l);
    var head := l.capabilityQueue[0].changedDataId;
    assert Waiting(l.capabilityQueue, head) && QueuedOk(a, ps, l, head);
    forall d ensures QueuedOk(a, ps, l', d) {
      assert QueuedOk(a, ps, l, d);
      PoppedWaits(l.capabilityQueue, d);
    }
    forall kind, x ensures Tracked(a, ps, l', kind, x) {
      assert Tracked(a, ps, l, kind, x);
      if Awaits(l, kind, x) {
        var d :| d in x.required && Due(l, d);
        PoppedWaits(l.capabilityQueue, d);
        assert d != head ==> Due(l', d);
      }
    }
  }

  /** The worker moves on within a round without writing, and keeps everything it has in hand. */
  lemma HandsOn(a: Site, ps: Partitions, l: Local, l': Local)
    requires LocalOk(a, ps, l) && l' == l.(workPc := l'.workPc) && WorkOk(a, ps, l')
    requires forall kind, x :: KeepsInHand(a, ps, l, l', kind, x)
    ensures LocalOk(a, ps, l')
  {
    forall d ensures QueuedOk(a, ps, l', d) {
      assert QueuedOk(a, ps, l, d);
    }
    forall kind, x ensures Tracked(a, ps, l', kind, x) {
      assert Tracked(a, ps, l, kind, x) && KeepsInHand(a, ps, l, l', kind, x);
      assert DueStays(l, l');
      AwaitsStays(l, l', kind, x);
    }
  }

  ghost predicate KeepsInHand(a: Site, ps: Partitions, l: Local, l': Local, kind: TargetType, x: DerivedDefinition) {
    kind != Data && x in Definitions(a.p, kind) && a.home(Target(kind, x.id)) == a.route && InHand(l.workPc, kind, x) ==>
      InHand(l'.workPc, kind, x) || Current(a.p, ps, kind, x) || Awaits(l', kind, x)
  }

  /** Everything that reads a stored value of the route belongs to the route and has an input. */
  lemma DependentsAssigned(a: Site, ps: Partitions, kind: TargetType, id: Id)
    requires OnOneRoute(a.p, a.home) && kind != Data
    requires a.home(Target(InputKind(kind), id)) == a.route && Get(a.p, ps, Target(InputKind(kind), id)).Some?
    ensures AllAssigned(a, ps, kind, Dependents(Definitions(a.p, kind), id))
  {
    var xs := Dependents(Definitions(a.p, kind), id);
    forall i | 0 <= i < |xs| ensures Assigned(a, ps, kind, xs[i]) {
      var x := xs[i];
      DependentsMembers(Definitions(a.p, kind), id, x);
      assert DerivedAtHome(a.p, a.home, kind, x);
      var j :| 0 <= j < |x.required| && x.required[j] == id;
      assert Get(a.p, ps, Target(InputKind(kind), x.required[j])).Some?;
    }
  }

  lemma WorkTells(a: Site, ps: Partitions, l: Local)
    requires OnOneRoute(a.p, a.home) && LocalOk(a, ps, l) && l.workPc.Told?
    ensures LocalOk(a, ps, WorkStep(a.p, ps, l))
  {
    var l' := WorkStep(a.p, ps, l);
    DependentsAssigned(a, ps, Capability, l.workPc.d);
    forall kind, x ensures KeepsInHand(a, ps, l, l', kind, x) {
      DependentsMembers(a.p.capabilities, l.workPc.d, x);
    }
    HandsOn(a, ps, l, l');
  }

  lemma WorkTakesNext(a: Site, ps: Partitions, l: Local)
    requires LocalOk(a, ps, l) && l.workPc.Next?
    ensures LocalOk(a, ps, WorkStep(a.p, ps, l))
  {
    var l' := WorkStep(a.p, ps, l);
    var fs, todo := l.workPc.fs, l.workPc.todo;
    if l'.workPc.Reading? {
      assert Assigned(a, ps, l'.workPc.kind, l'.workPc.x);
      forall id ensures FreshAt(a.p, ps, l'.workPc.kind, l'.workPc.x, 0, map[], id) {
      }
    }
    forall kind, x ensures KeepsInHand(a, ps, l, l', kind, x) {
      assert fs != [] && x in fs ==> x == fs[0] || x in fs[1..];
      assert todo != [] && x in todo ==> x == todo[0] || x in todo[1..];
    }
    HandsOn(a, ps, l, l');
  }

  // Reading.

  /** A partition that a capability reads holds only data numbered for it. */
  lemma ReadPartitionIsTidy(p: ProductDefinition, ps: Partitions, c: DerivedDefinition, k: nat, id: Id)
    requires Valid(p) && Tidy(p, ps) && c in p.capabilities && k < |RequiredDomains(p, c.id)|
    requires id in PartitionOf(ps, RequiredDomains(p, c.id)[k])
    ensures DataDomainId(p, id) == RequiredDomains(p, c.id)[k]
  {
    CapabilityCover(p, c);
    var ds := RequiredDomains(p, c.id);
    assert IsDomainOfSome(p, ds[k], c.required);
    var d :| d in c.required && DataDomainId(p, d) == ds[k];
    TidyAt(p, ps, Target(Data, d), id);
  }

  lemma SeenOnlyReadNext(p: ProductDefinition, ps: Partitions, kind: TargetType, x: DerivedDefinition, k: nat, seen: Partition)
    requires Valid(p) && Tidy(p, ps) && kind != Data && x in Definitions(p, kind) && k < Reads(p, kind, x)
    requires SeenOnlyRead(p, kind, x, k, seen)
    ensures SeenOnlyRead(p, kind, x, k + 1, ReadOne(p, ps, kind, x, k, seen))
  {
    var seen' := ReadOne(p, ps, kind, x, k, seen);
    forall id | id in seen' ensures ReadSoFar(p, kind, x, k + 1, id) {
      if id in seen {
        assert ReadSoFar(p, kind, x, k, id);
      } else if kind == Facade {
        assert x.required[k] == id;
      } else {
        ReadPartitionIsTidy(p, ps, x, k, id);
      }
    }
  }

  lemma FreshNextFacade(p: ProductDefinition, ps: Partitions, x: DerivedDefinition, k: nat, seen: Partition)
    requires k < |x.required| && Fresh(p, ps, Facade, x, k, seen) && SeenOnlyRead(p, Facade, x, k, seen)
    ensures Fresh(p, ps, Facade, x, k + 1, ReadOne(p, ps, Facade, x, k, seen))
  {
    var seen' := ReadOne(p, ps, Facade, x, k, seen);
    var k' := k + 1;
    forall id ensures FreshAt(p, ps, Facade, x, k', seen', id) {
      assert FreshAt(p, ps, Facade, x, k, seen, id);
      if ReadSoFar(p, Facade, x, k + 1, id) && !ReadSoFar(p, Facade, x, k, id) {
        assert id == x.required[k];
      }
    }
  }

  lemma FreshNextCapability(p: ProductDefinition, ps: Partitions, x: DerivedDefinition, k: nat, seen: Partition)
    requires Valid(p) && Separated(p) && Tidy(p, ps) && x in p.capabilities && k < |RequiredDomains(p, x.id)|
    requires Fresh(p, ps, Capability, x, k, seen) && SeenOnlyRead(p, Capability, x, k, seen)
    ensures Fresh(p, ps, Capability, x, k + 1, ReadOne(p, ps, Capability, x, k, seen))
  {
    var seen' := ReadOne(p, ps, Capability, x, k, seen);
    CapabilityCover(p, x);
    var k' := k + 1;
    forall id ensures FreshAt(p, ps, Capability, x, k', seen', id) {
      assert FreshAt(p, ps, Capability, x, k, seen, id);
      if id in x.required {
        FreshInputNext(p, ps, x, k, seen, id);
      }
    }
  }

  lemma FreshInputNext(p: ProductDefinition, ps: Partitions, x: DerivedDefinition, k: nat, seen: Partition, id: Id)
    requires Valid(p) && Separated(p) && Tidy(p, ps) && x in p.capabilities && k < |RequiredDomains(p, x.id)|
    requires id in x.required && IsCover(p, RequiredDomains(p, x.id), x.required) && Defined(p, Target(Data, id))
    requires FreshAt(p, ps, Capability, x, k, seen, id) && SeenOnlyRead(p, Capability, x, k, seen)
    ensures FreshAt(p, ps, Capability, x, k + 1, ReadOne(p, ps, Capability, x, k, seen), id)
  {
    var ds := RequiredDomains(p, x.id);
    assert Apart(p, Target(Data, id), Target(Data, id));
    if ReadSoFar(p, Capability, x, k, id) {
      if id in PartitionOf(ps, ds[k]) {
        ReadPartitionIsTidy(p, ps, x, k, id);
      }
    } else if ReadSoFar(p, Capability, x, k + 1, id) {
      assert DataDomainId(p, id) == ds[k];
      assert id !in seen;
    }
  }

  lemma WorkReads(a: Site, ps: Partitions, l: Local)
    requires Valid(a.p) && Separated(a.p) && Tidy(a.p, ps) && LocalOk(a, ps, l)
    requires l.workPc.Reading? && l.workPc.k < Reads(a.p, l.workPc.kind, l.workPc.x)
    ensures LocalOk(a, ps, WorkStep(a.p, ps, l))
  {
    var l' := WorkStep(a.p, ps, l);
    var pc := l.workPc;
    SeenOnlyReadNext(a.p, ps, pc.kind, pc.x, pc.k, pc.seen);
    if Fresh(a.p, ps, pc.kind, pc.x, pc.k, pc.seen) {
      if pc.kind == Facade {
        FreshNextFacade(a.p, ps, pc.x, pc.k, pc.seen);
      } else {
        FreshNextCapability(a.p, ps, pc.x, pc.k, pc.seen);
      }
    }
    assert DueStays(l, l');
    AwaitsStays(l, l', pc.kind, pc.x);
    forall kind, x ensures KeepsInHand(a, ps, l, l', kind, x) {
    }
    HandsOn(a, ps, l, l');
  }

  // Deciding.

  lemma {:induction false} SeenSnapshotIsInput(p: ProductDefinition, ps: Partitions, kind: TargetType, ids: seq<Id>,
          n: nat, seen: Partition)
    requires n <= |ids| && forall id :: id in ids ==> ValueIn(seen, id) == Get(p, ps, Target(kind, id))
    ensures SeenSnapshot(ids, n, seen) == InputSnapshot(p, ps, kind, ids, n)
  {
    if n != 0 {
      SeenSnapshotIsInput(p, ps, kind, ids, n - 1, seen);
      assert ids[n - 1] in ids;
    }
  }

  lemma AllRead(p: ProductDefinition, kind: TargetType, x: DerivedDefinition, id: Id)
    requires Valid(p) && Separated(p) && kind != Data && x in Definitions(p, kind) && id in x.required
    ensures ReadSoFar(p, kind, x, Reads(p, kind, x), id)
  {
    if kind == Facade {
      var i :| 0 <= i < |x.required| && x.required[i] == id;
      assert x.required[i] == id;
    } else {
      CapabilityCover(p, x);
      assert Apart(p, Target(Data, id), Target(Data, id));
      var ds := RequiredDomains(p, x.id);
      var i :| 0 <= i < |ds| && ds[i] == DataDomainId(p, id);
      assert ds[i] == DataDomainId(p, id);
    }
  }

  /** A complete fresh snapshot builds the value that the store implies now. */
  lemma FreshDerives(p: ProductDefinition, ps: Partitions, kind: TargetType, x: DerivedDefinition, seen: Partition)
    requires Valid(p) && Separated(p) && kind != Data && x in Definitions(p, kind)
    requires Fresh(p, ps, kind, x, Reads(p, kind, x), seen)
    ensures DeriveSeen(x, seen) == Derive(p, ps, kind, x)
  {
    forall id | id in x.required ensures ValueIn(seen, id) == Get(p, ps, Target(InputKind(kind), id)) {
      AllRead(p, kind, x, id);
      assert FreshAt(p, ps, kind, x, Reads(p, kind, x), seen, id);
    }
    SeenSnapshotIsInput(p, ps, InputKind(kind), x.required, |x.required|, seen);
  }

  lemma WorkDecides(a: Site, ps: Partitions, l: Local)
    requires Valid(a.p) && Separated(a.p) && LocalOk(a, ps, l)
    requires l.workPc.Reading? && l.workPc.k == Reads(a.p, l.workPc.kind, l.workPc.x)
    ensures LocalOk(a, ps, WorkStep(a.p, ps, l))
  {
    var l' := WorkStep(a.p, ps, l);
    var pc := l.workPc;
    if Fresh(a.p, ps, pc.kind, pc.x, pc.k, pc.seen) {
      FreshDerives(a.p, ps, pc.kind, pc.x, pc.seen);
    }
    assert DueStays(l, l');
    AwaitsStays(l, l', pc.kind, pc.x);
    DefinedByMembership(a.p, pc.kind, pc.x);
    var t := Target(pc.kind, pc.x.id);
    assert Apart(a.p, t, t);
    forall kind, x ensures KeepsInHand(a, ps, l, l', kind, x) {
    }
    HandsOn(a, ps, l, l');
  }

  // Writing and going on.

  lemma WorkWrites(a: Site, ps: Partitions, l: Local)
    requires Valid(a.p) && Separated(a.p) && LocalOk(a, ps, l) && l.workPc.Decided?
    ensures LocalOk(a, WorkWrite(a.p, ps, l), WorkStep(a.p, ps, l))
  {
    var pc := l.workPc;
    var t := Target(pc.kind, pc.x.id);
    var ps', l' := WorkWrite(a.p, ps, l), WorkStep(a.p, ps, l);
    DefinedByMembership(a.p, pc.kind, pc.x);
    SetWritesOnly(a.p, ps, t, pc.v);
    SetKeepsOthers(a.p, ps, t, pc.v, t);
    AssignedStays(a, ps, ps', t, Facade, pc.fs);
    AssignedStays(a, ps, ps', t, Capability, pc.todo);
    InputStays(a.p, ps, ps', t, pc.kind, pc.x);
    if l.storePc.StoreWritten? {
      LivesStoredStays(a, ps, ps', t, l.storePc.writtenId);
    }
    forall d ensures QueuedOk(a, ps', l', d) {
      assert QueuedOk(a, ps, l, d);
      if LivesStored(a, ps, d) {
        LivesStoredStays(a, ps, ps', t, d);
      }
    }
    forall kind, x ensures Tracked(a, ps', l', kind, x) {
      assert Tracked(a, ps, l, kind, x);
      WorkWriteTracks(a, ps, ps', l, l', kind, x);
    }
  }

  lemma WorkWriteTracks(a: Site, ps: Partitions, ps': Partitions, l: Local, l': Local, kind: TargetType, x: DerivedDefinition)
    requires Valid(a.p) && Separated(a.p) && WorkOk(a, ps, l) && l.workPc.Decided? && Tracked(a, ps, l, kind, x)
    requires l' == WorkStep(a.p, ps, l)
    requires var pc := l.workPc;
             WritesOnly(a.p, ps, ps', Target(pc.kind, pc.x.id)) && Get(a.p, ps', Target(pc.kind, pc.x.id)) == Some(pc.v)
    ensures Tracked(a, ps', l', kind, x)
  {
    var pc := l.workPc;
    if kind != Data && x in Definitions(a.p, kind) && a.home(Target(kind, x.id)) == a.route {
      assert DueStays(l, l');
      AwaitsStays(l, l', kind, x);
      InputStays(a.p, ps, ps', Target(pc.kind, pc.x.id), kind, x);
      if pc.kind == kind && pc.x.id == x.id {
        SameIdSameDefinition(a.p, kind, pc.x, x);
        UnreadWrite(a.p, ps, ps', Target(kind, x.id), kind, x);
      } else {
        OtherWriteTracks(a, ps, ps', l, l', kind, x);
      }
    }
  }

  lemma OtherWriteTracks(a: Site, ps: Partitions, ps': Partitions, l: Local, l': Local, kind: TargetType, x: DerivedDefinition)
    requires Valid(a.p) && Separated(a.p) && WorkOk(a, ps, l) && l.workPc.Decided? && Tracked(a, ps, l, kind, x)
    requires l' == WorkStep(a.p, ps, l)
    requires var pc := l.workPc;
             WritesOnly(a.p, ps, ps', Target(pc.kind, pc.x.id)) && Get(a.p, ps', Target(pc.kind, pc.x.id)) == Some(pc.v)
    requires kind != Data && x in Definitions(a.p, kind) && a.home(Target(kind, x.id)) == a.route
    requires Target(l.workPc.kind, l.workPc.x.id) != Target(kind, x.id)
    requires HasInput(a.p, ps, kind, x) ==> HasInput(a.p, ps', kind, x)
    requires Awaits(l, kind, x) ==> Awaits(l', kind, x)
    ensures Tracked(a, ps', l', kind, x)
  {
    var t := Target(l.workPc.kind, l.workPc.x.id);
    assert Same(a.p, ps, ps', Target(kind, x.id));
    if !(kind == Facade && t.kind == Capability && t.id in x.required) {
      UnreadWrite(a.p, ps, ps', t, kind, x);
    }
  }

  lemma WorkGoesOn(a: Site, ps: Partitions, l: Local)
    requires OnOneRoute(a.p, a.home) && LocalOk(a, ps, l) && l.workPc.Stored?
    ensures LocalOk(a, ps, WorkStep(a.p, ps, l))
  {
    var l' := WorkStep(a.p, ps, l);
    var pc := l.workPc;
    if pc.kind == Capability {
      DependentsAssigned(a, ps, Facade, pc.x.id);
    }
    forall kind, x ensures KeepsInHand(a, ps, l, l', kind, x) {
      DependentsMembers(a.p.facades, pc.x.id, x);
    }
    HandsOn(a, ps, l, l');
  }

  lemma WorkStepKeeps(a: Site, ps: Partitions, l: Local)
    requires Valid(a.p) && Separated(a.p) && UsesValidIds(a.p) && OnOneRoute(a.p, a.home)
    requires Tidy(a.p, ps) && LocalOk(a, ps, l)
    ensures LocalOk(a, WorkWrite(a.p, ps, l), WorkStep(a.p, ps, l))
  {
    match l.workPc
    case Resting => if l.capabilityQueue != [] { WorkPops(a, ps, l); }
    case Told(_) => WorkTells(a, ps, l);
    case Next(_, _) => WorkTakesNext(a, ps, l);
    case Reading(kind, x, k, _, _, _) =>
      if k < Reads(a.p, kind, x) {
        WorkReads(a, ps, l);
      } else {
        WorkDecides(a, ps, l);
      }
    case Decided(_, _, _, _, _) => WorkWrites(a, ps, l);
    case Stored(_, _, _, _) => WorkGoesOn(a, ps, l);
  }

  // The whole system.

  ghost predicate RouteOk(p: ProductDefinition, home: Target -> string, w: World, route: string) {
    LocalOk(Site(p, home, route), w.ps, LocalOf(w, route))
  }

  ghost predicate WorldOk(p: ProductDefinition, home: Target -> string, w: World) {
    Tidy(p, w.ps) && forall route :: RouteOk(p, home, w, route)
  }

  /** One route's step on one of its own values leaves every other route as it was. */
  lemma OthersOk(p: ProductDefinition, home: Target -> string, w: World, w': World, route: string)
    requires OnOneRoute(p, home) && WorldOk(p, home, w)
    requires forall r :: r != route ==> LocalOf(w', r) == LocalOf(w, r)
    requires forall u :: home(u) != route ==> Same(p, w.ps, w'.ps, u)
    ensures forall r :: r != route ==> RouteOk(p, home, w', r)
  {
    forall r | r != route ensures RouteOk(p, home, w', r) {
      assert RouteOk(p, home, w, r);
      LocalOkElsewhere(Site(p, home, r), w.ps, w'.ps, LocalOf(w, r));
    }
  }

  lemma StoreMoveKeeps(p: ProductDefinition, home: Target -> string, w: World, route: string)
    requires Valid(p) && Separated(p) && OnOneRoute(p, home) && WorldOk(p, home, w)
    ensures WorldOk(p, home, Moved(p, w, StoreMove(route)))
  {
    var a, l := Site(p, home, route), LocalOf(w, route);
    var w' := Moved(p, w, StoreMove(route));
    assert RouteOk(p, home, w, route);
    StoreStepKeeps(a, w.ps, l);
    if l.storePc.StoreDecided? {
      var t := Target(Data, l.storePc.id);
      SetWritesOnly(p, w.ps, t, l.storePc.v);
      SetKeepsTidy(p, w.ps, t, l.storePc.v);
    }
    OthersOk(p, home, w, w', route);
    assert RouteOk(p, home, w', route);
  }

  lemma WorkMoveKeeps(p: ProductDefinition, home: Target -> string, w: World, route: string)
    requires Valid(p) && Separated(p) && UsesValidIds(p) && OnOneRoute(p, home) && WorldOk(p, home, w)
    ensures WorldOk(p, home, Moved(p, w, WorkMove(route)))
  {
    var a, l := Site(p, home, route), LocalOf(w, route);
    var w' := Moved(p, w, WorkMove(route));
    assert RouteOk(p, home, w, route);
    WorkStepKeeps(a, w.ps, l);
    if l.workPc.Decided? {
      var t := Target(l.workPc.kind, l.workPc.x.id);
      DefinedByMembership(p, l.workPc.kind, l.workPc.x);
      SetWritesOnly(p, w.ps, t, l.workPc.v);
      SetKeepsTidy(p, w.ps, t, l.workPc.v);
    }
    OthersOk(p, home, w, w', route);
    assert RouteOk(p, home, w', route);
  }

  lemma ArriveKeeps(p: ProductDefinition, home: Target -> string, w: World, item: RIMDataItem)
    requires OnOneRoute(p, home) && WorldOk(p, home, w)
    ensures WorldOk(p, home, Moved(p, w, Arrive(item)))
  {
    var w' := Moved(p, w, Arrive(item));
    if Accepted(p, item).Some? {
      var route := RouteNameOf(p, item.id).value;
      assert RouteOk(p, home, w, route) && DataAtHome(p, home, item.id);
      ArrivalKeepsLocal(Site(p, home, route), w.ps, LocalOf(w, route), Accepted(p, item).value);
      OthersOk(p, home, w, w', route);
      assert RouteOk(p, home, w', route);
    }
  }

  lemma ArrivalKeepsLocal(a: Site, ps: Partitions, l: Local, e: RIMDataItem)
    requires LocalOk(a, ps, l) && Lives(a, e.id)
    ensures LocalOk(a, ps, l.(storeQueue := Inserted(StorePolicy(a.p, a.route), l.storeQueue, e)))
  {
    var l' := l.(storeQueue := Inserted(StorePolicy(a.p, a.route), l.storeQueue, e));
    ArrivalLives(a, StorePolicy(a.p, a.route), l.storeQueue, e);
    WorkSideKept(a, ps, l, l');
    forall d ensures QueuedOk(a, ps, l', d) {
      assert QueuedOk(a, ps, l, d);
    }
  }

  lemma InsertedIsOldOrNew(policy: Policy<RIMDataItem>, q: seq<RIMDataItem>, e: RIMDataItem, x: RIMDataItem)
    requires (policy.Fifo? || policy.Coalescing?) && x in Inserted(policy, q, e)
    ensures x in q || x == e
  {
  }

  lemma ArrivalLives(a: Site, policy: Policy<RIMDataItem>, q: seq<RIMDataItem>, e: RIMDataItem)
    requires (forall i :: 0 <= i < |q| ==> Lives(a, q[i].id)) && Lives(a, e.id)
    requires policy.Fifo? || policy.Coalescing?
    ensures forall i :: 0 <= i < |Inserted(policy, q, e)| ==> Lives(a, Inserted(policy, q, e)[i].id)
  {
    var q' := Inserted(policy, q, e);
    forall i | 0 <= i < |q'| ensures Lives(a, q'[i].id) {
      InsertedIsOldOrNew(policy, q, e, q'[i]);
    }
  }

  lemma MoveKeeps(p: ProductDefinition, home: Target -> string, w: World, move: Move)
    requires Valid(p) && Separated(p) && UsesValidIds(p) && OnOneRoute(p, home) && WorldOk(p, home, w)
    ensures WorldOk(p, home, Moved(p, w, move))
  {
    match move
    case Arrive(item) => ArriveKeeps(p, home, w, item);
    case StoreMove(route) => StoreMoveKeeps(p, home, w, route);
    case WorkMove(route) => WorkMoveKeeps(p, home, w, route);
    case TakePublished =>
      var w' := Moved(p, w, move);
      forall route ensures RouteOk(p, home, w', route) {
        assert RouteOk(p, home, w, route);
      }
  }

  lemma StartOk(p: ProductDefinition, home: Target -> string)
    ensures WorldOk(p, home, START)
  {
    EmptyIsTidy(p);
    forall route ensures RouteOk(p, home, START, route) {
      forall kind, x ensures Tracked(Site(p, home, route), map[], IDLE, kind, x) {
      }
    }
  }

  /** Main result: in every interleaving, on every route, each derived value with an input is up to
      date, in its worker's hands, or has an input that is due. */
  lemma {:induction false} AlwaysOk(p: ProductDefinition, home: Target -> string, moves: seq<Move>)
    requires Valid(p) && Separated(p) && UsesValidIds(p) && OnOneRoute(p, home)
    ensures WorldOk(p, home, Reach(p, moves))
  {
    if moves == [] {
      StartOk(p, home);
    } else {
      AlwaysOk(p, home, moves[..|moves| - 1]);
      MoveKeeps(p, home, Reach(p, moves[..|moves| - 1]), moves[|moves| - 1]);
    }
  }

  /** Nothing is due and no worker holds anything. */
  ghost predicate Calm(w: World) {
    forall route :: CalmOn(w, route)
  }

  ghost predicate CalmOn(w: World, route: string) {
    var l := LocalOf(w, route);
    l.capabilityQueue == [] && l.storePc.StoreIdle? && l.workPc.Resting?
  }

  /** Main result: whenever the queues are empty and the workers idle, however their steps were
      interleaved, the stored derived values are exactly the batch recomputation from the data. */
  lemma CalmHoldsBatch(p: ProductDefinition, home: Target -> string, moves: seq<Move>)
    requires Valid(p) && Separated(p) && UsesValidIds(p) && ExactDiffs(p) && OnOneRoute(p, home)
    requires Calm(Reach(p, moves))
    ensures HoldsBatch(p, Reach(p, moves).ps)
  {
    var w := Reach(p, moves);
    AlwaysOk(p, home, moves);
    forall kind, x | kind != Data ensures SettledIn(p, w.ps, kind, x) {
      var route := home(Target(kind, x.id));
      assert RouteOk(p, home, w, route) && CalmOn(w, route);
      assert Tracked(Site(p, home, route), w.ps, LocalOf(w, route), kind, x);
    }
    SettledIsBatch(p, w.ps);
  }
}
