/** Fine-grained consistency: if all data under a capability, and all capabilities under a facade,
    belong to one route, then in every interleaving each derived value with an input is up to date,
    or has an input on its way, or is in the hands of its route's worker. */
module OneRoute {
  import opened Values
  import opened Product
  import opened Storage
  import opened Context
  import opened Partitioning
  import opened Snapshots
  import opened Derivation
  import opened Pipeline
  import opened Interleaving

  // Every stored value has a home route.

  /** `home` gives each data item its own route, and each derived value the home of all its inputs. */
  ghost predicate OnOneRoute(p: ProductDefinition, home: Target -> string) {
    && (forall d :: DataAtHome(p, home, d))
    && (forall kind, x :: DerivedAtHome(p, home, kind, x))
  }

  ghost predicate DataAtHome(p: ProductDefinition, home: Target -> string, d: Id) {
    FindDataItem(p, d).Some? ==> RouteNameOf(p, d) == Some(home(Target(Data, d)))
  }

  ghost predicate DerivedAtHome(p: ProductDefinition, home: Target -> string, kind: TargetType, x: DerivedDefinition) {
    kind != Data && x in Definitions(p, kind) ==>
      forall id :: id in x.required ==> home(Target(InputKind(kind), id)) == home(Target(kind, x.id))
  }

  /** The parts of a proof about one route that never change. */
  datatype Site = Site(p: ProductDefinition, home: Target -> string, route: string)

  ghost predicate Lives(a: Site, d: Id) {
    FindDataItem(a.p, d).Some? && a.home(Target(Data, d)) == a.route
  }

  ghost predicate LivesStored(a: Site, ps: Partitions, d: Id) {
    Lives(a, d) && Get(a.p, ps, Target(Data, d)).Some?
  }

  // What holds of one route's queues and workers.

  /** `d` is due: it waits in the capability queue, or has been written and is about to be pushed. */
  ghost predicate Due(l: Local, d: Id) {
    Waiting(l.capabilityQueue, d) || l.storePc == StoreWritten(d)
  }

  ghost predicate Awaits(l: Local, kind: TargetType, x: DerivedDefinition) {
    kind == Capability && exists d :: d in x.required && Due(l, d)
  }

  ghost predicate InRound(kind: TargetType, x: DerivedDefinition, fs: seq<DerivedDefinition>, todo: seq<DerivedDefinition>) {
    if kind == Facade then x in fs else x in todo
  }

  /** The worker holds `x`, or something that will make it take `x` up. */
  ghost predicate InHand(pc: WorkPc, kind: TargetType, x: DerivedDefinition) {
    match pc
    case Resting => false
    case Told(d) => kind == Capability && d in x.required
    case Next(fs, todo) => InRound(kind, x, fs, todo)
    case Reading(kind', y, _, _, fs, todo) => (kind' == kind && y == x) || InRound(kind, x, fs, todo)
    case Decided(kind', y, _, fs, todo) => (kind' == kind && y == x) || InRound(kind, x, fs, todo)
    case Stored(kind', y, fs, todo) =>
      (kind' == Capability && kind == Facade && y.id in x.required) || InRound(kind, x, fs, todo)
  }

  ghost predicate Assigned(a: Site, ps: Partitions, kind: TargetType, x: DerivedDefinition) {
    kind != Data && x in Definitions(a.p, kind) && a.home(Target(kind, x.id)) == a.route && HasInput(a.p, ps, kind, x)
  }

  ghost predicate AllAssigned(a: Site, ps: Partitions, kind: TargetType, xs: seq<DerivedDefinition>) {
    forall i :: 0 <= i < |xs| ==> Assigned(a, ps, kind, xs[i])
  }

  /** The k-th read and those before it cover `id`. */
  ghost predicate ReadSoFar(p: ProductDefinition, kind: TargetType, x: DerivedDefinition, k: nat, id: Id) {
    if kind == Facade then exists i :: 0 <= i < k && i < |x.required| && x.required[i] == id
    else exists i :: 0 <= i < k && i < |RequiredDomains(p, x.id)| && RequiredDomains(p, x.id)[i] == DataDomainId(p, id)
  }

  /** What was seen of the inputs read so far is what is stored now. */
  ghost predicate Fresh(p: ProductDefinition, ps: Partitions, kind: TargetType, x: DerivedDefinition, k: nat, seen: Partition) {
    forall id :: FreshAt(p, ps, kind, x, k, seen, id)
  }

  ghost predicate FreshAt(p: ProductDefinition, ps: Partitions, kind: TargetType, x: DerivedDefinition, k: nat, seen: Partition, id: Id) {
    id in x.required && ReadSoFar(p, kind, x, k, id) ==> ValueIn(seen, id) == Get(p, ps, Target(InputKind(kind), id))
  }

  ghost predicate SeenOnlyRead(p: ProductDefinition, kind: TargetType, x: DerivedDefinition, k: nat, seen: Partition) {
    forall id :: id in seen ==> ReadSoFar(p, kind, x, k, id)
  }

  ghost predicate StoreSideOk(a: Site, ps: Partitions, l: Local) {
    && (forall i :: 0 <= i < |l.storeQueue| ==> Lives(a, l.storeQueue[i].id))
    && (l.storePc.StorePopped? ==> Lives(a, l.storePc.item.id))
    && (l.storePc.StoreDecided? ==> Lives(a, l.storePc.id))
    && (l.storePc.StoreWritten? ==> LivesStored(a, ps, l.storePc.writtenId))
  }

  ghost predicate QueuedOk(a: Site, ps: Partitions, l: Local, d: Id) {
    Waiting(l.capabilityQueue, d) ==> LivesStored(a, ps, d)
  }

  ghost predicate WorkOk(a: Site, ps: Partitions, l: Local) {
    match l.workPc
    case Resting => true
    case Told(d) => LivesStored(a, ps, d)
    case Next(fs, todo) => AllAssigned(a, ps, Facade, fs) && AllAssigned(a, ps, Capability, todo)
    case Reading(kind, x, k, seen, fs, todo) =>
      && AllAssigned(a, ps, Facade, fs) && AllAssigned(a, ps, Capability, todo)
      && Assigned(a, ps, kind, x) && (kind == Capability ==> fs == [])
      && k <= Reads(a.p, kind, x) && SeenOnlyRead(a.p, kind, x, k, seen)
      && (Fresh(a.p, ps, kind, x, k, seen) || Awaits(l, kind, x))
    case Decided(kind, x, v, fs, todo) =>
      && AllAssigned(a, ps, Facade, fs) && AllAssigned(a, ps, Capability, todo)
      && Assigned(a, ps, kind, x) && (kind == Capability ==> fs == [])
      && (v == Derive(a.p, ps, kind, x) || Awaits(l, kind, x))
    case Stored(kind, x, fs, todo) =>
      && AllAssigned(a, ps, Facade, fs) && AllAssigned(a, ps, Capability, todo)
      && Assigned(a, ps, kind, x) && (kind == Capability ==> fs == [])
      && Get(a.p, ps, Target(kind, x.id)).Some?
  }

  ghost predicate Tracked(a: Site, ps: Partitions, l: Local, kind: TargetType, x: DerivedDefinition) {
    kind != Data && x in Definitions(a.p, kind) && a.home(Target(kind, x.id)) == a.route ==>
      && (HasInput(a.p, ps, kind, x) ==> Current(a.p, ps, kind, x) || InHand(l.workPc, kind, x) || Awaits(l, kind, x))
      && (Get(a.p, ps, Target(kind, x.id)).Some? ==> HasInput(a.p, ps, kind, x))
  }

  ghost predicate LocalOk(a: Site, ps: Partitions, l: Local) {
    && StoreSideOk(a, ps, l)
    && (forall d :: QueuedOk(a, ps, l, d))
    && WorkOk(a, ps, l)
    && (forall kind, x :: Tracked(a, ps, l, kind, x))
  }

  // A route is not disturbed by what happens elsewhere.

  ghost predicate SameAtHome(a: Site, ps: Partitions, ps': Partitions) {
    forall u :: a.home(u) == a.route ==> Same(a.p, ps, ps', u)
  }

  lemma SameInputsAtHome(a: Site, ps: Partitions, ps': Partitions, kind: TargetType, x: DerivedDefinition)
    requires OnOneRoute(a.p, a.home) && SameAtHome(a, ps, ps')
    requires kind != Data && x in Definitions(a.p, kind) && a.home(Target(kind, x.id)) == a.route
    ensures SameInputs(a.p, ps, ps', kind, x)
    ensures Derive(a.p, ps, kind, x) == Derive(a.p, ps', kind, x)
    ensures HasInput(a.p, ps, kind, x) <==> HasInput(a.p, ps', kind, x)
    ensures Same(a.p, ps, ps', Target(kind, x.id))
  {
    assert DerivedAtHome(a.p, a.home, kind, x);
    assert forall id :: id in x.required ==> Same(a.p, ps, ps', Target(InputKind(kind), id));
    SameInputsSameDerive(a.p, ps, ps', kind, x);
  }

  lemma AssignedElsewhere(a: Site, ps: Partitions, ps': Partitions, kind: TargetType, xs: seq<DerivedDefinition>)
    requires OnOneRoute(a.p, a.home) && SameAtHome(a, ps, ps') && AllAssigned(a, ps, kind, xs)
    ensures AllAssigned(a, ps', kind, xs)
  {
    forall i | 0 <= i < |xs| ensures Assigned(a, ps', kind, xs[i]) {
      SameInputsAtHome(a, ps, ps', kind, xs[i]);
    }
  }

  lemma WorkOkElsewhere(a: Site, ps: Partitions, ps': Partitions, l: Local)
    requires OnOneRoute(a.p, a.home) && SameAtHome(a, ps, ps') && WorkOk(a, ps, l)
    ensures WorkOk(a, ps', l)
  {
    match l.workPc
    case Resting =>
    case Told(d) => assert Same(a.p, ps, ps', Target(Data, d));
    case Next(fs, todo) =>
      AssignedElsewhere(a, ps, ps', Facade, fs);
      AssignedElsewhere(a, ps, ps', Capability, todo);
    case Reading(kind, x, k, seen, fs, todo) =>
      AssignedElsewhere(a, ps, ps', Facade, fs);
      AssignedElsewhere(a, ps, ps', Capability, todo);
      SameInputsAtHome(a, ps, ps', kind, x);
      if Fresh(a.p, ps, kind, x, k, seen) {
        FreshSameInputs(a.p, ps, ps', kind, x, k, seen);
      }
    case Decided(kind, x, v, fs, todo) =>
      AssignedElsewhere(a, ps, ps', Facade, fs);
      AssignedElsewhere(a, ps, ps', Capability, todo);
      SameInputsAtHome(a, ps, ps', kind, x);
    case Stored(kind, x, fs, todo) =>
      AssignedElsewhere(a, ps, ps', Facade, fs);
      AssignedElsewhere(a, ps, ps', Capability, todo);
      SameInputsAtHome(a, ps, ps', kind, x);
  }

  lemma FreshSameInputs(p: ProductDefinition, ps: Partitions, ps': Partitions, kind: TargetType,
          x: DerivedDefinition, k: nat, seen: Partition)
    requires SameInputs(p, ps, ps', kind, x) && Fresh(p, ps, kind, x, k, seen)
    ensures Fresh(p, ps', kind, x, k, seen)
  {
    forall id ensures FreshAt(p, ps', kind, x, k, seen, id) {
      assert FreshAt(p, ps, kind, x, k, seen, id);
    }
  }

  /** Main framing lemma. */
  lemma LocalOkElsewhere(a: Site, ps: Partitions, ps': Partitions, l: Local)
    requires OnOneRoute(a.p, a.home) && SameAtHome(a, ps, ps') && LocalOk(a, ps, l)
    ensures LocalOk(a, ps', l)
  {
    WorkOkElsewhere(a, ps, ps', l);
    if l.storePc.StoreWritten? {
      assert Same(a.p, ps, ps', Target(Data, l.storePc.writtenId));
    }
    forall d ensures QueuedOk(a, ps', l, d) {
      assert QueuedOk(a, ps, l, d);
      assert Lives(a, d) ==> Same(a.p, ps, ps', Target(Data, d));
    }
    forall kind, x ensures Tracked(a, ps', l, kind, x) {
      assert Tracked(a, ps, l, kind, x);
      if kind != Data && x in Definitions(a.p, kind) && a.home(Target(kind, x.id)) == a.route {
        SameInputsAtHome(a, ps, ps', kind, x);
      }
    }
  }
}
