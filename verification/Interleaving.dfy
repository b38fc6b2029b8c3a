/** The pipeline at a finer grain: store workers and capability workers of different routes take
    single steps in any order.  A store worker pops, reads and decides, writes, and pushes in separate
    steps; a capability worker takes its snapshot one partition at a time, decides, writes and
    publishes in separate steps. */
module Interleaving {
  import opened Values
  import opened Queues
  import opened PublisherQueue
  import opened Product
  import opened Storage
  import opened Context
  import opened Partitioning
  import opened Evaluation
  import opened Pipeline

  datatype StorePc =
    | StoreIdle
    | StorePopped(item: RIMDataItem)
    | StoreDecided(id: Id, v: RIMValue)
    | StoreWritten(writtenId: Id)

  /** `fs` are the facades left in the inner round, `todo` the capabilities left in the outer one. */
  datatype WorkPc =
    | Resting
    | Told(d: Id)
    | Next(fs: seq<DerivedDefinition>, todo: seq<DerivedDefinition>)
    | Reading(kind: TargetType, x: DerivedDefinition, k: nat, seen: Partition, fs: seq<DerivedDefinition>, todo: seq<DerivedDefinition>)
    | Decided(kind: TargetType, x: DerivedDefinition, v: RIMValue, fs: seq<DerivedDefinition>, todo: seq<DerivedDefinition>)
    | Stored(kind: TargetType, x: DerivedDefinition, fs: seq<DerivedDefinition>, todo: seq<DerivedDefinition>)

  /** What belongs to one route: its two queues and its two workers. */
  datatype Local = Local(
    storeQueue: seq<RIMDataItem>, storePc: StorePc, capabilityQueue: seq<CapabilityInput>, workPc: WorkPc)

  const IDLE := Local([], StoreIdle, [], Resting)

  datatype World = World(ps: Partitions, locals: map<string, Local>, published: seq<PublisherInput>)

  const START := World(map[], map[], [])

  datatype Move =
    | Arrive(item: RIMDataItem)
    | StoreMove(route: string)
    | WorkMove(route: string)
    | TakePublished

  function LocalOf(w: World, route: string): Local {
    if route in w.locals then w.locals[route] else IDLE
  }

  function Announce(p: ProductDefinition, published: seq<PublisherInput>, t: Target): seq<PublisherInput> {
    Inserted(PLAIN, published, InputFor(p, t))
  }

  // Snapshots, one read at a time.

  function ValueIn(seen: Partition, id: Id): Option<RIMValue> {
    if id in seen then Some(seen[id]) else None
  }

  /** How many reads a snapshot takes: one per domain for a capability, one per input for a facade. */
  function Reads(p: ProductDefinition, kind: TargetType, x: DerivedDefinition): nat {
    if kind == Facade then |x.required| else |RequiredDomains(p, x.id)|
  }

  /** The k-th read.  What an earlier read found stays in front of what a later one finds. */
  function ReadOne(p: ProductDefinition, ps: Partitions, kind: TargetType, x: DerivedDefinition, k: nat, seen: Partition): Partition
    requires k < Reads(p, kind, x)
  {
    if kind == Facade then
      var id := x.required[k];
      match Get(p, ps, Target(Capability, id))
      case None => seen
      case Some(v) => if id in seen then seen else seen[id := v]
    else
      PartitionOf(ps, RequiredDomains(p, x.id)[k]) + seen
  }

  /** The snapshot that lists the first n inputs as they were seen. */
  function SeenSnapshot(ids: seq<Id>, n: nat, seen: Partition): RIMSnapshot
    requires n <= |ids|
  {
    if n == 0 then []
    else
      var before := SeenSnapshot(ids, n - 1, seen);
      match ValueIn(seen, ids[n - 1])
      case None => before
      case Some(v) => before + [RIMDataItem(ids[n - 1], v)]
  }

  function DeriveSeen(x: DerivedDefinition, seen: Partition): RIMValue {
    x.build(SeenSnapshot(x.required, |x.required|, seen))
  }

  // The steps.

  function StoreStep(p: ProductDefinition, route: string, ps: Partitions, l: Local): Local {
    match l.storePc
    case StoreIdle =>
      if l.storeQueue == [] then l
      else l.(storePc := StorePopped(l.storeQueue[0]), storeQueue := l.storeQueue[1..])
    case StorePopped(item) =>
      if Writes(p, ps, item) then
        l.(storePc := StoreDecided(item.id, StoredValue(FindDataItem(p, item.id).value, Get(p, ps, Target(Data, item.id)), item.value)))
      else
        l.(storePc := StoreIdle)
    case StoreDecided(id, v) =>
      l.(storePc := StoreWritten(id))
    case StoreWritten(id) =>
      l.(storePc := StoreIdle, capabilityQueue := Inserted(CapabilityPolicy(p, route), l.capabilityQueue, CapabilityInput(id)))
  }

  /** Only the step from Decided writes to the store. */
  function StoreWrite(p: ProductDefinition, ps: Partitions, l: Local): Partitions {
    match l.storePc
    case StoreDecided(id, v) => Set(p, ps, Target(Data, id), v)
    case _ => ps
  }

  function WorkStep(p: ProductDefinition, ps: Partitions, l: Local): Local {
    match l.workPc
    case Resting =>
      if l.capabilityQueue == [] then l
      else
        var d := l.capabilityQueue[0].changedDataId;
        l.(capabilityQueue := l.capabilityQueue[1..], workPc := if d == INVALID_DATA_ID then Resting else Told(d))
    case Told(d) =>
      l.(workPc := Next([], Dependents(p.capabilities, d)))
    case Next(fs, todo) =>
      l.(workPc :=
        if fs != [] then Reading(Facade, fs[0], 0, map[], fs[1..], todo)
        else if todo != [] then Reading(Capability, todo[0], 0, map[], [], todo[1..])
        else Resting)
    case Reading(kind, x, k, seen, fs, todo) =>
      l.(workPc :=
        if k < Reads(p, kind, x) then Reading(kind, x, k + 1, ReadOne(p, ps, kind, x, k, seen), fs, todo)
        else
          var t, v := Target(kind, x.id), DeriveSeen(x, seen);
          if DomainOf(p, t) != INVALID_DOMAIN && (Get(p, ps, t).None? || x.diff(Get(p, ps, t).value, v))
          then Decided(kind, x, v, fs, todo)
          else Next(fs, todo))
    case Decided(kind, x, v, fs, todo) =>
      l.(workPc := Stored(kind, x, fs, todo))
    case Stored(kind, x, fs, todo) =>
      l.(workPc := Next(if kind == Capability then Dependents(p.facades, x.id) else fs, todo))
  }

  function WorkWrite(p: ProductDefinition, ps: Partitions, l: Local): Partitions {
    match l.workPc
    case Decided(kind, x, v, _, _) => Set(p, ps, Target(kind, x.id), v)
    case _ => ps
  }

  function WorkAnnounce(p: ProductDefinition, published: seq<PublisherInput>, l: Local): seq<PublisherInput> {
    match l.workPc
    case Told(d) => Announce(p, published, Target(Data, d))
    case Stored(kind, x, _, _) => Announce(p, published, Target(kind, x.id))
    case _ => published
  }

  function Moved(p: ProductDefinition, w: World, move: Move): World {
    match move
    case Arrive(item) =>
      (match Accepted(p, item)
       case None => w
       case Some(accepted) =>
         var route := RouteNameOf(p, item.id).value;
         var l := LocalOf(w, route);
         w.(locals := w.locals[route := l.(storeQueue := Inserted(StorePolicy(p, route), l.storeQueue, accepted))]))
    case StoreMove(route) =>
      var l := LocalOf(w, route);
      w.(ps := StoreWrite(p, w.ps, l), locals := w.locals[route := StoreStep(p, route, w.ps, l)])
    case WorkMove(route) =>
      var l := LocalOf(w, route);
      w.(ps := WorkWrite(p, w.ps, l), published := WorkAnnounce(p, w.published, l),
         locals := w.locals[route := WorkStep(p, w.ps, l)])
    case TakePublished =>
      if w.published == [] then w else w.(published := w.published[1..])
  }

  function Reach(p: ProductDefinition, moves: seq<Move>): World {
    if moves == [] then START else Moved(p, Reach(p, moves[..|moves| - 1]), moves[|moves| - 1])
  }
}
