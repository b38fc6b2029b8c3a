/** One route's executor while it is started, fed and stopped: Start, Stop, the two worker threads and
    the callers that dispatch take single steps in any order. */
module StopOrder {
  import opened Values
  import opened Queues
  import opened Product
  import opened Storage
  import opened Partitioning
  import opened Evaluation
  import opened Pipeline
  import opened Interleaving

  /** Where Start stands: each worker checks its flag, sets it and spawns its thread.  Start may be
      called again once it has returned; giving a worker a second thread before the first was joined
      terminates the program. */
  datatype StartPc =
    | NotStarted | StoreUnchecked | StoreUnset | StoreUnspawned
    | CapabilityUnchecked | CapabilityUnset | CapabilityUnspawned | Started | Terminated
  {
    function Rank(): nat {
      match this
      case NotStarted => 0
      case StoreUnchecked => 1
      case StoreUnset => 2
      case StoreUnspawned => 3
      case CapabilityUnchecked => 4
      case CapabilityUnset => 5
      case CapabilityUnspawned => 6
      case Started => 7
      case Terminated => 0
    }
  }

  /** Where Stop stands: each worker has its flag checked and cleared, its queue shut down and its
      thread joined. */
  datatype StopPc =
    | NotStopped | StoreUntested | StoreUncleared | StoreUnshut | StoreUnjoined
    | CapabilityUntested | CapabilityUncleared | CapabilityUnshut | CapabilityUnjoined | Stopped
  {
    function Rank(): nat {
      match this
      case NotStopped => 0
      case StoreUntested => 1
      case StoreUncleared => 2
      case StoreUnshut => 3
      case StoreUnjoined => 4
      case CapabilityUntested => 5
      case CapabilityUncleared => 6
      case CapabilityUnshut => 7
      case CapabilityUnjoined => 8
      case Stopped => 9
    }
  }

  /** A thread tests its flag, waits for an item, and works on it. */
  datatype ThreadPc = Unborn | Testing | Waits | Working | Ended

  /** A worker's flag, its queue's shutdown, and whether its thread awaits a join; and what has
      happened: the flag was set at some time, Stop passed over the worker because it found the flag
      clear, and Start set the flag again after Stop had cleared it. */
  datatype Worker = Worker(running: bool, shut: bool, joinable: bool, wasSet: bool, passed: bool, restarted: bool)
  {
    function Raised(): Worker {
      this.(running := true, wasSet := true, restarted := wasSet)
    }
  }

  datatype Control = Control(start: StartPc, stop: StopPc, stoppedFlag: bool, store: Worker, capability: Worker)

  /** A worker with its queue; `late` counts the items it took after its flag was cleared. */
  datatype StoreSide = StoreSide(queue: seq<RIMDataItem>, thread: ThreadPc, pc: StorePc, late: nat)
  datatype CapabilitySide = CapabilitySide(queue: seq<CapabilityInput>, thread: ThreadPc, taken: Id, late: nat)

  /** `unprocessed` are the changes that were stored and not since taken by the capability worker,
      `refused` those whose push was refused. */
  datatype Executor = Executor(
    control: Control, store: StoreSide, capability: CapabilitySide, stage: Stage, unprocessed: set<Id>, refused: set<Id>)

  const ASLEEP := Worker(false, false, false, false, false, false)

  const BEFORE := Executor(
    Control(NotStarted, NotStopped, false, ASLEEP, ASLEEP),
    StoreSide([], Unborn, StoreIdle, 0), CapabilitySide([], Unborn, 0, 0), Stage(map[], [], false), {}, {})

  datatype Action =
    | StartAction
    | StopAction
    | StoreAction
    | CapabilityAction
    | ArriveAction(item: RIMDataItem)

  // Start and Stop.

  function StartStep(c: Control): Control {
    match c.start
    case NotStarted => c.(start := StoreUnchecked)
    case StoreUnchecked => c.(start := if c.store.running then CapabilityUnchecked else StoreUnset)
    case StoreUnset => c.(start := StoreUnspawned, store := c.store.Raised())
    case StoreUnspawned =>
      if c.store.joinable then c.(start := Terminated)
      else c.(start := CapabilityUnchecked, store := c.store.(joinable := true))
    case CapabilityUnchecked => c.(start := if c.capability.running then Started else CapabilityUnset)
    case CapabilityUnset => c.(start := CapabilityUnspawned, capability := c.capability.Raised())
    case CapabilityUnspawned =>
      if c.capability.joinable then c.(start := Terminated)
      else c.(start := Started, capability := c.capability.(joinable := true))
    case Started => c.(start := StoreUnchecked)
    case Terminated => c
  }

  /** A join waits until the thread has ended.  Called again, Stop returns at once. */
  function StopStep(c: Control, storeThread: ThreadPc, capabilityThread: ThreadPc): Control {
    match c.stop
    case NotStopped => if c.stoppedFlag then c.(stop := Stopped) else c.(stop := StoreUntested, stoppedFlag := true)
    case StoreUntested =>
      if c.store.running then c.(stop := StoreUncleared) else c.(stop := CapabilityUntested, store := c.store.(passed := true))
    case StoreUncleared => c.(stop := StoreUnshut, store := c.store.(running := false))
    case StoreUnshut => c.(stop := StoreUnjoined, store := c.store.(shut := true))
    case StoreUnjoined =>
      if c.store.joinable && storeThread != Ended then c
      else c.(stop := CapabilityUntested, store := c.store.(joinable := false))
    case CapabilityUntested =>
      if c.capability.running then c.(stop := CapabilityUncleared)
      else c.(stop := Stopped, capability := c.capability.(passed := true))
    case CapabilityUncleared => c.(stop := CapabilityUnshut, capability := c.capability.(running := false))
    case CapabilityUnshut => c.(stop := CapabilityUnjoined, capability := c.capability.(shut := true))
    case CapabilityUnjoined =>
      if c.capability.joinable && capabilityThread != Ended then c
      else c.(stop := Stopped, capability := c.capability.(joinable := false))
    case Stopped => c
  }

  // The store worker's thread.  WaitAndPop returns when there is an item or the queue is shut down.

  function StoreThreadStep(p: ProductDefinition, ps: Partitions, c: Control, s: StoreSide): StoreSide {
    match s.thread
    case Unborn => s
    case Ended => s
    case Testing => s.(thread := if c.store.running then Waits else Ended)
    case Waits =>
      if s.queue != [] then
        StoreSide(s.queue[1..], Working, StorePopped(s.queue[0]), if c.store.running then s.late else s.late + 1)
      else if c.store.shut then s.(thread := Ended)
      else s
    case Working =>
      if s.pc == StoreIdle then s.(thread := Testing) else s.(pc := ProcessStep(p, ps, s.pc))
  }

  /** The steps inside Process. */
  function ProcessStep(p: ProductDefinition, ps: Partitions, pc: StorePc): StorePc {
    match pc
    case StoreIdle => StoreIdle
    case StorePopped(item) =>
      if Writes(p, ps, item) then
        StoreDecided(item.id, StoredValue(FindDataItem(p, item.id).value, Get(p, ps, Target(Data, item.id)), item.value))
      else StoreIdle
    case StoreDecided(id, v) => StoreWritten(id)
    case StoreWritten(id) => StoreIdle
  }

  /** The change that the next step writes to the store, or pushes. */
  function Writing(s: StoreSide): Option<(Id, RIMValue)> {
    if s.thread == Working && s.pc.StoreDecided? then Some((s.pc.id, s.pc.v)) else None
  }

  function Pushing(s: StoreSide): Option<Id> {
    if s.thread == Working && s.pc.StoreWritten? then Some(s.pc.writtenId) else None
  }

  function AfterStoreAction(p: ProductDefinition, route: string, x: Executor): Executor {
    var x' := x.(store := StoreThreadStep(p, x.stage.ps, x.control, x.store));
    match Writing(x.store)
    case Some(write) =>
      x'.(stage := x.stage.(ps := Set(p, x.stage.ps, Target(Data, write.0), write.1)), unprocessed := x.unprocessed + {write.0})
    case None =>
      match Pushing(x.store)
      case None => x'
      case Some(id) =>
        if x.control.capability.shut then x'.(refused := x.refused + {id})
        else x'.(capability := x.capability.(queue := Inserted(CapabilityPolicy(p, route), x.capability.queue, CapabilityInput(id))))
  }

  // The capability worker's thread.

  function CapabilityThreadStep(c: Control, k: CapabilitySide): CapabilitySide {
    match k.thread
    case Unborn => k
    case Ended => k
    case Testing => k.(thread := if c.capability.running then Waits else Ended)
    case Waits =>
      if k.queue != [] then
        CapabilitySide(k.queue[1..], Working, k.queue[0].changedDataId, if c.capability.running then k.late else k.late + 1)
      else if c.capability.shut then k.(thread := Ended)
      else k
    case Working => k.(thread := Testing)
  }

  function AfterCapabilityAction(p: ProductDefinition, x: Executor): Executor {
    x.(capability := CapabilityThreadStep(x.control, x.capability),
       stage := if x.capability.thread == Working then Processed(p, x.stage, x.capability.taken) else x.stage,
       unprocessed := if x.capability.thread == Waits && x.capability.queue != []
                      then x.unprocessed - {x.capability.queue[0].changedDataId} else x.unprocessed)
  }

  function AfterStartAction(x: Executor): Executor {
    var c := x.control;
    x.(control := StartStep(c),
       store := if c.start == StoreUnspawned && !c.store.joinable then x.store.(thread := Testing) else x.store,
       capability := if c.start == CapabilityUnspawned && !c.capability.joinable then x.capability.(thread := Testing) else x.capability)
  }

  function AfterArrival(p: ProductDefinition, route: string, x: Executor, item: RIMDataItem): Executor {
    match Accepted(p, item)
    case None => x
    case Some(accepted) =>
      if RouteNameOf(p, item.id) != Some(route) || x.control.store.shut then x
      else x.(store := x.store.(queue := Inserted(StorePolicy(p, route), x.store.queue, accepted)))
  }

  function Acted(p: ProductDefinition, route: string, x: Executor, action: Action): Executor {
    if x.control.start == Terminated then x
    else
      match action
      case StartAction => AfterStartAction(x)
      case StopAction => x.(control := StopStep(x.control, x.store.thread, x.capability.thread))
      case StoreAction => AfterStoreAction(p, route, x)
      case CapabilityAction => AfterCapabilityAction(p, x)
      case ArriveAction(item) => AfterArrival(p, route, x, item)
  }

  function After(p: ProductDefinition, route: string, actions: seq<Action>): Executor {
    if actions == [] then BEFORE
    else Acted(p, route, After(p, route, actions[..|actions| - 1]), actions[|actions| - 1])
  }

  // What every run keeps.

  /** Stop has cleared the flag of the worker whose part of Stop begins at rank `base`. */
  ghost predicate Cleared(w: Worker, rank: nat, base: nat) {
    rank >= base + 2 && !w.passed
  }

  /** A worker's flag and shutdown follow from where Stop stands and from whether it was restarted. */
  ghost predicate WorkerOk(w: Worker, rank: nat, base: nat) {
    && (w.running <==> w.wasSet && (w.restarted || !Cleared(w, rank, base)))
    && (w.restarted ==> w.wasSet && Cleared(w, rank, base))
    && (w.joinable ==> w.wasSet)
    && (w.shut <==> rank >= base + 3 && !w.passed)
    && (w.passed ==> rank >= base + 4)
    && (rank >= base + 1 && !w.passed ==> w.wasSet)
  }

  ghost predicate ControlOk(c: Control) {
    && (c.stoppedFlag <==> c.stop.Rank() > 0)
    && WorkerOk(c.store, c.stop.Rank(), 1) && WorkerOk(c.capability, c.stop.Rank(), 5)
    && (c.start == StoreUnset ==> !c.store.running) && (c.start == CapabilityUnset ==> !c.capability.running)
    && (c.start.Rank() >= 3 ==> c.store.wasSet) && (c.start.Rank() >= 6 ==> c.capability.wasSet)
  }

  /** A thread that has not ended awaits a join.  Unless Start sets the flag again, a thread that Stop
      has joined, or that was spawned only afterwards, works on nothing.  At most one item is taken
      after the flag was cleared. */
  ghost predicate ThreadOk(w: Worker, thread: ThreadPc, late: nat, rank: nat, base: nat) {
    && (thread != Unborn ==> w.wasSet)
    && (thread !in {Unborn, Ended} ==> w.joinable) && (w.joinable ==> thread != Unborn)
    && (rank >= base + 4 && !w.passed && !w.restarted ==> thread in {Unborn, Testing, Ended})
    && late <= 1 && (late == 1 ==> Cleared(w, rank, base))
    && (!w.running && thread == Waits ==> late == 0)
  }

  ghost predicate StoreOk(c: Control, s: StoreSide) {
    ThreadOk(c.store, s.thread, s.late, c.stop.Rank(), 1) && (s.thread != Working ==> s.pc == StoreIdle)
  }

  ghost predicate CapabilityOk(c: Control, k: CapabilitySide) {
    ThreadOk(c.capability, k.thread, k.late, c.stop.Rank(), 5)
  }

  ghost predicate AccountedAt(x: Executor, d: Id) {
    d in x.unprocessed ==> Waiting(x.capability.queue, d) || Pushing(x.store) == Some(d) || d in x.refused
  }

  ghost predicate Fine(x: Executor) {
    && ControlOk(x.control)
    && StoreOk(x.control, x.store)
    && CapabilityOk(x.control, x.capability)
    && (x.refused != {} ==> x.control.capability.shut && (x.control.store.passed || x.control.store.restarted))
    && forall d :: AccountedAt(x, d)
  }

  lemma StartKeepsControl(c: Control)
    requires ControlOk(c)
    ensures ControlOk(StartStep(c))
  {
    match c.start
    case NotStarted =>
    case StoreUnchecked =>
    case StoreUnset =>
    case StoreUnspawned =>
    case CapabilityUnchecked =>
    case CapabilityUnset =>
    case CapabilityUnspawned =>
    case Started =>
    case Terminated =>
  }

  lemma StartKeepsThreads(x: Executor)
    requires ControlOk(x.control) && StoreOk(x.control, x.store) && CapabilityOk(x.control, x.capability)
    ensures var x' := AfterStartAction(x); StoreOk(x'.control, x'.store) && CapabilityOk(x'.control, x'.capability)
  {
    match x.control.start
    case NotStarted =>
    case StoreUnchecked =>
    case StoreUnset =>
    case StoreUnspawned =>
    case CapabilityUnchecked =>
    case CapabilityUnset =>
    case CapabilityUnspawned =>
    case Started =>
    case Terminated =>
  }

  lemma StopKeepsControl(c: Control, s: StoreSide, k: CapabilitySide)
    requires ControlOk(c) && StoreOk(c, s) && CapabilityOk(c, k)
    ensures var c' := StopStep(c, s.thread, k.thread);
            ControlOk(c') && StoreOk(c', s) && CapabilityOk(c', k)
  {
    match c.stop
    case NotStopped =>
    case StoreUntested =>
    case StoreUncleared =>
    case StoreUnshut =>
    case StoreUnjoined =>
    case CapabilityUntested =>
    case CapabilityUncleared =>
    case CapabilityUnshut =>
    case CapabilityUnjoined =>
    case Stopped =>
  }

  lemma StartKeeps(x: Executor)
    requires Fine(x)
    ensures Fine(AfterStartAction(x))
  {
    StartKeepsControl(x.control);
    StartKeepsThreads(x);
    SpawnKeepsAccounts(x);
  }

  /** A thread at work awaits its join, so no other takes its place. */
  lemma SpawnKeepsAccounts(x: Executor)
    requires StoreOk(x.control, x.store)
    ensures forall d :: AccountedAt(x, d) ==> AccountedAt(AfterStartAction(x), d)
  {
    assert Pushing(AfterStartAction(x).store) == Pushing(x.store);
  }

  lemma StopKeeps(p: ProductDefinition, route: string, x: Executor)
    requires Fine(x) && x.control.start != Terminated
    ensures Fine(Acted(p, route, x, StopAction))
  {
    StopKeepsControl(x.control, x.store, x.capability);
    forall d ensures AccountedAt(Acted(p, route, x, StopAction), d) {
      assert AccountedAt(x, d);
    }
  }

  lemma StoreKeepsOk(p: ProductDefinition, ps: Partitions, c: Control, s: StoreSide)
    requires ControlOk(c) && StoreOk(c, s)
    ensures StoreOk(c, StoreThreadStep(p, ps, c, s))
    ensures Pushing(s).Some? && c.capability.shut ==> c.store.passed || c.store.restarted
    ensures Writing(s).Some? ==> Pushing(StoreThreadStep(p, ps, c, s)) == Some(Writing(s).value.0)
  {
  }

  lemma StoreKeeps(p: ProductDefinition, route: string, x: Executor)
    requires Fine(x)
    ensures Fine(AfterStoreAction(p, route, x))
  {
    StoreKeepsOk(p, x.stage.ps, x.control, x.store);
    forall d ensures AccountedAt(AfterStoreAction(p, route, x), d) {
      assert AccountedAt(x, d);
      if Pushing(x.store).Some? {
        InsertedWaits(p, route, x.capability.queue, CapabilityInput(Pushing(x.store).value), d);
      }
    }
  }

  lemma CapabilityKeeps(p: ProductDefinition, x: Executor)
    requires Fine(x)
    ensures Fine(AfterCapabilityAction(p, x))
  {
    forall d ensures AccountedAt(AfterCapabilityAction(p, x), d) {
      assert AccountedAt(x, d);
      if x.capability.thread == Waits && x.capability.queue != [] && x.capability.queue[0].changedDataId != d {
        StillWaits(x.capability.queue, d);
      }
    }
  }

  lemma StillWaits(q: seq<CapabilityInput>, d: Id)
    requires q != [] && q[0].changedDataId != d
    ensures Waiting(q, d) ==> Waiting(q[1..], d)
  {
    if Waiting(q, d) {
      var i :| 0 <= i < |q| && q[i].changedDataId == d;
      assert q[1..][i - 1] == q[i];
    }
  }

  lemma ArrivalKeeps(p: ProductDefinition, route: string, x: Executor, item: RIMDataItem)
    requires Fine(x)
    ensures Fine(AfterArrival(p, route, x, item))
  {
    forall d ensures AccountedAt(AfterArrival(p, route, x, item), d) {
      assert AccountedAt(x, d);
    }
  }

  lemma {:induction false} AlwaysFine(p: ProductDefinition, route: string, actions: seq<Action>)
    ensures Fine(After(p, route, actions))
  {
    if actions == [] {
      forall d ensures AccountedAt(BEFORE, d) {
      }
    } else {
      var x := After(p, route, actions[..|actions| - 1]);
      AlwaysFine(p, route, actions[..|actions| - 1]);
      match actions[|actions| - 1]
      case StartAction => StartKeeps(x);
      case StopAction => if x.control.start != Terminated { StopKeeps(p, route, x); }
      case StoreAction => StoreKeeps(p, route, x);
      case CapabilityAction => CapabilityKeeps(p, x);
      case ArriveAction(item) => ArrivalKeeps(p, route, x, item);
    }
  }

  // Main results.

  /** Main result: in every interleaving, each worker takes at most one item after its flag was cleared. */
  lemma AtMostOneMore(p: ProductDefinition, route: string, actions: seq<Action>)
    ensures After(p, route, actions).store.late <= 1 && After(p, route, actions).capability.late <= 1
  {
    AlwaysFine(p, route, actions);
  }

  /** Main result: the push of a stored change is refused exactly when the capability queue is shut,
      and that needs a Stop that passed over the store worker, because its flag was not yet set, or a
      Start that set the flag again after Stop had cleared it. */
  lemma RefusedExactly(p: ProductDefinition, route: string, actions: seq<Action>)
    ensures var x := After(p, route, actions);
            Pushing(x.store).Some? ==>
              && (AfterStoreAction(p, route, x).refused != {} <==> x.control.capability.shut)
              && (x.control.capability.shut <==>
                    && x.control.stop.Rank() >= 8 && !x.control.capability.passed
                    && (x.control.store.passed || x.control.store.restarted))
  {
    AlwaysFine(p, route, actions);
    var x := After(p, route, actions);
    StoreKeepsOk(p, x.stage.ps, x.control, x.store);
  }

  /** No step of Start is taken while Stop is under way, nor the other way round. */
  ghost predicate NeverOverlap(p: ProductDefinition, route: string, actions: seq<Action>) {
    actions == [] ||
      (var before, c := actions[..|actions| - 1], After(p, route, actions[..|actions| - 1]).control;
       && NeverOverlap(p, route, before)
       && (actions[|actions| - 1] == StartAction ==> c.stop in {NotStopped, Stopped})
       && (actions[|actions| - 1] == StopAction ==> c.start in {NotStarted, Started}))
  }

  /** Stop is not begun while Start is under way, and no step of Start is taken after Stop was begun,
      except after a Stop that returned without having found anything to stop. */
  ghost predicate StopsLast(p: ProductDefinition, route: string, actions: seq<Action>) {
    actions == [] ||
      (var before, c := actions[..|actions| - 1], After(p, route, actions[..|actions| - 1]).control;
       && StopsLast(p, route, before)
       && (actions[|actions| - 1] == StartAction ==>
             c.stop == NotStopped || (c.stop == Stopped && c.store.passed && c.capability.passed))
       && (actions[|actions| - 1] == StopAction ==> c.start in {NotStarted, Started}))
  }

  /** What such a run keeps: nothing is restarted, and a Stop that passed over the store worker found
      nothing to stop. */
  ghost predicate StoppedOnce(c: Control) {
    && !c.store.restarted
    && (c.store.passed ==> c.capability.passed || (c.stop == CapabilityUntested && c.start == NotStarted))
    && (c.start == NotStarted ==> !c.capability.wasSet)
  }

  lemma StopsLastStep(p: ProductDefinition, route: string, x: Executor, action: Action)
    requires ControlOk(x.control) && StoppedOnce(x.control)
    requires action == StartAction ==>
               x.control.stop == NotStopped || (x.control.stop == Stopped && x.control.store.passed && x.control.capability.passed)
    requires action == StopAction ==> x.control.start in {NotStarted, Started}
    ensures StoppedOnce(Acted(p, route, x, action).control)
  {
    match action
    case StartAction =>
    case StopAction =>
    case StoreAction =>
    case CapabilityAction =>
    case ArriveAction(_) =>
  }

  lemma {:induction false} StopsLastOnce(p: ProductDefinition, route: string, actions: seq<Action>)
    requires StopsLast(p, route, actions)
    ensures StoppedOnce(After(p, route, actions).control)
  {
    if actions != [] {
      var before := actions[..|actions| - 1];
      StopsLastOnce(p, route, before);
      AlwaysFine(p, route, before);
      StopsLastStep(p, route, After(p, route, before), actions[|actions| - 1]);
    }
  }

  /** Main result: if Stop is called when Start is not under way, and Start is not called after it, no
      stored change is ever refused by the capability queue, and once Stop has returned every stored
      change that was not processed is still queued. */
  lemma NothingIsLost(p: ProductDefinition, route: string, actions: seq<Action>)
    requires StopsLast(p, route, actions)
    ensures var x := After(p, route, actions);
            && x.refused == {}
            && (x.control.stop == Stopped && !x.control.store.passed ==>
                  forall d :: d in x.unprocessed ==> Waiting(x.capability.queue, d))
  {
    AlwaysFine(p, route, actions);
    StopsLastOnce(p, route, actions);
    var x := After(p, route, actions);
    forall d | x.control.stop == Stopped && !x.control.store.passed && d in x.unprocessed
      ensures Waiting(x.capability.queue, d)
    {
      assert AccountedAt(x, d);
    }
  }

  // Stop returns.

  function ThreadWork(thread: ThreadPc, pc: StorePc): nat {
    match thread
    case Unborn => 0
    case Ended => 0
    case Testing => 1
    case Waits => 6
    case Working =>
      match pc
      case StoreIdle => 2
      case StoreWritten(_) => 3
      case StoreDecided(_, _) => 4
      case StorePopped(_) => 5
  }

  /** A bound on the steps left until Stop has returned, once Start has. */
  function StepsLeft(x: Executor): int {
    9 - x.control.stop.Rank()
    + (if x.control.store.running then 6 else ThreadWork(x.store.thread, x.store.pc))
    + (if x.control.capability.running then 6 else ThreadWork(x.capability.thread, StoreIdle))
  }

  /** Stop is under way, Start has returned and was not called again meanwhile. */
  ghost predicate Stopping(x: Executor) {
    && x.control.start == Started && x.control.stop !in {NotStopped, Stopped}
    && !x.control.store.restarted && !x.control.capability.restarted
  }

  /** No step but a new call of Start puts the return of Stop off. */
  lemma NothingDelaysStop(p: ProductDefinition, route: string, x: Executor, action: Action)
    requires Fine(x) && Stopping(x) && action != StartAction
    ensures StepsLeft(Acted(p, route, x, action)) <= StepsLeft(x)
  {
    match action
    case StopAction => StopStepCounts(x);
    case StoreAction => StoreStepCounts(p, x);
    case CapabilityAction => CapabilityStepCounts(x);
    case ArriveAction(_) =>
  }

  lemma StopStepCounts(x: Executor)
    requires Fine(x) && Stopping(x)
    ensures var x' := x.(control := StopStep(x.control, x.store.thread, x.capability.thread));
            StepsLeft(x') <= if x'.control == x.control then StepsLeft(x) else StepsLeft(x) - 1
  {
  }

  lemma StoreStepCounts(p: ProductDefinition, x: Executor)
    requires Fine(x) && Stopping(x)
    ensures var x' := x.(store := StoreThreadStep(p, x.stage.ps, x.control, x.store));
            && StepsLeft(x') <= StepsLeft(x)
            && (x.control.store.shut && x.store.thread !in {Unborn, Ended} ==> StepsLeft(x') < StepsLeft(x))
  {
  }

  lemma CapabilityStepCounts(x: Executor)
    requires Fine(x) && Stopping(x)
    ensures var x' := x.(capability := CapabilityThreadStep(x.control, x.capability));
            && StepsLeft(x') <= StepsLeft(x)
            && (x.control.capability.shut && x.capability.thread !in {Unborn, Ended} ==> StepsLeft(x') < StepsLeft(x))
  {
  }

  /** The party whose step Stop is waiting for: itself, or the thread that it joins. */
  function Awaited(x: Executor): Action {
    if x.control.stop == StoreUnjoined && x.store.thread !in {Unborn, Ended} then StoreAction
    else if x.control.stop == CapabilityUnjoined && x.capability.thread !in {Unborn, Ended} then CapabilityAction
    else StopAction
  }

  lemma AwaitedProgresses(p: ProductDefinition, route: string, x: Executor)
    requires Fine(x) && Stopping(x)
    ensures 0 <= StepsLeft(Acted(p, route, x, Awaited(x))) < StepsLeft(x)
  {
    match Awaited(x)
    case StoreAction => StoreStepCounts(p, x);
    case CapabilityAction => CapabilityStepCounts(x);
    case _ => StopStepCounts(x);
  }

  /** Main result: Stop cannot hang.  As long as it has not returned and Start is not called again,
      one step of a known party brings its return nearer, and no step of anyone puts it off. */
  lemma StopReturns(p: ProductDefinition, route: string, actions: seq<Action>)
    requires Stopping(After(p, route, actions))
    ensures var x := After(p, route, actions);
            && 0 <= StepsLeft(Acted(p, route, x, Awaited(x))) < StepsLeft(x)
            && forall action :: action != StartAction ==> StepsLeft(Acted(p, route, x, action)) <= StepsLeft(x)
  {
    AlwaysFine(p, route, actions);
    var x := After(p, route, actions);
    forall action | action != StartAction ensures StepsLeft(Acted(p, route, x, action)) <= StepsLeft(x) {
      NothingDelaysStop(p, route, x, action);
    }
    AwaitedProgresses(p, route, x);
  }

  // Runs made step by step.

  lemma Then(p: ProductDefinition, route: string, actions: seq<Action>, action: Action) returns (longer: seq<Action>)
    ensures longer == actions + [action]
    ensures After(p, route, longer) == Acted(p, route, After(p, route, actions), action)
    ensures var c := After(p, route, actions).control;
            NeverOverlap(p, route, longer) <==>
              && NeverOverlap(p, route, actions)
              && (action == StartAction ==> c.stop in {NotStopped, Stopped})
              && (action == StopAction ==> c.start in {NotStarted, Started})
  {
    longer := actions + [action];
    assert longer[..|longer| - 1] == actions;
  }

  /** Everything asleep, whatever happened before. */
  ghost predicate Idle(c: Control) {
    && c.start in {NotStarted, Started}
    && !c.store.running && !c.store.joinable && !c.capability.running && !c.capability.joinable
  }

  /** After a whole Start. */
  function Begun(x: Executor): Executor {
    x.(control := x.control.(start := Started, store := x.control.store.Raised().(joinable := true),
                             capability := x.control.capability.Raised().(joinable := true)),
       store := x.store.(thread := Testing), capability := x.capability.(thread := Testing))
  }

  /** The first half of a Start that nobody disturbs. */
  lemma StartsStore(p: ProductDefinition, route: string, actions: seq<Action>) returns (longer: seq<Action>)
    requires Idle(After(p, route, actions).control)
    ensures var x := After(p, route, actions);
            After(p, route, longer) ==
            x.(control := x.control.(start := CapabilityUnchecked, store := x.control.store.Raised().(joinable := true)),
               store := x.store.(thread := Testing))
    ensures NeverOverlap(p, route, actions) && After(p, route, actions).control.stop in {NotStopped, Stopped} ==>
              NeverOverlap(p, route, longer)
  {
    longer := Then(p, route, actions, StartAction);
    longer := Then(p, route, longer, StartAction);
    longer := Then(p, route, longer, StartAction);
    longer := Then(p, route, longer, StartAction);
  }

  /** All seven steps. */
  lemma StartsAlone(p: ProductDefinition, route: string, actions: seq<Action>) returns (longer: seq<Action>)
    requires Idle(After(p, route, actions).control)
    ensures After(p, route, longer) == Begun(After(p, route, actions))
    ensures NeverOverlap(p, route, actions) && After(p, route, actions).control.stop in {NotStopped, Stopped} ==>
              NeverOverlap(p, route, longer)
  {
    longer := StartsStore(p, route, actions);
    longer := Then(p, route, longer, StartAction);
    longer := Then(p, route, longer, StartAction);
    longer := Then(p, route, longer, StartAction);
  }

  /** A worker that was started and stopped once. */
  const SHUT := Worker(false, true, false, true, false, false)
  const AWAKE := Worker(true, false, true, true, false, false)

  /** The first half of a Stop that finds the store worker at its test. */
  lemma StopsStore(p: ProductDefinition, route: string, actions: seq<Action>) returns (longer: seq<Action>)
    requires var x := After(p, route, actions);
             x.control == Control(Started, NotStopped, false, AWAKE, AWAKE) && x.store.thread == Testing
    ensures var x := After(p, route, actions);
            After(p, route, longer) ==
            x.(control := Control(Started, CapabilityUntested, true, SHUT, AWAKE), store := x.store.(thread := Ended))
    ensures NeverOverlap(p, route, actions) ==> NeverOverlap(p, route, longer)
  {
    longer := Then(p, route, actions, StopAction);
    longer := Then(p, route, longer, StopAction);
    longer := Then(p, route, longer, StopAction);
    longer := Then(p, route, longer, StopAction);
    longer := Then(p, route, longer, StoreAction);
    longer := Then(p, route, longer, StopAction);
  }

  lemma ShutsCapability(p: ProductDefinition, route: string, actions: seq<Action>, store: Worker) returns (longer: seq<Action>)
    requires After(p, route, actions).control == Control(Started, CapabilityUntested, true, store, AWAKE)
    ensures var x := After(p, route, actions);
            After(p, route, longer) ==
            x.(control := Control(Started, CapabilityUnjoined, true, store, SHUT.(joinable := true)))
    ensures NeverOverlap(p, route, actions) ==> NeverOverlap(p, route, longer)
  {
    longer := Then(p, route, actions, StopAction);
    longer := Then(p, route, longer, StopAction);
    longer := Then(p, route, longer, StopAction);
  }

  /** The second half, which finds the capability worker at its test. */
  lemma StopsCapability(p: ProductDefinition, route: string, actions: seq<Action>, store: Worker) returns (longer: seq<Action>)
    requires var x := After(p, route, actions);
             x.control == Control(Started, CapabilityUntested, true, store, AWAKE) && x.capability.thread == Testing
    ensures var x := After(p, route, actions);
            After(p, route, longer) ==
            x.(control := Control(Started, Stopped, true, store, SHUT), capability := x.capability.(thread := Ended))
    ensures NeverOverlap(p, route, actions) ==> NeverOverlap(p, route, longer)
  {
    var x := After(p, route, actions);
    longer := ShutsCapability(p, route, actions, store);
    longer := Then(p, route, longer, CapabilityAction);
    assert After(p, route, longer).capability == x.capability.(thread := Ended);
    longer := Then(p, route, longer, StopAction);
  }

  /** An executor whose store worker runs while its capability queue is shut, `i` steps after `item`
      became the one item for its new thread. */
  function Stranded(p: ProductDefinition, x: Executor, item: RIMDataItem, i: nat): Executor {
    x.(store := StoreSide(if i <= 1 then [item] else [],
                          if i == 0 then Testing else if i == 1 then Waits else Working,
                          if i == 2 then StorePopped(item)
                          else if i == 3 then ProcessStep(p, x.stage.ps, StorePopped(item))
                          else if i == 4 then StoreWritten(item.id)
                          else StoreIdle, x.store.late),
       stage := if i <= 3 then x.stage else x.stage.(ps := AfterStore(p, x.stage.ps, item)),
       unprocessed := if i <= 3 then x.unprocessed else x.unprocessed + {item.id},
       refused := if i <= 4 then x.refused else x.refused + {item.id})
  }

  lemma StrandedStep(p: ProductDefinition, route: string, x: Executor, item: RIMDataItem, i: nat)
    requires i < 5 && Writes(p, x.stage.ps, item) && x.control.store.running && x.control.capability.shut
    ensures AfterStoreAction(p, route, Stranded(p, x, item, i)) == Stranded(p, x, item, i + 1)
  {
    if i == 0 {
    } else if i == 1 {
      assert [item][1..] == [];
    } else if i == 2 {
    } else if i == 3 {
    } else {
    }
  }

  /** Such an executor stores the item and loses the change. */
  lemma LosesItem(p: ProductDefinition, route: string, actions: seq<Action>, item: RIMDataItem) returns (longer: seq<Action>)
    requires var x := After(p, route, actions);
             && x.control.start == Started && x.control.store.running && x.control.capability.shut
             && x == Stranded(p, x, item, 0) && Writes(p, x.stage.ps, item)
    ensures After(p, route, longer) == Stranded(p, After(p, route, actions), item, 5)
    ensures NeverOverlap(p, route, actions) ==> NeverOverlap(p, route, longer)
  {
    var x := After(p, route, actions);
    longer := actions;
    for i := 0 to 5
      invariant After(p, route, longer) == Stranded(p, x, item, i)
      invariant NeverOverlap(p, route, actions) ==> NeverOverlap(p, route, longer)
    {
      StrandedStep(p, route, x, item, i);
      longer := Then(p, route, longer, StoreAction);
    }
  }

  lemma InsertedAlone(p: ProductDefinition, route: string, item: RIMDataItem)
    ensures Inserted(StorePolicy(p, route), [], item) == [item]
  {
  }

  // What happens when Start and Stop overlap.

  /** Stop looks at the store worker before Start has set its flag, and at the capability worker after. */
  lemma OverlapReached(p: ProductDefinition, route: string) returns (actions: seq<Action>)
    ensures After(p, route, actions) ==
            Executor(Control(Started, Stopped, true, AWAKE.(passed := true), SHUT), StoreSide([], Testing, StoreIdle, 0),
                     CapabilitySide([], Ended, 0, 0), Stage(map[], [], false), {}, {})
  {
    actions := Then(p, route, [], StopAction);
    actions := Then(p, route, actions, StopAction);
    actions := StartsAlone(p, route, actions);
    actions := StopsCapability(p, route, actions, AWAKE.(passed := true));
  }

  /** Counterexample to losing nothing in every interleaving: after an overlap, any item that is
      dispatched and changes the store is stored, its push is refused, and Stop has long returned. */
  lemma OverlapLosesAChange(p: ProductDefinition, route: string, item: RIMDataItem) returns (actions: seq<Action>)
    requires Accepted(p, item).Some? && RouteNameOf(p, item.id) == Some(route)
    requires Writes(p, map[], Accepted(p, item).value)
    ensures var x := After(p, route, actions);
            && x.control.stop == Stopped
            && x.stage.ps == AfterStore(p, map[], Accepted(p, item).value)
            && x.unprocessed == {item.id} && x.refused == {item.id} && x.capability.queue == []
  {
    var accepted := Accepted(p, item).value;
    actions := OverlapReached(p, route);
    actions := Then(p, route, actions, ArriveAction(item));
    InsertedAlone(p, route, accepted);
    actions := LosesItem(p, route, actions, accepted);
  }

  // What happens when a stopped executor is started again.

  /** Stopped while an item waited, the executor keeps the item and has both queues shut down. */
  lemma StoppedWithItem(p: ProductDefinition, route: string, item: RIMDataItem) returns (actions: seq<Action>)
    requires Accepted(p, item).Some? && RouteNameOf(p, item.id) == Some(route)
    ensures NeverOverlap(p, route, actions)
    ensures After(p, route, actions) ==
            Executor(Control(Started, Stopped, true, SHUT, SHUT), StoreSide([Accepted(p, item).value], Ended, StoreIdle, 0),
                     CapabilitySide([], Ended, 0, 0), Stage(map[], [], false), {}, {})
  {
    actions := StartsAlone(p, route, []);
    actions := Then(p, route, actions, ArriveAction(item));
    InsertedAlone(p, route, Accepted(p, item).value);
    actions := StopsStore(p, route, actions);
    actions := StopsCapability(p, route, actions, SHUT);
  }

  /** Counterexample to losing nothing whenever Start and Stop do not overlap: start, dispatch any item
      that changes the store, stop, and start again.  The item that had been left in the store queue is
      stored, and its push is refused, because a queue once shut down is never opened again. */
  lemma RestartLosesAChange(p: ProductDefinition, route: string, item: RIMDataItem) returns (actions: seq<Action>)
    requires Accepted(p, item).Some? && RouteNameOf(p, item.id) == Some(route)
    requires Writes(p, map[], Accepted(p, item).value)
    ensures NeverOverlap(p, route, actions)
    ensures var x := After(p, route, actions);
            && x.control.start == Started && x.control.stop == Stopped && !x.control.store.passed
            && x.stage.ps == AfterStore(p, map[], Accepted(p, item).value)
            && x.unprocessed == {item.id} && x.refused == {item.id} && x.capability.queue == []
  {
    actions := StoppedWithItem(p, route, item);
    actions := StartsAlone(p, route, actions);
    actions := LosesItem(p, route, actions, Accepted(p, item).value);
  }
}
