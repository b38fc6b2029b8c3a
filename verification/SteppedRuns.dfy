/** The pipeline without threads: every change is followed through before the next one is taken. */
module SteppedRuns {
  import opened Values
  import opened Queues
  import opened Product
  import opened Partitioning
  import opened Evaluation
  import opened Pipeline
  import opened Consistency
  import opened Execution

  datatype Call =
    | DispatchCall(item: RIMDataItem)
    | ExecuteCall(route: string)
    | PublishCall
    | ShutCall

  function Called(p: ProductDefinition, calls: seq<Call>): State {
    if calls == [] then INITIAL
    else
      var s := Called(p, calls[..|calls| - 1]);
      match calls[|calls| - 1]
      case DispatchCall(item) => AfterDispatch(p, s, item)
      case ExecuteCall(route) => Executed(p, s, route)
      case PublishCall => AfterPublishTurn(s)
      case ShutCall => s.(shut := true)
  }

  lemma RunOneMore(p: ProductDefinition, ops: seq<Op>, op: Op)
    ensures Run(p, INITIAL, ops + [op]) == Step(p, Run(p, INITIAL, ops), op)
  {
    assert (ops + [op])[..|ops + [op]| - 1] == ops;
  }

  lemma CallKeepsQuiet(p: ProductDefinition, s: State, route: string)
    requires Quiet(s)
    ensures Quiet(Executed(p, s, route))
  {
    var middle := AfterStoreTurn(p, s, route);
    assert QueueOf(s.capabilityQueues, route) == [];
    forall r ensures QueueOf(Executed(p, s, route).capabilityQueues, r) == [] {
      assert QueueOf(s.capabilityQueues, r) == [];
      if r == route && QueueOf(s.storeQueues, route) != [] && Writes(p, s.ps, QueueOf(s.storeQueues, route)[0]) {
        OneInsertedAlone(p, route, CapabilityInput(QueueOf(s.storeQueues, route)[0].id));
      }
    }
  }

  lemma OneInsertedAlone(p: ProductDefinition, route: string, input: CapabilityInput)
    ensures Inserted(CapabilityPolicy(p, route), [], input) == [input]
  {
  }

  /** Every state of such a run is a state of the pipeline in which no capability queue holds anything. */
  lemma {:induction false} CalledIsRun(p: ProductDefinition, calls: seq<Call>) returns (ops: seq<Op>)
    ensures Run(p, INITIAL, ops) == Called(p, calls)
    ensures Quiet(Called(p, calls))
  {
    if calls == [] {
      ops := [];
    } else {
      var call := calls[|calls| - 1];
      ops := CalledIsRun(p, calls[..|calls| - 1]);
      var s := Called(p, calls[..|calls| - 1]);
      match call
      case DispatchCall(item) =>
        RunOneMore(p, ops, Op.Dispatch(item));
        ops := ops + [Op.Dispatch(item)];
      case ExecuteCall(route) =>
        CallKeepsQuiet(p, s, route);
        if QueueOf(s.storeQueues, route) != [] {
          RunOneMore(p, ops, StoreTurn(route));
          RunOneMore(p, ops + [StoreTurn(route)], CapabilityTurn(route));
          ops := ops + [StoreTurn(route)] + [CapabilityTurn(route)];
        }
      case PublishCall =>
        RunOneMore(p, ops, PublishTurn);
        ops := ops + [PublishTurn];
      case ShutCall =>
        RunOneMore(p, ops, ShutPublisher);
        ops := ops + [ShutPublisher];
    }
  }

  /** Main result: driven by ExecuteOnce, the pipeline holds the batch recomputation of its data
      after every single call. */
  lemma SteppedRunsHoldBatch(p: ProductDefinition, calls: seq<Call>)
    requires Valid(p) && Separated(p) && UsesValidIds(p) && ExactDiffs(p)
    ensures HoldsBatch(p, Called(p, calls).ps)
  {
    var ops := CalledIsRun(p, calls);
    QuietHoldsBatch(p, ops);
  }

  /** What ExecuteOnce answers in such a run: whether the head item changed the store.  So it answers false
      for an item that was popped and found unchanged, even if more items wait behind it. */
  lemma AnswersWhetherChanged(p: ProductDefinition, s: State, route: string)
    requires Quiet(s)
    ensures (&& QueueOf(s.storeQueues, route) != []
             && QueueOf(AfterStoreTurn(p, s, route).capabilityQueues, route) != []) <==>
            QueueOf(s.storeQueues, route) != [] && Writes(p, s.ps, QueueOf(s.storeQueues, route)[0])
  {
    assert QueueOf(s.capabilityQueues, route) == [];
    if QueueOf(s.storeQueues, route) != [] {
      OneInsertedAlone(p, route, CapabilityInput(QueueOf(s.storeQueues, route)[0].id));
    }
  }

  /** A call that finds nothing to store leaves what waits for the capability worker waiting, however
      often it is made. */
  lemma {:induction false} IdleCallsDoNothing(p: ProductDefinition, s: State, route: string, n: nat)
    requires QueueOf(s.storeQueues, route) == []
    ensures CalledTimes(p, s, route, n) == s
  {
    if n != 0 {
      IdleCallsDoNothing(p, s, route, n - 1);
    }
  }

  function CalledTimes(p: ProductDefinition, s: State, route: string, n: nat): State {
    if n == 0 then s else Executed(p, CalledTimes(p, s, route, n - 1), route)
  }

  lemma CallPops(p: ProductDefinition, s: State, route: string)
    requires QueueOf(s.storeQueues, route) != []
    ensures QueueOf(Executed(p, s, route).storeQueues, route) == QueueOf(s.storeQueues, route)[1..]
  {
  }

  /** Main result: as many calls as items wait drain the route, whatever the calls answer. */
  lemma {:induction false} CallsDrain(p: ProductDefinition, s: State, route: string, n: nat)
    requires Quiet(s) && n <= |QueueOf(s.storeQueues, route)|
    ensures var s' := CalledTimes(p, s, route, n);
            Quiet(s') && QueueOf(s'.storeQueues, route) == QueueOf(s.storeQueues, route)[n..]
  {
    var q := QueueOf(s.storeQueues, route);
    if n == 0 {
      assert q[0..] == q;
    } else {
      CallsDrain(p, s, route, n - 1);
      var before := CalledTimes(p, s, route, n - 1);
      CallKeepsQuiet(p, before, route);
      CallPops(p, before, route);
      assert q[n - 1..][1..] == q[n..];
    }
  }
}
