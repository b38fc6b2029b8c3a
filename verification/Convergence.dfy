/** A drained pipeline has forgotten how it got there: the last accepted value of each item decides
    the data, the data decide everything derived, and queue policies and schedules decide nothing. */
module Convergence {
  import opened Values
  import opened Queues
  import opened Product
  import opened Storage
  import opened Partitioning
  import opened Snapshots
  import opened Evaluation
  import opened Derivation
  import opened Pipeline
  import opened Consistency

  /** Items are stored as they come, and their diffs, where they have one, hide no change. */
  ghost predicate StoresWhatItGets(p: ProductDefinition) {
    forall item :: item in p.dataItems ==> PlainItem(item)
  }

  ghost predicate PlainItem(item: DataItemDefinition) {
    && (forall a, b :: item.store(a, b) == b)
    && (item.diff.Some? ==> NeverHidesAChange(item.diff.value))
  }

  /** What the store holds once it has taken the value `v` of the item `d`. */
  function Kept(p: ProductDefinition, d: Id, v: RIMValue): RIMValue {
    match FindDataItem(p, d)
    case None => v
    case Some(definition) => Retag(v, definition.storeValueType)
  }

  /** The value of the last dispatch of `d` that was accepted, as the store keeps it. */
  function LastAccepted(p: ProductDefinition, ops: seq<Op>, d: Id): Option<RIMValue> {
    if ops == [] then None
    else
      var op := ops[|ops| - 1];
      if op.Dispatch? && op.item.id == d && Accepted(p, op.item).Some?
      then Some(Kept(p, d, Accepted(p, op.item).value.value))
      else LastAccepted(p, ops[..|ops| - 1], d)
  }

  /** The last value of `d` that waits in a store queue. */
  function LastWaiting(q: seq<RIMDataItem>, d: Id): Option<RIMValue> {
    if q == [] then None
    else if q[|q| - 1].id == d then Some(q[|q| - 1].value)
    else LastWaiting(q[..|q| - 1], d)
  }

  // Queue policies and the last waiting value.

  lemma LastWaitingAtEnd(q: seq<RIMDataItem>, e: RIMDataItem, d: Id)
    ensures LastWaiting(q + [e], d) == if e.id == d then Some(e.value) else LastWaiting(q, d)
  {
    assert (q + [e])[..|q + [e]| - 1] == q;
  }

  lemma {:induction false} LastWaitingWithoutOther(q: seq<RIMDataItem>, k: nat, d: Id)
    requires k < |q| && q[k].id != d
    ensures LastWaiting(RemoveAt(q, k), d) == LastWaiting(q, d)
  {
    var before, last := q[..|q| - 1], q[|q| - 1];
    assert q == before + [last];
    LastWaitingAtEnd(before, last, d);
    if k == |before| {
      assert RemoveAt(q, k) == before;
    } else {
      LastWaitingWithoutOther(before, k, d);
      assert RemoveAt(q, k) == RemoveAt(before, k) + [last];
      LastWaitingAtEnd(RemoveAt(before, k), last, d);
    }
  }

  /** Buffered or coalescing, the newest value of an item is the last one waiting. */
  lemma InsertedLast(p: ProductDefinition, route: string, q: seq<RIMDataItem>, e: RIMDataItem, d: Id)
    ensures LastWaiting(Inserted(StorePolicy(p, route), q, e), d) == if e.id == d then Some(e.value) else LastWaiting(q, d)
  {
    match StorePolicy(p, route)
    case Fifo => LastWaitingAtEnd(q, e, d);
    case Coalescing(key) =>
      var k := FirstIndex(q, HasKeyOf(e, key));
      LastWaitingAtEnd(RemoveAt(q, k), e, d);
      if k < |q| && e.id != d {
        LastWaitingWithoutOther(q, k, d);
      }
    case _ =>
  }

  lemma {:induction false} PoppedLast(q: seq<RIMDataItem>, d: Id)
    requires q != []
    ensures LastWaiting(q, d) == if LastWaiting(q[1..], d).Some? then LastWaiting(q[1..], d)
                                 else if q[0].id == d then Some(q[0].value) else None
  {
    var n := |q| - 1;
    if n != 0 && q[n].id != d {
      PoppedLast(q[..n], d);
      assert q[..n][1..] == q[1..][..n - 1];
    } else if n != 0 {
      assert q[1..][n - 1] == q[n];
    }
  }

  // The invariant.

  /** The value of `d` that the store will hold when its queue has drained. */
  function Latest(p: ProductDefinition, s: State, d: Id): Option<RIMValue> {
    match RouteNameOf(p, d)
    case None => Get(p, s.ps, Target(Data, d))
    case Some(route) =>
      match LastWaiting(QueueOf(s.storeQueues, route), d)
      case None => Get(p, s.ps, Target(Data, d))
      case Some(v) => Some(Kept(p, d, v))
  }

  ghost predicate QueuedHere(p: ProductDefinition, s: State, route: string, d: Id) {
    LastWaiting(QueueOf(s.storeQueues, route), d).Some? ==> RouteNameOf(p, d) == Some(route)
  }

  ghost predicate Tracks(p: ProductDefinition, s: State, ops: seq<Op>) {
    && (forall route, d :: QueuedHere(p, s, route, d))
    && (forall d :: LatestIs(p, s, ops, d))
  }

  ghost predicate LatestIs(p: ProductDefinition, s: State, ops: seq<Op>, d: Id) {
    Latest(p, s, d) == LastAccepted(p, ops, d)
  }

  /** Processing an item leaves exactly its kept value, whether or not the worker had to write. */
  lemma StoreKeepsValue(p: ProductDefinition, ps: Partitions, item: RIMDataItem)
    requires Separated(p) && StoresWhatItGets(p) && FindDataItem(p, item.id).Some?
    ensures Get(p, AfterStore(p, ps, item), Target(Data, item.id)) == Some(Kept(p, item.id, item.value))
    ensures forall u :: u != Target(Data, item.id) ==> Same(p, ps, AfterStore(p, ps, item), u)
  {
    var t := Target(Data, item.id);
    var definition := FindDataItem(p, item.id).value;
    assert PlainItem(definition) && Apart(p, t, t);
    var v := StoredValue(definition, Get(p, ps, t), item.value);
    assert v == Kept(p, item.id, item.value);
    if Writes(p, ps, item) {
      AfterStoreEffect(p, ps, item);
      SetKeepsOthers(p, ps, t, v, t);
    }
  }

  /** Popping keeps what each item ends up with: its value moves from the queue to the store. */
  lemma PoppedLatest(p: ProductDefinition, s: State, s': State, route: string, d: Id)
    requires Separated(p) && StoresWhatItGets(p) && QueueOf(s.storeQueues, route) != []
    requires var head := QueueOf(s.storeQueues, route)[0].id; FindDataItem(p, head).Some? && RouteNameOf(p, head) == Some(route)
    requires s'.ps == AfterStore(p, s.ps, QueueOf(s.storeQueues, route)[0])
    requires s'.storeQueues == s.storeQueues[route := QueueOf(s.storeQueues, route)[1..]]
    ensures Latest(p, s', d) == Latest(p, s, d)
  {
    var q := QueueOf(s.storeQueues, route);
    StoreKeepsValue(p, s.ps, q[0]);
    PoppedLast(q, d);
    if d != q[0].id {
      assert Same(p, s.ps, s'.ps, Target(Data, d));
    }
  }

  lemma StoreTurnTracksLatest(p: ProductDefinition, s: State, ops: seq<Op>, route: string)
    requires Separated(p) && StoresWhatItGets(p) && Tracks(p, s, ops)
    ensures Tracks(p, AfterStoreTurn(p, s, route), ops + [StoreTurn(route)])
  {
    var s', q := AfterStoreTurn(p, s, route), QueueOf(s.storeQueues, route);
    assert (ops + [StoreTurn(route)])[..|ops|] == ops;
    if q != [] {
      HeadIsServed(p, s, ops, route);
    }
    forall route', d ensures QueuedHere(p, s', route', d) {
      assert QueuedHere(p, s, route', d);
      if q != [] {
        PoppedLast(q, d);
      }
    }
    forall d ensures LatestIs(p, s', ops + [StoreTurn(route)], d) {
      assert LatestIs(p, s, ops, d);
      if q != [] {
        PoppedLatest(p, s, s', route, d);
      }
    }
  }

  lemma HeadIsServed(p: ProductDefinition, s: State, ops: seq<Op>, route: string)
    requires Tracks(p, s, ops) && QueueOf(s.storeQueues, route) != []
    ensures var d := QueueOf(s.storeQueues, route)[0].id;
            RouteNameOf(p, d) == Some(route) && FindDataItem(p, d).Some?
  {
    var d := QueueOf(s.storeQueues, route)[0].id;
    PoppedLast(QueueOf(s.storeQueues, route), d);
    assert QueuedHere(p, s, route, d);
  }

  lemma DispatchedLatest(p: ProductDefinition, s: State, item: RIMDataItem, d: Id)
    requires Accepted(p, item).Some?
    ensures Latest(p, AfterDispatch(p, s, item), d) ==
            if item.id == d then Some(Kept(p, d, Accepted(p, item).value.value)) else Latest(p, s, d)
  {
    var route, accepted := RouteNameOf(p, item.id).value, Accepted(p, item).value;
    var q, s' := QueueOf(s.storeQueues, route), AfterDispatch(p, s, item);
    assert s'.ps == s.ps && s'.storeQueues == s.storeQueues[route := Inserted(StorePolicy(p, route), q, accepted)];
    InsertedLast(p, route, q, accepted, d);
    if RouteNameOf(p, d) != Some(route) {
      assert item.id != d;
    }
  }

  lemma DispatchedHere(p: ProductDefinition, s: State, item: RIMDataItem, route: string, d: Id)
    requires QueuedHere(p, s, route, d)
    ensures QueuedHere(p, AfterDispatch(p, s, item), route, d)
  {
    if Accepted(p, item).Some? {
      InsertedLast(p, route, QueueOf(s.storeQueues, route), Accepted(p, item).value, d);
    }
  }

  lemma DispatchTracksLatest(p: ProductDefinition, s: State, ops: seq<Op>, item: RIMDataItem)
    requires Tracks(p, s, ops)
    ensures Tracks(p, AfterDispatch(p, s, item), ops + [Dispatch(item)])
  {
    var s' := AfterDispatch(p, s, item);
    assert (ops + [Dispatch(item)])[..|ops|] == ops;
    forall route, d ensures QueuedHere(p, s', route, d) {
      DispatchedHere(p, s, item, route, d);
    }
    forall d ensures LatestIs(p, s', ops + [Dispatch(item)], d) {
      assert LatestIs(p, s, ops, d);
      if Accepted(p, item).Some? {
        DispatchedLatest(p, s, item, d);
      }
    }
  }

  /** Steps that touch neither the data nor the store queues. */
  lemma OtherStepTracksLatest(p: ProductDefinition, s: State, s': State, ops: seq<Op>, op: Op)
    requires Tracks(p, s, ops) && !op.Dispatch?
    requires s'.storeQueues == s.storeQueues && SameKind(p, s.ps, s'.ps, Data)
    ensures Tracks(p, s', ops + [op])
  {
    assert (ops + [op])[..|ops|] == ops;
    forall route, d ensures QueuedHere(p, s', route, d) {
      assert QueuedHere(p, s, route, d);
    }
    forall d ensures LatestIs(p, s', ops + [op], d) {
      assert LatestIs(p, s, ops, d) && Same(p, s.ps, s'.ps, Target(Data, d));
    }
  }

  lemma {:induction false} RunTracksLatest(p: ProductDefinition, ops: seq<Op>)
    requires Valid(p) && Separated(p) && UsesValidIds(p) && StoresWhatItGets(p)
    ensures Tracks(p, Run(p, INITIAL, ops), ops)
  {
    if ops != [] {
      var n := |ops| - 1;
      var before, op := ops[..n], ops[n];
      RunTracksLatest(p, before);
      var s := Run(p, INITIAL, before);
      assert ops == before + [op];
      match op
      case Dispatch(item) => DispatchTracksLatest(p, s, before, item);
      case StoreTurn(route) => StoreTurnTracksLatest(p, s, before, route);
      case CapabilityTurn(route) =>
        AlwaysConsistent(p, before);
        if QueueOf(s.capabilityQueues, route) != [] {
          HeadIsStored(p, s, route);
          ProcessedKeeps(p, StageOf(s), QueueOf(s.capabilityQueues, route)[0].changedDataId);
        }
        OtherStepTracksLatest(p, s, Step(p, s, op), before, op);
      case PublishTurn => OtherStepTracksLatest(p, s, Step(p, s, op), before, op);
      case ShutPublisher => OtherStepTracksLatest(p, s, Step(p, s, op), before, op);
    }
  }

  ghost predicate Drained(s: State) {
    forall route :: QueueOf(s.storeQueues, route) == []
  }

  /** Main result: drained store queues leave each data item with its last accepted value. */
  lemma DrainedHoldsLastAccepted(p: ProductDefinition, ops: seq<Op>, d: Id)
    requires Valid(p) && Separated(p) && UsesValidIds(p) && StoresWhatItGets(p)
    requires Drained(Run(p, INITIAL, ops))
    ensures Get(p, Run(p, INITIAL, ops).ps, Target(Data, d)) == LastAccepted(p, ops, d)
  {
    RunTracksLatest(p, ops);
    assert LatestIs(p, Run(p, INITIAL, ops), ops, d);
  }

  // Two pipelines that differ in their queue policies and schedules.

  /** The same product but for its routes. */
  ghost predicate SameButRoutes(p: ProductDefinition, q: ProductDefinition) {
    p == q.(routes := p.routes)
  }

  /** `a` under p and `b` under q show the same values of a kind. */
  ghost predicate Agree(p: ProductDefinition, a: Partitions, q: ProductDefinition, b: Partitions, kind: TargetType) {
    forall u: Target :: u.kind == kind ==> AgreeAt(p, a, q, b, u)
  }

  ghost predicate AgreeAt(p: ProductDefinition, a: Partitions, q: ProductDefinition, b: Partitions, u: Target) {
    Get(p, a, u) == Get(q, b, u)
  }

  lemma {:induction false} InputsAgree(
    p: ProductDefinition, a: Partitions, q: ProductDefinition, b: Partitions, kind: TargetType, ids: seq<Id>, n: nat)
    requires n <= |ids| && Agree(p, a, q, b, kind)
    ensures InputSnapshot(p, a, kind, ids, n) == InputSnapshot(q, b, kind, ids, n)
  {
    if n != 0 {
      InputsAgree(p, a, q, b, kind, ids, n - 1);
      assert AgreeAt(p, a, q, b, Target(kind, ids[n - 1]));
    }
  }

  lemma DerivedAgree(p: ProductDefinition, a: Partitions, q: ProductDefinition, b: Partitions, c: DerivedDefinition)
    requires Agree(p, a, q, b, Data)
    ensures BatchCapability(p, a, c) == BatchCapability(q, b, c)
  {
    InputsAgree(p, a, q, b, Data, c.required, |c.required|);
    NoInputsNoSnapshot(p, a, Data, c.required, |c.required|);
    NoInputsNoSnapshot(q, b, Data, c.required, |c.required|);
  }

  lemma CapabilitiesAgree(p: ProductDefinition, a: Partitions, q: ProductDefinition, b: Partitions)
    requires SameButRoutes(p, q) && Agree(p, a, q, b, Data)
    requires HoldsBatch(p, a) && HoldsBatch(q, b)
    ensures Agree(p, a, q, b, Capability)
  {
    forall u: Target | u.kind == Capability ensures AgreeAt(p, a, q, b, u) {
      match FindCapability(p, u.id)
      case None =>
        UndefinedIsAbsent(p, a, u);
        UndefinedIsAbsent(q, b, u);
      case Some(c) =>
        DerivedAgree(p, a, q, b, c);
        assert c in p.capabilities && c in q.capabilities && c.id == u.id;
        assert CapabilityIsBatch(p, a, c) && CapabilityIsBatch(q, b, c);
    }
  }

  lemma FacadesAgree(p: ProductDefinition, a: Partitions, q: ProductDefinition, b: Partitions)
    requires SameButRoutes(p, q) && Agree(p, a, q, b, Capability)
    requires HoldsBatch(p, a) && HoldsBatch(q, b)
    ensures Agree(p, a, q, b, Facade)
  {
    forall u: Target | u.kind == Facade ensures AgreeAt(p, a, q, b, u) {
      match FindFacade(p, u.id)
      case None =>
        UndefinedIsAbsent(p, a, u);
        UndefinedIsAbsent(q, b, u);
      case Some(f) =>
        assert f in p.facades && f in q.facades && f.id == u.id;
        assert FacadeIsBatch(p, a, f) && FacadeIsBatch(q, b, f);
        InputsAreBatchInputs(p, a, f.required, |f.required|);
        InputsAreBatchInputs(q, b, f.required, |f.required|);
        InputsAgree(p, a, q, b, Capability, f.required, |f.required|);
    }
  }

  /** Stores that hold the same data and batch values hold the same values everywhere. */
  lemma BatchesAgree(p: ProductDefinition, a: Partitions, q: ProductDefinition, b: Partitions, t: Target)
    requires SameButRoutes(p, q) && Agree(p, a, q, b, Data)
    requires HoldsBatch(p, a) && HoldsBatch(q, b)
    ensures Get(p, a, t) == Get(q, b, t)
  {
    CapabilitiesAgree(p, a, q, b);
    FacadesAgree(p, a, q, b);
    assert AgreeAt(p, a, q, b, t);
  }

  /** Routes have no part in the numbering of partitions. */
  lemma SeparatedWhateverTheRoutes(p: ProductDefinition, q: ProductDefinition)
    requires SameButRoutes(p, q) && Separated(p)
    ensures Separated(q)
  {
    forall t, u ensures Apart(q, t, u) {
      assert Apart(p, t, u);
    }
  }

  /** Main result: two pipelines over the same product, with any queue policies and any schedules,
      that accepted the same last value for every item hold the same values everywhere once their
      queues are empty. */
  lemma PoliciesDoNotMatter(p: ProductDefinition, ops: seq<Op>, q: ProductDefinition, ops': seq<Op>, t: Target)
    requires SameButRoutes(p, q)
    requires Valid(p) && Separated(p) && UsesValidIds(p) && StoresWhatItGets(p) && ExactDiffs(p)
    requires Valid(q)
    requires Drained(Run(p, INITIAL, ops)) && Quiet(Run(p, INITIAL, ops))
    requires Drained(Run(q, INITIAL, ops')) && Quiet(Run(q, INITIAL, ops'))
    requires forall d :: LastAccepted(p, ops, d) == LastAccepted(q, ops', d)
    ensures Get(p, Run(p, INITIAL, ops).ps, t) == Get(q, Run(q, INITIAL, ops').ps, t)
  {
    var a, b := Run(p, INITIAL, ops).ps, Run(q, INITIAL, ops').ps;
    SeparatedWhateverTheRoutes(p, q);
    forall u: Target | u.kind == Data ensures AgreeAt(p, a, q, b, u) {
      DrainedHoldsLastAccepted(p, ops, u.id);
      DrainedHoldsLastAccepted(q, ops', u.id);
    }
    QuietHoldsBatch(p, ops);
    QuietHoldsBatch(q, ops');
    BatchesAgree(p, a, q, b, t);
  }
}
