/** Derived values never go stale unnoticed: in every reachable state a capability is up to date or
    one of its inputs is waiting, facades are always up to date, and a quiet pipeline holds exactly
    what recomputing everything from the data would give. */
module Consistency {
  import opened Values
  import opened Product
  import opened Storage
  import opened Context
  import opened Partitioning
  import opened Snapshots
  import opened Evaluation
  import opened Derivation
  import opened Pipeline

  /** Process ignores the invalid id, so no data item may use it. */
  ghost predicate UsesValidIds(p: ProductDefinition) {
    FindDataItem(p, INVALID_DATA_ID).None?
  }

  /** Everything that waits is the id of a stored data item. */
  ghost predicate FedAt(p: ProductDefinition, s: State, route: string, d: Id) {
    WaitingOn(s, route, d) ==> Get(p, s.ps, Target(Data, d)).Some?
  }

  ghost predicate CapabilityTracked(p: ProductDefinition, s: State, c: DerivedDefinition) {
    c in p.capabilities ==>
      && (HasInput(p, s.ps, Capability, c) ==> Current(p, s.ps, Capability, c) || InputPending(s, c))
      && (Get(p, s.ps, Target(Capability, c.id)).Some? ==> HasInput(p, s.ps, Capability, c))
  }

  ghost predicate InputPending(s: State, c: DerivedDefinition) {
    exists d :: d in c.required && Pending(s, d)
  }

  ghost predicate Consistent(p: ProductDefinition, s: State) {
    && (forall route, d :: FedAt(p, s, route, d))
    && (forall c :: CapabilityTracked(p, s, c))
    && FacadesSettled(p, s.ps)
  }

  // Each kind of step keeps it.

  /** A step that leaves the store alone and keeps or adds waiting ids. */
  lemma UnchangedStore(p: ProductDefinition, s: State, s': State)
    requires Consistent(p, s) && s'.ps == s.ps && s'.capabilityQueues == s.capabilityQueues
    ensures Consistent(p, s')
  {
    forall route, d ensures FedAt(p, s', route, d) {
      assert FedAt(p, s, route, d);
    }
    forall c ensures CapabilityTracked(p, s', c) {
      assert CapabilityTracked(p, s, c);
      if InputPending(s, c) {
        var d :| d in c.required && Pending(s, d);
        var route :| WaitingOn(s, route, d);
        assert WaitingOn(s', route, d);
        assert Pending(s', d);
      }
    }
  }

  lemma StoreTurnWaits(p: ProductDefinition, s: State, route: string, route': string, d: Id)
    ensures var q := QueueOf(s.storeQueues, route);
            WaitingOn(AfterStoreTurn(p, s, route), route', d) <==>
              || WaitingOn(s, route', d)
              || (q != [] && Writes(p, s.ps, q[0]) && route' == route && d == q[0].id)
  {
    var q := QueueOf(s.storeQueues, route);
    if q != [] && Writes(p, s.ps, q[0]) {
      InsertedWaits(p, route, QueueOf(s.capabilityQueues, route), CapabilityInput(q[0].id), d);
    }
  }

  /** Writing a data item changes only that item. */
  lemma AfterStoreEffect(p: ProductDefinition, ps: Partitions, item: RIMDataItem)
    requires Separated(p) && Writes(p, ps, item)
    ensures forall u :: u != Target(Data, item.id) ==> Same(p, ps, AfterStore(p, ps, item), u)
    ensures Get(p, AfterStore(p, ps, item), Target(Data, item.id)).Some?
  {
    var t := Target(Data, item.id);
    var v := StoredValue(FindDataItem(p, item.id).value, Get(p, ps, t), item.value);
    SetKeepsOthers(p, ps, t, v, t);
    forall u | u != t ensures Same(p, ps, AfterStore(p, ps, item), u) {
      SetKeepsOthers(p, ps, t, v, u);
    }
  }

  lemma StoreTurnKeeps(p: ProductDefinition, s: State, route: string)
    requires Separated(p) && Consistent(p, s)
    ensures Consistent(p, AfterStoreTurn(p, s, route))
  {
    var s' := AfterStoreTurn(p, s, route);
    var q := QueueOf(s.storeQueues, route);
    if q == [] || !Writes(p, s.ps, q[0]) {
      UnchangedStore(p, s, s');
    } else {
      AfterStoreEffect(p, s.ps, q[0]);
      forall route', d ensures FedAt(p, s', route', d) {
        assert FedAt(p, s, route', d);
        StoreTurnWaits(p, s, route, route', d);
        assert d != q[0].id ==> Same(p, s.ps, s'.ps, Target(Data, d));
      }
      forall c ensures CapabilityTracked(p, s', c) {
        assert CapabilityTracked(p, s, c);
        StoreTurnTracks(p, s, route, c);
      }
      forall f ensures SettledIn(p, s'.ps, Facade, f) {
        assert SettledIn(p, s.ps, Facade, f);
        assert forall id :: Same(p, s.ps, s'.ps, Target(Capability, id));
        assert Same(p, s.ps, s'.ps, Target(Facade, f.id));
        SameInputsSameDerive(p, s.ps, s'.ps, Facade, f);
      }
    }
  }

  /** A capability that reads the written item now has a pending input; any other is as it was. */
  lemma StoreTurnTracks(p: ProductDefinition, s: State, route: string, c: DerivedDefinition)
    requires CapabilityTracked(p, s, c)
    requires var q := QueueOf(s.storeQueues, route);
             && q != [] && Writes(p, s.ps, q[0])
             && (forall u :: u != Target(Data, q[0].id) ==> Same(p, s.ps, AfterStore(p, s.ps, q[0]), u))
             && Get(p, AfterStore(p, s.ps, q[0]), Target(Data, q[0].id)).Some?
    ensures CapabilityTracked(p, AfterStoreTurn(p, s, route), c)
  {
    var s' := AfterStoreTurn(p, s, route);
    var written := QueueOf(s.storeQueues, route)[0].id;
    assert Same(p, s.ps, s'.ps, Target(Capability, c.id));
    if written in c.required {
      StoreTurnWaits(p, s, route, route, written);
      assert WaitingOn(s', route, written) && Pending(s', written);
      var i :| 0 <= i < |c.required| && c.required[i] == written;
      assert Get(p, s'.ps, Target(Data, c.required[i])).Some?;
    } else {
      assert forall id :: id in c.required ==> Same(p, s.ps, s'.ps, Target(Data, id));
      SameInputsSameDerive(p, s.ps, s'.ps, Capability, c);
      if InputPending(s, c) {
        var d :| d in c.required && Pending(s, d);
        var route' :| WaitingOn(s, route', d);
        StoreTurnWaits(p, s, route, route', d);
        assert WaitingOn(s', route', d) && Pending(s', d);
      }
    }
  }

  lemma PoppedWaits(q: seq<CapabilityInput>, d: Id)
    requires q != []
    ensures Waiting(q[1..], d) ==> Waiting(q, d)
    ensures Waiting(q, d) && d != q[0].changedDataId ==> Waiting(q[1..], d)
  {
    if Waiting(q[1..], d) {
      var i :| 0 <= i < |q[1..]| && q[1..][i].changedDataId == d;
      assert q[i + 1].changedDataId == d;
    }
    if Waiting(q, d) && d != q[0].changedDataId {
      var i :| 0 <= i < |q| && q[i].changedDataId == d;
      assert q[1..][i - 1].changedDataId == d;
    }
  }

  lemma CapabilityTurnWaits(p: ProductDefinition, s: State, route: string, route': string, d: Id)
    requires QueueOf(s.capabilityQueues, route) != []
    ensures WaitingOn(AfterCapabilityTurn(p, s, route), route', d) ==> WaitingOn(s, route', d)
    ensures WaitingOn(s, route', d) && d != QueueOf(s.capabilityQueues, route)[0].changedDataId ==>
              WaitingOn(AfterCapabilityTurn(p, s, route), route', d)
  {
    PoppedWaits(QueueOf(s.capabilityQueues, route), d);
  }

  lemma DependentsAreCapabilities(p: ProductDefinition, id: Id)
    ensures AllIn(Dependents(p.capabilities, id), p.capabilities)
  {
    var cs := Dependents(p.capabilities, id);
    forall i | 0 <= i < |cs| ensures cs[i] in p.capabilities {
      DependentsMembers(p.capabilities, id, cs[i]);
    }
  }

  /** Processing a stored id: every capability that reads it is current, everything else is as before. */
  lemma ProcessedEffect(p: ProductDefinition, s: Stage, d: Id, c: DerivedDefinition)
    requires Valid(p) && Separated(p) && FacadesSettled(p, s.ps) && d != INVALID_DATA_ID && c in p.capabilities
    ensures var s' := Processed(p, s, d);
            && SameKind(p, s.ps, s'.ps, Data)
            && FacadesSettled(p, s'.ps)
            && (d in c.required ==> Current(p, s'.ps, Capability, c))
            && (d !in c.required ==> Same(p, s.ps, s'.ps, Target(Capability, c.id)))
  {
    var cs := Dependents(p.capabilities, d);
    DependentsAreCapabilities(p, d);
    AfterCapabilitiesEffect(p, Published(p, s, Target(Data, d)), cs, |cs|, c);
    AmongFirstIsMember(cs, |cs|, c);
    DependentsMembers(p.capabilities, d, c);
  }

  /** The same without a capability to look at. */
  lemma ProcessedKeeps(p: ProductDefinition, s: Stage, d: Id)
    requires Valid(p) && Separated(p) && FacadesSettled(p, s.ps) && d != INVALID_DATA_ID
    ensures SameKind(p, s.ps, Processed(p, s, d).ps, Data)
    ensures FacadesSettled(p, Processed(p, s, d).ps)
  {
    var cs := Dependents(p.capabilities, d);
    DependentsAreCapabilities(p, d);
    if cs != [] {
      AfterCapabilitiesEffect(p, Published(p, s, Target(Data, d)), cs, |cs|, cs[0]);
    }
  }

  lemma CapabilityTurnKeeps(p: ProductDefinition, s: State, route: string)
    requires Valid(p) && Separated(p) && UsesValidIds(p) && Consistent(p, s)
    ensures Consistent(p, AfterCapabilityTurn(p, s, route))
  {
    var s' := AfterCapabilityTurn(p, s, route);
    var q := QueueOf(s.capabilityQueues, route);
    if q != [] {
      var d := q[0].changedDataId;
      HeadIsStored(p, s, route);
      ProcessedKeeps(p, StageOf(s), d);
      forall route', d' ensures FedAt(p, s', route', d') {
        assert FedAt(p, s, route', d');
        CapabilityTurnWaits(p, s, route, route', d');
        assert Same(p, s.ps, s'.ps, Target(Data, d'));
      }
      forall c ensures CapabilityTracked(p, s', c) {
        assert CapabilityTracked(p, s, c);
        if c in p.capabilities {
          ProcessedEffect(p, StageOf(s), d, c);
          CapabilityTurnTracks(p, s, route, c);
        }
      }
    }
  }

  lemma HeadIsStored(p: ProductDefinition, s: State, route: string)
    requires Consistent(p, s) && UsesValidIds(p) && QueueOf(s.capabilityQueues, route) != []
    ensures var d := QueueOf(s.capabilityQueues, route)[0].changedDataId;
            Get(p, s.ps, Target(Data, d)).Some? && d != INVALID_DATA_ID
  {
    var d := QueueOf(s.capabilityQueues, route)[0].changedDataId;
    assert WaitingOn(s, route, d) && FedAt(p, s, route, d);
    if d == INVALID_DATA_ID {
      UndefinedIsAbsent(p, s.ps, Target(Data, d));
    }
  }

  lemma CapabilityTurnTracks(p: ProductDefinition, s: State, route: string, c: DerivedDefinition)
    requires CapabilityTracked(p, s, c) && c in p.capabilities && QueueOf(s.capabilityQueues, route) != []
    requires var d := QueueOf(s.capabilityQueues, route)[0].changedDataId;
             var ps' := AfterCapabilityTurn(p, s, route).ps;
             && Get(p, s.ps, Target(Data, d)).Some?
             && SameKind(p, s.ps, ps', Data)
             && (d in c.required ==> Current(p, ps', Capability, c))
             && (d !in c.required ==> Same(p, s.ps, ps', Target(Capability, c.id)))
    ensures CapabilityTracked(p, AfterCapabilityTurn(p, s, route), c)
  {
    var d := QueueOf(s.capabilityQueues, route)[0].changedDataId;
    var s' := AfterCapabilityTurn(p, s, route);
    assert SameInputs(p, s.ps, s'.ps, Capability, c) by {
      assert forall id :: Same(p, s.ps, s'.ps, Target(Data, id));
    }
    SameInputsSameDerive(p, s.ps, s'.ps, Capability, c);
    if d in c.required {
      var i :| 0 <= i < |c.required| && c.required[i] == d;
      assert Get(p, s.ps, Target(Data, c.required[i])).Some?;
    } else if InputPending(s, c) {
      var e :| e in c.required && Pending(s, e);
      var route' :| WaitingOn(s, route', e);
      CapabilityTurnWaits(p, s, route, route', e);
      assert WaitingOn(s', route', e) && Pending(s', e);
    }
  }

  // Every reachable state.

  lemma StepKeeps(p: ProductDefinition, s: State, op: Op)
    requires Valid(p) && Separated(p) && UsesValidIds(p) && Consistent(p, s)
    ensures Consistent(p, Step(p, s, op))
  {
    match op
    case Dispatch(_) => UnchangedStore(p, s, Step(p, s, op));
    case StoreTurn(route) => StoreTurnKeeps(p, s, route);
    case CapabilityTurn(route) => CapabilityTurnKeeps(p, s, route);
    case PublishTurn => UnchangedStore(p, s, Step(p, s, op));
    case ShutPublisher => UnchangedStore(p, s, Step(p, s, op));
  }

  lemma InitiallyConsistent(p: ProductDefinition)
    ensures Consistent(p, INITIAL)
  {
    forall c ensures CapabilityTracked(p, INITIAL, c) {
    }
    forall f ensures SettledIn(p, INITIAL.ps, Facade, f) {
    }
  }

  /** Main result: whatever is dispatched and however the workers take turns, every capability with a
      stored input is current or has an input waiting, and every facade is current. */
  lemma {:induction false} AlwaysConsistent(p: ProductDefinition, ops: seq<Op>)
    requires Valid(p) && Separated(p) && UsesValidIds(p)
    ensures Consistent(p, Run(p, INITIAL, ops))
  {
    if ops == [] {
      InitiallyConsistent(p);
    } else {
      AlwaysConsistent(p, ops[..|ops| - 1]);
      StepKeeps(p, Run(p, INITIAL, ops[..|ops| - 1]), ops[|ops| - 1]);
    }
  }

  // Batch recomputation: what the derived values would be if computed from the data alone.

  ghost function BatchCapability(p: ProductDefinition, data: Partitions, c: DerivedDefinition): Option<RIMValue> {
    if HasInput(p, data, Capability, c) then Some(Derive(p, data, Capability, c)) else None
  }

  /** The recomputed values of the first n capability ids. */
  ghost function BatchInputs(p: ProductDefinition, data: Partitions, ids: seq<Id>, n: nat): RIMSnapshot
    requires n <= |ids|
  {
    if n == 0 then []
    else
      var before := BatchInputs(p, data, ids, n - 1);
      match FindCapability(p, ids[n - 1])
      case None => before
      case Some(c) =>
        match BatchCapability(p, data, c)
        case None => before
        case Some(v) => before + [RIMDataItem(ids[n - 1], v)]
  }

  ghost function BatchFacade(p: ProductDefinition, data: Partitions, f: DerivedDefinition): Option<RIMValue> {
    var inputs := BatchInputs(p, data, f.required, |f.required|);
    if inputs == [] then None else Some(f.build(inputs))
  }

  /** The batch values are functions of the data: they do not look at any derived value. */
  lemma BatchReadsDataOnly(p: ProductDefinition, a: Partitions, b: Partitions)
    requires SameKind(p, a, b, Data)
    ensures forall c :: BatchCapability(p, a, c) == BatchCapability(p, b, c)
    ensures forall f :: BatchFacade(p, a, f) == BatchFacade(p, b, f)
  {
    forall c ensures BatchCapability(p, a, c) == BatchCapability(p, b, c) {
      assert SameInputs(p, a, b, Capability, c) by {
        assert forall id :: Same(p, a, b, Target(Data, id));
      }
      SameInputsSameDerive(p, a, b, Capability, c);
    }
    forall f ensures BatchFacade(p, a, f) == BatchFacade(p, b, f) {
      BatchInputsReadDataOnly(p, a, b, f.required, |f.required|);
    }
  }

  lemma {:induction false} BatchInputsReadDataOnly(p: ProductDefinition, a: Partitions, b: Partitions, ids: seq<Id>, n: nat)
    requires n <= |ids|
    requires forall c :: BatchCapability(p, a, c) == BatchCapability(p, b, c)
    ensures BatchInputs(p, a, ids, n) == BatchInputs(p, b, ids, n)
  {
    if n != 0 {
      BatchInputsReadDataOnly(p, a, b, ids, n - 1);
    }
  }

  ghost predicate ExactDiffs(p: ProductDefinition) {
    && (forall c :: c in p.capabilities ==> NeverHidesAChange(c.diff))
    && (forall f :: f in p.facades ==> NeverHidesAChange(f.diff))
  }

  lemma IdentityDiffIsExact()
    ensures NeverHidesAChange(IdentityDiff)
  {
  }

  ghost predicate CapabilityIsBatch(p: ProductDefinition, ps: Partitions, c: DerivedDefinition) {
    c in p.capabilities ==> Get(p, ps, Target(Capability, c.id)) == BatchCapability(p, ps, c)
  }

  ghost predicate FacadeIsBatch(p: ProductDefinition, ps: Partitions, f: DerivedDefinition) {
    f in p.facades ==> Get(p, ps, Target(Facade, f.id)) == BatchFacade(p, ps, f)
  }

  ghost predicate HoldsBatch(p: ProductDefinition, ps: Partitions) {
    (forall c :: CapabilityIsBatch(p, ps, c)) && (forall f :: FacadeIsBatch(p, ps, f))
  }

  lemma {:induction false} InputsAreBatchInputs(p: ProductDefinition, ps: Partitions, ids: seq<Id>, n: nat)
    requires n <= |ids|
    requires forall c :: CapabilityIsBatch(p, ps, c)
    ensures InputSnapshot(p, ps, Capability, ids, n) == BatchInputs(p, ps, ids, n)
  {
    if n != 0 {
      InputsAreBatchInputs(p, ps, ids, n - 1);
      match FindCapability(p, ids[n - 1])
      case None => UndefinedIsAbsent(p, ps, Target(Capability, ids[n - 1]));
      case Some(c) => assert CapabilityIsBatch(p, ps, c);
    }
  }

  lemma {:induction false} NoInputsNoSnapshot(p: ProductDefinition, ps: Partitions, kind: TargetType, ids: seq<Id>, n: nat)
    requires n <= |ids|
    ensures InputSnapshot(p, ps, kind, ids, n) != [] <==> exists i :: 0 <= i < n && Get(p, ps, Target(kind, ids[i])).Some?
  {
    if n != 0 {
      NoInputsNoSnapshot(p, ps, kind, ids, n - 1);
    }
  }

  lemma SettledIsBatch(p: ProductDefinition, ps: Partitions)
    requires ExactDiffs(p) && FacadesSettled(p, ps)
    requires forall c :: SettledIn(p, ps, Capability, c)
    ensures HoldsBatch(p, ps)
  {
    forall c ensures CapabilityIsBatch(p, ps, c) {
      assert SettledIn(p, ps, Capability, c);
    }
    forall f ensures FacadeIsBatch(p, ps, f) {
      assert SettledIn(p, ps, Facade, f);
      InputsAreBatchInputs(p, ps, f.required, |f.required|);
      NoInputsNoSnapshot(p, ps, Capability, f.required, |f.required|);
    }
  }

  /** Main result: when no capability queue holds anything, the stored derived values are exactly the
      batch recomputation from the stored data. */
  lemma QuietHoldsBatch(p: ProductDefinition, ops: seq<Op>)
    requires Valid(p) && Separated(p) && UsesValidIds(p) && ExactDiffs(p)
    requires Quiet(Run(p, INITIAL, ops))
    ensures HoldsBatch(p, Run(p, INITIAL, ops).ps)
  {
    AlwaysConsistent(p, ops);
    var s := Run(p, INITIAL, ops);
    forall c ensures SettledIn(p, s.ps, Capability, c) {
      assert CapabilityTracked(p, s, c);
      assert !InputPending(s, c);
    }
    SettledIsBatch(p, s.ps);
  }
}
