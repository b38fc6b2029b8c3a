/** Store callbacks in general: on a buffered route a data item ends up with the fold of its store callback
    over all accepted values, in the order of their dispatch. */
module Folding {
  import opened Values
  import opened Queues
  import opened Product
  import opened Storage
  import opened Context
  import opened Partitioning
  import opened Evaluation
  import opened Derivation
  import opened Pipeline
  import opened Consistency
  import opened Settling

  /** One application of the callback; the first starts from a value with every bit zero. */
  function Applied(definition: DataItemDefinition, stored: Option<RIMValue>, v: RIMValue): Option<RIMValue> {
    Some(Retag(definition.store(match stored case None => BoolValue(false) case Some(u) => u, v), definition.storeValueType))
  }

  function Folded(definition: DataItemDefinition, stored: Option<RIMValue>, values: seq<RIMValue>): Option<RIMValue> {
    if values == [] then stored
    else Applied(definition, Folded(definition, stored, values[..|values| - 1]), values[|values| - 1])
  }

  lemma FoldedAtEnd(definition: DataItemDefinition, stored: Option<RIMValue>, values: seq<RIMValue>, v: RIMValue)
    ensures Folded(definition, stored, values + [v]) == Applied(definition, Folded(definition, stored, values), v)
  {
    assert (values + [v])[..|values|] == values;
  }

  lemma {:induction false} FoldedFromFront(definition: DataItemDefinition, stored: Option<RIMValue>, values: seq<RIMValue>)
    requires values != []
    ensures Folded(definition, stored, values) == Folded(definition, Applied(definition, stored, values[0]), values[1..])
  {
    var n := |values| - 1;
    if n != 0 {
      FoldedFromFront(definition, stored, values[..n]);
      assert values[..n][1..] == values[1..][..n - 1];
    }
  }

  /** The values of `d` in a queue, in order. */
  function ValuesOf(q: seq<RIMDataItem>, d: Id): seq<RIMValue> {
    if q == [] then []
    else
      var before := ValuesOf(q[..|q| - 1], d);
      if q[|q| - 1].id == d then before + [q[|q| - 1].value] else before
  }

  /** The values of `d` that were dispatched and accepted, normalised, in order. */
  function AcceptedValues(p: ProductDefinition, ops: seq<Op>, d: Id): seq<RIMValue> {
    if ops == [] then []
    else
      var before, op := AcceptedValues(p, ops[..|ops| - 1], d), ops[|ops| - 1];
      if op.Dispatch? && op.item.id == d && Accepted(p, op.item).Some? then before + [Accepted(p, op.item).value.value] else before
  }

  lemma ValuesAtEnd(q: seq<RIMDataItem>, e: RIMDataItem, d: Id)
    ensures ValuesOf(q + [e], d) == if e.id == d then ValuesOf(q, d) + [e.value] else ValuesOf(q, d)
  {
    assert (q + [e])[..|q|] == q;
  }

  lemma {:induction false} ValuesFromFront(q: seq<RIMDataItem>, d: Id)
    requires q != []
    ensures ValuesOf(q, d) == (if q[0].id == d then [q[0].value] else []) + ValuesOf(q[1..], d)
  {
    var n := |q| - 1;
    if n != 0 {
      ValuesFromFront(q[..n], d);
      assert q[..n][1..] == q[1..][..n - 1];
    }
  }

  /** The route of `d` buffers its store queue, and the item's diff, if it has one, hides no change. */
  ghost predicate Folds(p: ProductDefinition, d: Id, definition: DataItemDefinition, route: string) {
    && FindDataItem(p, d) == Some(definition) && RouteNameOf(p, d) == Some(route) && StorePolicy(p, route) == Fifo
    && (definition.diff.Some? ==> NeverHidesAChange(definition.diff.value))
  }

  /** What the store will hold of `d` once the queue of its route has drained. */
  function Pending(p: ProductDefinition, s: State, d: Id, definition: DataItemDefinition, route: string): Option<RIMValue> {
    Folded(definition, Get(p, s.ps, Target(Data, d)), ValuesOf(QueueOf(s.storeQueues, route), d))
  }

  /** The worker's turn applies the callback, whether or not it has to write. */
  lemma StoreApplies(p: ProductDefinition, ps: Partitions, item: RIMDataItem, definition: DataItemDefinition, route: string)
    requires Separated(p) && Folds(p, item.id, definition, route)
    ensures Get(p, AfterStore(p, ps, item), Target(Data, item.id)) ==
            Applied(definition, Get(p, ps, Target(Data, item.id)), item.value)
  {
    var t := Target(Data, item.id);
    var current := Get(p, ps, t);
    assert Apart(p, t, t);
    var v := StoredValue(definition, current, item.value);
    SetKeepsOthers(p, ps, t, v, t);
    if !Writes(p, ps, item) {
      NotChangedIsEqual(definition.diff.value, current.value, v);
    }
  }

  lemma NotChangedIsEqual(diff: DiffCallback, a: RIMValue, b: RIMValue)
    requires NeverHidesAChange(diff) && !Changed(diff, a, b)
    ensures a == b
  {
  }

  // Items wait only in the queue of their own route.

  ghost predicate AtHome(p: ProductDefinition, s: State, route: string) {
    AllServedBy(p, QueueOf(s.storeQueues, route), route)
  }

  ghost predicate AllAtHome(p: ProductDefinition, s: State) {
    forall route :: AtHome(p, s, route)
  }

  lemma InsertedIsOldOrNew(policy: Policy<RIMDataItem>, q: seq<RIMDataItem>, e: RIMDataItem, i: nat)
    requires (policy.Fifo? || policy.Coalescing?) && i < |Inserted(policy, q, e)|
    ensures Inserted(policy, q, e)[i] == e || exists j :: 0 <= j < |q| && q[j] == Inserted(policy, q, e)[i]
  {
  }

  ghost predicate AllServedBy(p: ProductDefinition, q: seq<RIMDataItem>, route: string) {
    forall i :: 0 <= i < |q| ==> RouteNameOf(p, q[i].id) == Some(route)
  }

  lemma InsertedServedBy(p: ProductDefinition, policy: Policy<RIMDataItem>, q: seq<RIMDataItem>, e: RIMDataItem, route: string)
    requires (policy.Fifo? || policy.Coalescing?) && AllServedBy(p, q, route) && RouteNameOf(p, e.id) == Some(route)
    ensures AllServedBy(p, Inserted(policy, q, e), route)
  {
    forall i | 0 <= i < |Inserted(policy, q, e)| ensures RouteNameOf(p, Inserted(policy, q, e)[i].id) == Some(route) {
      InsertedIsOldOrNew(policy, q, e, i);
    }
  }

  lemma DispatchAtHome(p: ProductDefinition, s: State, item: RIMDataItem, route: string)
    requires AtHome(p, s, route)
    ensures AtHome(p, AfterDispatch(p, s, item), route)
  {
    var q := QueueOf(s.storeQueues, route);
    if Accepted(p, item).Some? && RouteNameOf(p, item.id) == Some(route) {
      InsertedServedBy(p, StorePolicy(p, route), q, Accepted(p, item).value, route);
    } else {
      assert QueueOf(AfterDispatch(p, s, item).storeQueues, route) == q;
    }
  }

  lemma StoreTurnAtHome(p: ProductDefinition, s: State, other: string, route: string)
    requires AtHome(p, s, route)
    ensures AtHome(p, AfterStoreTurn(p, s, other), route)
  {
    var q := QueueOf(s.storeQueues, route);
    var q' := if other == route && q != [] then q[1..] else q;
    assert QueueOf(AfterStoreTurn(p, s, other).storeQueues, route) == q';
    assert AllServedBy(p, q', route);
  }

  lemma StepAtHome(p: ProductDefinition, s: State, op: Op, route: string)
    requires AtHome(p, s, route)
    ensures AtHome(p, Step(p, s, op), route)
  {
    match op
    case Dispatch(item) => DispatchAtHome(p, s, item, route);
    case StoreTurn(other) => StoreTurnAtHome(p, s, other, route);
    case _ => assert Step(p, s, op).storeQueues == s.storeQueues;
  }

  lemma {:induction false} AlwaysAtHome(p: ProductDefinition, ops: seq<Op>)
    ensures AllAtHome(p, Run(p, INITIAL, ops))
  {
    if ops != [] {
      AlwaysAtHome(p, ops[..|ops| - 1]);
      var s := Run(p, INITIAL, ops[..|ops| - 1]);
      forall route ensures AtHome(p, Run(p, INITIAL, ops), route) {
        assert AtHome(p, s, route);
        StepAtHome(p, s, ops[|ops| - 1], route);
      }
    }
  }

  // What each step does to the fold.

  lemma DispatchFolds(p: ProductDefinition, s: State, item: RIMDataItem, d: Id, definition: DataItemDefinition, route: string)
    requires Folds(p, d, definition, route)
    ensures Pending(p, AfterDispatch(p, s, item), d, definition, route) ==
            if item.id == d && Accepted(p, item).Some?
            then Applied(definition, Pending(p, s, d, definition, route), Accepted(p, item).value.value)
            else Pending(p, s, d, definition, route)
  {
    if Accepted(p, item).Some? && RouteNameOf(p, item.id) == Some(route) {
      var q, e := QueueOf(s.storeQueues, route), Accepted(p, item).value;
      ValuesAtEnd(q, e, d);
      FoldedAtEnd(definition, Get(p, s.ps, Target(Data, d)), ValuesOf(q, d), e.value);
    }
  }

  lemma OwnStoreTurnFolds(p: ProductDefinition, s: State, d: Id, definition: DataItemDefinition, route: string)
    requires Separated(p) && Folds(p, d, definition, route)
    ensures Pending(p, AfterStoreTurn(p, s, route), d, definition, route) == Pending(p, s, d, definition, route)
  {
    var q := QueueOf(s.storeQueues, route);
    if q != [] {
      HeadFolds(p, s.ps, q, d, definition, route);
    }
  }

  /** Taking the head of the queue into the store leaves the fold as it was. */
  lemma HeadFolds(p: ProductDefinition, ps: Partitions, q: seq<RIMDataItem>, d: Id, definition: DataItemDefinition, route: string)
    requires Separated(p) && Folds(p, d, definition, route) && q != []
    ensures Folded(definition, Get(p, AfterStore(p, ps, q[0]), Target(Data, d)), ValuesOf(q[1..], d)) ==
            Folded(definition, Get(p, ps, Target(Data, d)), ValuesOf(q, d))
  {
    ValuesFromFront(q, d);
    if q[0].id == d {
      StoreApplies(p, ps, q[0], definition, route);
      FoldedHead(definition, Get(p, ps, Target(Data, d)), q[0].value, ValuesOf(q[1..], d));
    } else {
      OthersUntouched(p, ps, q[0], d);
      assert [] + ValuesOf(q[1..], d) == ValuesOf(q[1..], d);
    }
  }

  lemma FoldedHead(definition: DataItemDefinition, stored: Option<RIMValue>, v: RIMValue, rest: seq<RIMValue>)
    ensures Folded(definition, stored, [v] + rest) == Folded(definition, Applied(definition, stored, v), rest)
  {
    FoldedFromFront(definition, stored, [v] + rest);
    assert ([v] + rest)[1..] == rest;
  }

  lemma OthersUntouched(p: ProductDefinition, ps: Partitions, item: RIMDataItem, d: Id)
    requires Separated(p) && item.id != d
    ensures Same(p, ps, AfterStore(p, ps, item), Target(Data, d))
  {
    if Writes(p, ps, item) {
      AfterStoreEffect(p, ps, item);
    }
  }

  lemma StoreTurnFolds(p: ProductDefinition, s: State, other: string, d: Id, definition: DataItemDefinition, route: string)
    requires Separated(p) && Folds(p, d, definition, route) && AllAtHome(p, s)
    ensures Pending(p, AfterStoreTurn(p, s, other), d, definition, route) == Pending(p, s, d, definition, route)
  {
    if other == route {
      OwnStoreTurnFolds(p, s, d, definition, route);
    } else {
      var q := QueueOf(s.storeQueues, other);
      assert AtHome(p, s, other);
      if q != [] {
        OthersUntouched(p, s.ps, q[0], d);
      }
    }
  }

  lemma CapabilityTurnFolds(p: ProductDefinition, s: State, other: string, d: Id, definition: DataItemDefinition, route: string)
    requires Valid(p) && Separated(p)
    ensures Pending(p, AfterCapabilityTurn(p, s, other), d, definition, route) == Pending(p, s, d, definition, route)
  {
    var q := QueueOf(s.capabilityQueues, other);
    if q != [] {
      TurnKeepsData(p, StageOf(s), q[0].changedDataId, d);
    }
  }

  lemma TurnKeepsData(p: ProductDefinition, s: Stage, changed: Id, d: Id)
    requires Valid(p) && Separated(p)
    ensures Same(p, s.ps, Processed(p, s, changed).ps, Target(Data, d))
  {
    var cs := Dependents(p.capabilities, changed);
    if changed != INVALID_DATA_ID && cs != [] {
      DependentsAreCapabilities(p, changed);
      var told := Published(p, s, Target(Data, changed));
      RoundsLeaveCurrent(p, told, cs, |cs|, cs[0]);
      assert Same(p, told.ps, Processed(p, s, changed).ps, Target(Data, d));
    }
  }

  /** At every moment, what is stored of `d` and what waits fold to the fold of all accepted values. */
  lemma {:induction false} RunFolds(p: ProductDefinition, ops: seq<Op>, d: Id, definition: DataItemDefinition, route: string)
    requires Valid(p) && Separated(p) && Folds(p, d, definition, route)
    ensures Pending(p, Run(p, INITIAL, ops), d, definition, route) == Folded(definition, None, AcceptedValues(p, ops, d))
  {
    if ops != [] {
      var before, op := ops[..|ops| - 1], ops[|ops| - 1];
      RunFolds(p, before, d, definition, route);
      AlwaysAtHome(p, before);
      var s := Run(p, INITIAL, before);
      match op
      case Dispatch(item) =>
        DispatchFolds(p, s, item, d, definition, route);
        if item.id == d && Accepted(p, item).Some? {
          FoldedAtEnd(definition, None, AcceptedValues(p, before, d), Accepted(p, item).value.value);
        }
      case StoreTurn(other) => StoreTurnFolds(p, s, other, d, definition, route);
      case CapabilityTurn(other) => CapabilityTurnFolds(p, s, other, d, definition, route);
      case PublishTurn =>
      case ShutPublisher =>
    }
  }

  /** Main result: when its store queue has drained, an item of a buffered route holds the fold of its store
      callback over the normalised values that were accepted, in their order, whatever the schedule. */
  lemma DrainedHoldsFold(p: ProductDefinition, ops: seq<Op>, d: Id, definition: DataItemDefinition, r: RouteDefinition)
    requires Valid(p) && Separated(p) && definition in p.dataItems && definition.id == d
    requires RouteOf(p, Target(Data, d)) == Some(r) && r.storePolicy == BufferedQueue
    requires definition.diff.Some? ==> NeverHidesAChange(definition.diff.value)
    requires QueueOf(Run(p, INITIAL, ops).storeQueues, r.name) == []
    ensures Get(p, Run(p, INITIAL, ops).ps, Target(Data, d)) == Folded(definition, None, AcceptedValues(p, ops, d))
  {
    assert Meets(p, DataIdsDiffer) && Meets(p, RouteNamesDiffer);
    DistinctFindsItself(p.dataItems, DataItemId, definition);
    DistinctFindsItself(p.routes, RouteName, r);
    RunFolds(p, ops, d, definition, r.name);
  }
}
