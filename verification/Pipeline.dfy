/** The whole pipeline as a state machine whose steps are dispatches and turns of the workers. */
module Pipeline {
  import opened Values
  import opened Queues
  import opened Product
  import opened Storage
  import opened Context
  import opened Snapshots
  import opened Evaluation

  /** Store and capability queues are keyed by the name of their route. */
  datatype State = State(
    ps: Partitions,
    storeQueues: map<string, seq<RIMDataItem>>,
    capabilityQueues: map<string, seq<CapabilityInput>>,
    published: seq<PublisherInput>,
    shut: bool)

  const INITIAL := State(map[], map[], map[], [], false)

  datatype Op =
    | Dispatch(item: RIMDataItem)
    | StoreTurn(route: string)
    | CapabilityTurn(route: string)
    | PublishTurn
    | ShutPublisher

  function QueueOf<T>(queues: map<string, seq<T>>, route: string): seq<T> {
    if route in queues then queues[route] else []
  }

  function ChangedDataId(input: CapabilityInput): Id { input.changedDataId }

  function PolicyFor<T>(policy: QueuePolicy, key: T -> Id): Policy<T> {
    match policy
    case BufferedQueue => Fifo
    case CoalescingQueue => Coalescing(key)
  }

  function StorePolicy(p: ProductDefinition, route: string): Policy<RIMDataItem> {
    match FindWith(p.routes, RouteName, route)
    case None => Fifo
    case Some(r) => PolicyFor(r.storePolicy, ItemId)
  }

  function CapabilityPolicy(p: ProductDefinition, route: string): Policy<CapabilityInput> {
    match FindWith(p.routes, RouteName, route)
    case None => Fifo
    case Some(r) => PolicyFor(r.capabilityPolicy, ChangedDataId)
  }

  /** The route whose queues serve a data id. */
  function RouteNameOf(p: ProductDefinition, id: Id): Option<string> {
    match RouteOf(p, Target(Data, id))
    case None => None
    case Some(r) => Some(r.name)
  }

  /** What dispatching an item puts on its store queue, or None when the item is refused. */
  function Accepted(p: ProductDefinition, item: RIMDataItem): Option<RIMDataItem> {
    match FindDataItem(p, item.id)
    case None => None
    case Some(definition) =>
      if item.value.Type() != definition.rawValueType || RouteNameOf(p, item.id).None? then None
      else Some(RIMDataItem(item.id, definition.normalize(item.value)))
  }

  function StageOf(s: State): Stage {
    Stage(s.ps, s.published, s.shut)
  }

  function AfterDispatch(p: ProductDefinition, s: State, item: RIMDataItem): State {
    match Accepted(p, item)
    case None => s
    case Some(accepted) =>
      var route := RouteNameOf(p, item.id).value;
      s.(storeQueues := s.storeQueues[route := Inserted(StorePolicy(p, route), QueueOf(s.storeQueues, route), accepted)])
  }

  function AfterStoreTurn(p: ProductDefinition, s: State, route: string): State {
    var q := QueueOf(s.storeQueues, route);
    if q == [] then s
    else
      var popped := s.(ps := AfterStore(p, s.ps, q[0]), storeQueues := s.storeQueues[route := q[1..]]);
      if Writes(p, s.ps, q[0]) then
        popped.(capabilityQueues := s.capabilityQueues[route :=
          Inserted(CapabilityPolicy(p, route), QueueOf(s.capabilityQueues, route), CapabilityInput(q[0].id))])
      else popped
  }

  function AfterCapabilityTurn(p: ProductDefinition, s: State, route: string): State {
    var q := QueueOf(s.capabilityQueues, route);
    if q == [] then s
    else
      var stage := Processed(p, StageOf(s), q[0].changedDataId);
      s.(ps := stage.ps, published := stage.published, capabilityQueues := s.capabilityQueues[route := q[1..]])
  }

  function AfterPublishTurn(s: State): State {
    if s.published == [] then s else s.(published := s.published[1..])
  }

  function Step(p: ProductDefinition, s: State, op: Op): State {
    match op
    case Dispatch(item) => AfterDispatch(p, s, item)
    case StoreTurn(route) => AfterStoreTurn(p, s, route)
    case CapabilityTurn(route) => AfterCapabilityTurn(p, s, route)
    case PublishTurn => AfterPublishTurn(s)
    case ShutPublisher => s.(shut := true)
  }

  /** The state reached by any sequence of steps. */
  function Run(p: ProductDefinition, s: State, ops: seq<Op>): State {
    if ops == [] then s else Step(p, Run(p, s, ops[..|ops| - 1]), ops[|ops| - 1])
  }

  // What waits.

  ghost predicate Waiting(q: seq<CapabilityInput>, d: Id) {
    exists i :: 0 <= i < |q| && q[i].changedDataId == d
  }

  ghost predicate WaitingOn(s: State, route: string, d: Id) {
    Waiting(QueueOf(s.capabilityQueues, route), d)
  }

  ghost predicate Pending(s: State, d: Id) {
    exists route :: WaitingOn(s, route, d)
  }

  ghost predicate Quiet(s: State) {
    forall route :: QueueOf(s.capabilityQueues, route) == []
  }

  lemma WaitsAtEnd(q: seq<CapabilityInput>, input: CapabilityInput, d: Id)
    ensures Waiting(q + [input], d) <==> Waiting(q, d) || d == input.changedDataId
  {
    if Waiting(q, d) {
      var i :| 0 <= i < |q| && q[i].changedDataId == d;
      assert (q + [input])[i] == q[i];
    }
    assert (q + [input])[|q|] == input;
  }

  lemma WaitsAfterRemoval(q: seq<CapabilityInput>, k: nat, d: Id)
    requires k < |q|
    ensures Waiting(q, d) <==> Waiting(RemoveAt(q, k), d) || q[k].changedDataId == d
  {
    var rest := RemoveAt(q, k);
    if Waiting(q, d) && q[k].changedDataId != d {
      var i :| 0 <= i < |q| && q[i].changedDataId == d;
      assert rest[if i < k then i else i - 1] == q[i];
    }
    if Waiting(rest, d) {
      var i :| 0 <= i < |rest| && rest[i].changedDataId == d;
      assert rest[i] == q[if i < k then i else i + 1];
    }
  }

  /** Both policies of a capability queue keep the ids that wait and add the new one. */
  lemma InsertedWaits(p: ProductDefinition, route: string, q: seq<CapabilityInput>, input: CapabilityInput, d: Id)
    ensures Waiting(Inserted(CapabilityPolicy(p, route), q, input), d) <==> Waiting(q, d) || d == input.changedDataId
  {
    match CapabilityPolicy(p, route)
    case Fifo => WaitsAtEnd(q, input, d);
    case Coalescing(key) =>
      var k := FirstIndex(q, HasKeyOf(input, key));
      WaitsAtEnd(RemoveAt(q, k), input, d);
      if k < |q| {
        WaitsAfterRemoval(q, k, d);
      }
    case _ =>
  }
}
