/** The queues between the stages: four insertion policies, and the event queue that applies one. */
module Queues {
  import opened Values

  datatype CompressionPolicy = KeepAll | KeepOldest | KeepLatest
  datatype EventPriority = Low | Normal | High
  {
    function Rank(): nat {
      match this
      case Low => 0
      case Normal => 1
      case High => 2
    }
  }

  /** What waits in the publisher's queue. */
  datatype PublisherInput = PublisherInput(target: Target, priority: EventPriority, compression: CompressionPolicy)

  /** A policy reads its events through a projection, as the policy templates read named fields. */
  datatype Policy<!T> =
    | Fifo
    | Coalescing(key: T -> Id)
    | Priority(input: T -> PublisherInput)
    | PriorityCompression(input: T -> PublisherInput)

  /** The first position whose event satisfies `p`, or the length of the queue. */
  function FirstIndex<T>(q: seq<T>, p: T -> bool): (k: nat)
    ensures k <= |q|
    ensures forall i :: 0 <= i < k ==> !p(q[i])
    ensures k < |q| ==> p(q[k])
  {
    if q == [] || p(q[0]) then 0 else 1 + FirstIndex(q[1..], p)
  }

  function RemoveAt<T>(q: seq<T>, k: nat): seq<T> {
    if k < |q| then q[..k] + q[k + 1..] else q
  }

  function InsertAt<T>(q: seq<T>, k: nat, e: T): seq<T>
    requires k <= |q|
  {
    q[..k] + [e] + q[k..]
  }

  predicate SameTarget(a: PublisherInput, b: PublisherInput) {
    a.target.kind == b.target.kind && a.target.id == b.target.id
  }

  // The three tests that the policies scan with.

  function HasKeyOf<T>(e: T, key: T -> Id): T -> bool {
    x => key(x) == key(e)
  }

  function HasTargetOf<T>(e: T, input: T -> PublisherInput): T -> bool {
    x => SameTarget(input(x), input(e))
  }

  function RanksBelow<T>(e: T, input: T -> PublisherInput): T -> bool {
    x => input(e).priority.Rank() > input(x).priority.Rank()
  }

  /** Before the first event of lower priority. */
  function ByPriority<T>(q: seq<T>, e: T, input: T -> PublisherInput): seq<T> {
    InsertAt(q, FirstIndex(q, RanksBelow(e, input)), e)
  }

  /** The queue after `policy` inserts `e`. */
  function Inserted<T>(policy: Policy<T>, q: seq<T>, e: T): seq<T> {
    match policy
    case Fifo => q + [e]
    case Coalescing(key) => RemoveAt(q, FirstIndex(q, HasKeyOf(e, key))) + [e]
    case Priority(input) => ByPriority(q, e, input)
    case PriorityCompression(input) =>
      var same := FirstIndex(q, HasTargetOf(e, input));
      match input(e).compression
      case KeepAll => ByPriority(q, e, input)
      case KeepOldest => if same < |q| then q else ByPriority(q, e, input)
      case KeepLatest => ByPriority(RemoveAt(q, same), e, input)
  }

  class EventQueue<T> {
    const policy: Policy<T>
    var events: seq<T>
    var shutdown: bool

    constructor (policy: Policy<T>)
      ensures this.policy == policy && events == [] && !shutdown
    {
      this.policy := policy;
      events := [];
      shutdown := false;
    }

    method Push(event: T) returns (accepted: bool)
      modifies this`events
      ensures accepted == !shutdown
      ensures events == if shutdown then old(events) else Inserted(policy, old(events), event)
    {
      if shutdown {
        return false;
      }
      Insert(event);
      return true;
    }

    method Insert(event: T)
      modifies this`events
      ensures events == Inserted(policy, old(events), event)
    {
      match policy
      case Fifo =>
        events := events + [event];
      case Coalescing(key) =>
        var _ := EraseFirst(HasKeyOf(event, key));
        events := events + [event];
      case Priority(input) =>
        InsertByPriority(event, input);
      case PriorityCompression(input) =>
        if input(event).compression == KeepOldest {
          var it := Position(HasTargetOf(event, input));
          if it < |events| {
            return;
          }
        }
        if input(event).compression == KeepLatest {
          var _ := EraseFirst(HasTargetOf(event, input));
        }
        InsertByPriority(event, input);
    }

    method InsertByPriority(event: T, input: T -> PublisherInput)
      modifies this`events
      ensures events == ByPriority(old(events), event, input)
    {
      var it := Position(RanksBelow(event, input));
      events := events[..it] + [event] + events[it..];
    }

    method EraseFirst(p: T -> bool) returns (erased: bool)
      modifies this`events
      ensures events == RemoveAt(old(events), FirstIndex(old(events), p))
      ensures erased == (FirstIndex(old(events), p) < |old(events)|)
    {
      var it := Position(p);
      if it < |events| {
        events := events[..it] + events[it + 1..];
        return true;
      }
      return false;
    }

    /** The scan that every policy runs over the list. */
    method Position(p: T -> bool) returns (it: nat)
      ensures it == FirstIndex(events, p)
    {
      it := 0;
      while it < |events| && !p(events[it])
        invariant it <= |events|
        invariant forall i :: 0 <= i < it ==> !p(events[i])
      {
        it := it + 1;
      }
    }

    method TryPop() returns (event: Option<T>)
      modifies this`events
      ensures old(events) == [] ==> event == None && events == []
      ensures old(events) != [] ==> event == Some(old(events)[0]) && events == old(events)[1..]
    {
      if events == [] {
        return None;
      }
      event := Some(events[0]);
      events := events[1..];
    }

    /** The part of WaitAndPop after its wait has ended. */
    method WaitAndPop() returns (event: Option<T>)
      requires shutdown || events != []
      modifies this`events
      ensures event == None <==> old(events) == []
      ensures event.Some? ==> event.value == old(events)[0] && events == old(events)[1..]
      ensures event == None ==> shutdown && events == []
    {
      event := TryPop();
    }

    method Shutdown()
      modifies this`shutdown
      ensures shutdown
    {
      shutdown := true;
    }
  }
}
