/** Which insertions still wait in a queue, exactly, after any history of insertions and pops. */
module Histories {
  import opened Values
  import opened Queues
  import opened PublisherQueue
  import opened Product
  import opened Evaluation
  import opened Pipeline

  /** An event together with its position in the history. */
  datatype Entry<T> = Entry(event: T, at: nat)

  function Entries<T>(h: seq<Option<T>>): (r: seq<Option<Entry<T>>>)
    ensures |r| == |h|
    ensures forall i :: 0 <= i < |h| ==> r[i] == if h[i].Some? then Some(Entry(h[i].value, i)) else None
  {
    if h == [] then []
    else
      var n := |h| - 1;
      Entries(h[..n]) + [if h[n].Some? then Some(Entry(h[n].value, n)) else None]
  }

  function Events<T>(q: seq<Entry<T>>): (r: seq<T>)
    ensures |r| == |q|
    ensures forall i :: 0 <= i < |q| ==> r[i] == q[i].event
  {
    seq(|q|, i requires 0 <= i < |q| => q[i].event)
  }

  /** The two policies of route queues, on events with positions. */
  function OnEntries<T>(policy: Policy<T>): Policy<Entry<T>>
    requires policy.Fifo? || policy.Coalescing?
  {
    match policy
    case Fifo => Fifo
    case Coalescing(key) => Coalescing((e: Entry<T>) => key(e.event))
  }

  /** The queue with positions that a history leaves. */
  function Waiting<T>(policy: Policy<T>, h: seq<Option<T>>): seq<Entry<T>>
    requires policy.Fifo? || policy.Coalescing?
  {
    Replayed(OnEntries(policy), Entries(h))
  }

  lemma WaitingNext<T>(policy: Policy<T>, h: seq<Option<T>>)
    requires (policy.Fifo? || policy.Coalescing?) && h != []
    ensures var n := |h| - 1;
            var q := Waiting(policy, h[..n]);
            Waiting(policy, h) == if h[n].Some? then Inserted(OnEntries(policy), q, Entry(h[n].value, n))
                                  else if q == [] then q else q[1..]
  {
    assert Entries(h)[..|h| - 1] == Entries(h[..|h| - 1]);
  }

  lemma KeyIndexOfEvents<T>(q: seq<Entry<T>>, e: Entry<T>, key: T -> Id)
    ensures FirstIndex(q, HasKeyOf(e, (x: Entry<T>) => key(x.event))) == FirstIndex(Events(q), HasKeyOf(e.event, key))
  {
    var i, j := FirstIndex(q, HasKeyOf(e, (x: Entry<T>) => key(x.event))), FirstIndex(Events(q), HasKeyOf(e.event, key));
    assert i < |q| ==> HasKeyOf(e.event, key)(Events(q)[i]);
    assert j < |q| ==> HasKeyOf(e, (x: Entry<T>) => key(x.event))(q[j]);
  }

  /** Positions change nothing: without them it is the queue that the policy leaves. */
  lemma {:induction false} PositionsAreInvisible<T>(policy: Policy<T>, h: seq<Option<T>>)
    requires policy.Fifo? || policy.Coalescing?
    ensures Events(Waiting(policy, h)) == Replayed(policy, h)
  {
    if h != [] {
      var n := |h| - 1;
      PositionsAreInvisible(policy, h[..n]);
      WaitingNext(policy, h);
      if h[n].Some? {
        InsertedWithoutPosition(policy, Waiting(policy, h[..n]), Entry(h[n].value, n));
      }
    }
  }

  lemma InsertedWithoutPosition<T>(policy: Policy<T>, q: seq<Entry<T>>, e: Entry<T>)
    requires policy.Fifo? || policy.Coalescing?
    ensures Events(Inserted(OnEntries(policy), q, e)) == Inserted(policy, Events(q), e.event)
  {
    if policy.Coalescing? {
      KeyIndexOfEvents(q, e, policy.key);
      var k := FirstIndex(q, HasKeyOf(e, (x: Entry<T>) => policy.key(x.event)));
      assert Events(RemoveAt(q, k)) == RemoveAt(Events(q), k);
    }
  }

  /** The positions of the insertions that pops have taken. */
  ghost function TakenAt<T>(policy: Policy<T>, h: seq<Option<T>>): set<nat>
    requires policy.Fifo? || policy.Coalescing?
  {
    if h == [] then {}
    else
      var n := |h| - 1;
      var q := Waiting(policy, h[..n]);
      TakenAt(policy, h[..n]) + if h[n].None? && q != [] then {q[0].at} else {}
  }

  /** A later insertion under the same key took its place. */
  ghost predicate Superseded<T>(policy: Policy<T>, h: seq<Option<T>>, i: nat)
    requires i < |h| && h[i].Some?
  {
    policy.Coalescing? && exists j :: i < j < |h| && h[j].Some? && policy.key(h[j].value) == policy.key(h[i].value)
  }

  ghost predicate WaitsAt<T>(q: seq<Entry<T>>, i: nat) {
    exists j :: 0 <= j < |q| && q[j].at == i
  }

  /** The queue stands in the order of insertion, and shows what was inserted. */
  ghost predicate InOrderOf<T>(q: seq<Entry<T>>, h: seq<Option<T>>) {
    && (forall j, k :: 0 <= j < k < |q| ==> q[j].at < q[k].at)
    && (forall j :: 0 <= j < |q| ==> q[j].at < |h| && h[q[j].at] == Some(q[j].event))
  }

  ghost predicate Remains<T>(policy: Policy<T>, h: seq<Option<T>>, i: nat)
    requires policy.Fifo? || policy.Coalescing?
  {
    i < |h| && h[i].Some? && i !in TakenAt(policy, h) && !Superseded(policy, h, i)
  }

  ghost predicate Exact<T>(policy: Policy<T>, h: seq<Option<T>>, q: seq<Entry<T>>)
    requires policy.Fifo? || policy.Coalescing?
  {
    InOrderOf(q, h) && forall i: nat :: WaitsAt(q, i) <==> Remains(policy, h, i)
  }

  lemma TakenNext<T>(policy: Policy<T>, h: seq<Option<T>>)
    requires (policy.Fifo? || policy.Coalescing?) && h != []
    ensures var n := |h| - 1;
            var q := Waiting(policy, h[..n]);
            TakenAt(policy, h) == TakenAt(policy, h[..n]) + if h[n].None? && q != [] then {q[0].at} else {}
  {
  }

  lemma SupersededNext<T>(policy: Policy<T>, h: seq<Option<T>>, i: nat)
    requires h != [] && i < |h| - 1 && h[i].Some?
    ensures var n := |h| - 1;
            Superseded(policy, h, i) <==>
              || Superseded(policy, h[..n], i)
              || (policy.Coalescing? && h[n].Some? && policy.key(h[n].value) == policy.key(h[i].value))
  {
    var n := |h| - 1;
    if Superseded(policy, h[..n], i) {
      var j :| i < j < n && h[..n][j].Some? && policy.key(h[..n][j].value) == policy.key(h[i].value);
      assert h[j] == h[..n][j];
    }
    if Superseded(policy, h, i) && !(h[n].Some? && policy.key(h[n].value) == policy.key(h[i].value)) {
      var j :| i < j < |h| && h[j].Some? && policy.key(h[j].value) == policy.key(h[i].value);
      assert h[..n][j] == h[j];
    }
  }

  // One step.

  lemma RestInOrder<T>(q: seq<Entry<T>>, h: seq<Option<T>>, k: nat)
    requires InOrderOf(q, h) && k <= |q|
    ensures InOrderOf(q[k..], h + [None])
  {
    forall j | 0 <= j < |q| - k ensures q[k..][j].at < |h| && (h + [None])[q[k..][j].at] == Some(q[k..][j].event) {
      assert q[k..][j] == q[k + j];
    }
    forall i, j | 0 <= i < j < |q| - k ensures q[k..][i].at < q[k..][j].at {
      assert q[k..][i] == q[k + i] && q[k..][j] == q[k + j];
    }
  }

  lemma PopWaitsAt<T>(policy: Policy<T>, h: seq<Option<T>>, i: nat)
    requires (policy.Fifo? || policy.Coalescing?) && h != [] && h[|h| - 1].None?
    requires Exact(policy, h[..|h| - 1], Waiting(policy, h[..|h| - 1]))
    ensures WaitsAt(Waiting(policy, h), i) <==> Remains(policy, h, i)
  {
    var n := |h| - 1;
    var q := Waiting(policy, h[..n]);
    WaitingNext(policy, h);
    TakenNext(policy, h);
    assert WaitsAt(q, i) <==> Remains(policy, h[..n], i);
    PoppedWaitsAt(q, i);
    if i < n && h[i].Some? {
      SupersededNext(policy, h, i);
    }
  }

  /** A pop takes the oldest. */
  lemma PopIsExact<T>(policy: Policy<T>, h: seq<Option<T>>)
    requires (policy.Fifo? || policy.Coalescing?) && h != [] && h[|h| - 1].None?
    requires Exact(policy, h[..|h| - 1], Waiting(policy, h[..|h| - 1]))
    ensures Exact(policy, h, Waiting(policy, h))
  {
    var n := |h| - 1;
    var q := Waiting(policy, h[..n]);
    WaitingNext(policy, h);
    assert h == h[..n] + [None];
    RestInOrder(q, h[..n], if q == [] then 0 else 1);
    assert q[0..] == q;
    forall i: nat ensures WaitsAt(Waiting(policy, h), i) <==> Remains(policy, h, i) {
      PopWaitsAt(policy, h, i);
    }
  }

  lemma PoppedWaitsAt<T>(q: seq<Entry<T>>, i: nat)
    requires forall j, k :: 0 <= j < k < |q| ==> q[j].at < q[k].at
    ensures q != [] ==> (WaitsAt(q[1..], i) <==> WaitsAt(q, i) && i != q[0].at)
  {
    if q != [] {
      if WaitsAt(q[1..], i) {
        var j :| 0 <= j < |q| - 1 && q[1..][j].at == i;
        assert q[j + 1].at == i;
      }
      if WaitsAt(q, i) && i != q[0].at {
        var j :| 0 <= j < |q| && q[j].at == i;
        assert q[1..][j - 1].at == i;
      }
    }
  }

  lemma AppendedWaitsAt<T>(q: seq<Entry<T>>, e: Entry<T>, i: nat)
    ensures WaitsAt(q + [e], i) <==> WaitsAt(q, i) || i == e.at
  {
    assert (q + [e])[|q|].at == e.at;
    if WaitsAt(q, i) {
      var j :| 0 <= j < |q| && q[j].at == i;
      assert (q + [e])[j].at == i;
    }
    if WaitsAt(q + [e], i) && i != e.at {
      var j :| 0 <= j < |q| + 1 && (q + [e])[j].at == i;
      assert q[j].at == i;
    }
  }

  lemma RemovedWaitsAt<T>(q: seq<Entry<T>>, k: nat, i: nat)
    requires forall j, l :: 0 <= j < l < |q| ==> q[j].at < q[l].at
    ensures WaitsAt(RemoveAt(q, k), i) <==> WaitsAt(q, i) && !(k < |q| && q[k].at == i)
  {
    if k < |q| {
      var r := RemoveAt(q, k);
      assert forall j :: 0 <= j < |r| ==> r[j] == q[if j < k then j else j + 1];
      if WaitsAt(q, i) && q[k].at != i {
        var j :| 0 <= j < |q| && q[j].at == i;
        assert r[if j < k then j else j - 1].at == i;
      }
    }
  }

  /** What an insertion leaves of the queue before it appends the new event. */
  function Cleared<T>(policy: Policy<T>, q: seq<Entry<T>>, e: T): seq<Entry<T>>
    requires policy.Fifo? || policy.Coalescing?
  {
    match policy
    case Fifo => q
    case Coalescing(key) => RemoveAt(q, FirstIndex(q, HasKeyOf(Entry(e, 0), (x: Entry<T>) => key(x.event))))
  }

  lemma InsertionClears<T>(policy: Policy<T>, q: seq<Entry<T>>, e: Entry<T>)
    requires policy.Fifo? || policy.Coalescing?
    ensures Inserted(OnEntries(policy), q, e) == Cleared(policy, q, e.event) + [e]
  {
    if policy.Coalescing? {
      KeyIndexOfEvents(q, e, policy.key);
      KeyIndexOfEvents(q, Entry(e.event, 0), policy.key);
    }
  }

  ghost predicate HasKey<T>(policy: Policy<T>, a: T, b: T) {
    policy.Coalescing? && policy.key(a) == policy.key(b)
  }

  /** It clears exactly the event under the same key, of which an exact queue has at most one. */
  lemma ClearedExactly<T>(policy: Policy<T>, h: seq<Option<T>>, q: seq<Entry<T>>, e: T, i: nat)
    requires (policy.Fifo? || policy.Coalescing?) && Exact(policy, h, q)
    ensures WaitsAt(Cleared(policy, q, e), i) <==> WaitsAt(q, i) && !(i < |h| && h[i].Some? && HasKey(policy, h[i].value, e))
  {
    if policy.Coalescing? {
      var test := HasKeyOf(Entry(e, 0), (x: Entry<T>) => policy.key(x.event));
      var k := FirstIndex(q, test);
      RemovedWaitsAt(q, k, i);
      assert k < |q| ==> test(q[k]) && WaitsAt(q, q[k].at);
      if WaitsAt(q, i) && HasKey(policy, h[i].value, e) {
        var j :| 0 <= j < |q| && q[j].at == i;
        assert test(q[j]);
        assert WaitsAt(q, q[k].at) && Remains(policy, h, q[k].at);
        assert !Superseded(policy, h, q[k].at);
        assert j == k;
      }
    }
  }

  lemma RemovedInOrder<T>(q: seq<Entry<T>>, h: seq<Option<T>>, k: nat)
    requires InOrderOf(q, h)
    ensures InOrderOf(RemoveAt(q, k), h)
  {
    if k < |q| {
      var r := RemoveAt(q, k);
      forall j | 0 <= j < |r| ensures r[j].at < |h| && h[r[j].at] == Some(r[j].event) {
        assert r[j] == q[Skipping(k, j)];
      }
      forall i, j | 0 <= i < j < |r| ensures r[i].at < r[j].at {
        assert r[i] == q[Skipping(k, i)] && r[j] == q[Skipping(k, j)];
      }
    }
  }

  /** Where the j-th entry stood before the k-th was removed. */
  function Skipping(k: nat, j: nat): nat {
    if j < k then j else j + 1
  }

  lemma AppendedInOrder<T>(q: seq<Entry<T>>, h: seq<Option<T>>, e: T)
    requires InOrderOf(q, h)
    ensures InOrderOf(q + [Entry(e, |h|)], h + [Some(e)])
  {
    assert forall i :: 0 <= i < |h| ==> (h + [Some(e)])[i] == h[i];
  }

  lemma InsertionKeepsOrder<T>(policy: Policy<T>, h: seq<Option<T>>)
    requires (policy.Fifo? || policy.Coalescing?) && h != [] && h[|h| - 1].Some?
    requires InOrderOf(Waiting(policy, h[..|h| - 1]), h[..|h| - 1])
    ensures InOrderOf(Waiting(policy, h), h)
  {
    var n := |h| - 1;
    var q, e := Waiting(policy, h[..n]), h[n].value;
    WaitingNext(policy, h);
    InsertionClears(policy, q, Entry(e, n));
    if policy.Coalescing? {
      RemovedInOrder(q, h[..n], FirstIndex(q, HasKeyOf(Entry(e, 0), (x: Entry<T>) => policy.key(x.event))));
    }
    AppendedInOrder(Cleared(policy, q, e), h[..n], e);
    assert h == h[..n] + [Some(e)];
  }

  lemma InsertionWaitsAt<T>(policy: Policy<T>, h: seq<Option<T>>, i: nat)
    requires (policy.Fifo? || policy.Coalescing?) && h != [] && h[|h| - 1].Some?
    requires Exact(policy, h[..|h| - 1], Waiting(policy, h[..|h| - 1]))
    requires |h| - 1 !in TakenAt(policy, h[..|h| - 1])
    ensures WaitsAt(Waiting(policy, h), i) <==> Remains(policy, h, i)
  {
    var n := |h| - 1;
    var q, e := Waiting(policy, h[..n]), h[n].value;
    WaitingNext(policy, h);
    TakenNext(policy, h);
    InsertionClears(policy, q, Entry(e, n));
    AppendedWaitsAt(Cleared(policy, q, e), Entry(e, n), i);
    ClearedExactly(policy, h[..n], q, e, i);
    assert WaitsAt(q, i) <==> Remains(policy, h[..n], i);
    if i < n && h[i].Some? {
      SupersededNext(policy, h, i);
    }
  }

  lemma InsertionIsExact<T>(policy: Policy<T>, h: seq<Option<T>>)
    requires (policy.Fifo? || policy.Coalescing?) && h != [] && h[|h| - 1].Some?
    requires Exact(policy, h[..|h| - 1], Waiting(policy, h[..|h| - 1]))
    requires |h| - 1 !in TakenAt(policy, h[..|h| - 1])
    ensures Exact(policy, h, Waiting(policy, h))
  {
    InsertionKeepsOrder(policy, h);
    forall i: nat ensures WaitsAt(Waiting(policy, h), i) <==> Remains(policy, h, i) {
      InsertionWaitsAt(policy, h, i);
    }
  }

  /** Main result: after any history, an insertion waits exactly if it was neither taken nor, in a
      coalescing queue, superseded by a later one under its key; and what waits stands in the order of
      insertion.  So a coalescing queue holds each key at most once, with the value inserted last. */
  lemma {:induction false} WaitsExactly<T>(policy: Policy<T>, h: seq<Option<T>>)
    requires policy.Fifo? || policy.Coalescing?
    ensures Exact(policy, h, Waiting(policy, h))
    ensures forall i :: i in TakenAt(policy, h) ==> i < |h| && h[i].Some?
  {
    if h != [] {
      var n := |h| - 1;
      WaitsExactly(policy, h[..n]);
      TakenNext(policy, h);
      if h[n].Some? {
        InsertionIsExact(policy, h);
      } else {
        PopIsExact(policy, h);
      }
    }
  }

  /** Each key waits at most once. */
  lemma KeysDiffer<T>(key: T -> Id, h: seq<Option<T>>, j: nat, k: nat)
    requires j < k < |Replayed(Coalescing(key), h)|
    ensures key(Replayed(Coalescing(key), h)[j]) != key(Replayed(Coalescing(key), h)[k])
  {
    var q := Waiting(Coalescing(key), h);
    PositionsAreInvisible(Coalescing(key), h);
    WaitsExactly(Coalescing(key), h);
    assert WaitsAt(q, q[j].at) && Remains(Coalescing(key), h, q[j].at);
    assert !Superseded(Coalescing(key), h, q[j].at);
  }

  // The queues of a route.

  /** Main result: in the store queue of a route an accepted item waits exactly until it is taken or, if
      the route coalesces its store queue, until a later item of the same id takes its place. */
  lemma StoreQueueHolds(p: ProductDefinition, r: RouteDefinition, h: seq<Option<RIMDataItem>>, i: nat)
    requires Valid(p) && r in p.routes && i < |h| && h[i].Some?
    ensures var policy := StorePolicy(p, r.name);
            && (policy.Fifo? || policy.Coalescing?)
            && (WaitsAt(Waiting(policy, h), i) <==>
                  && i !in TakenAt(policy, h)
                  && !(r.storePolicy == CoalescingQueue && exists j :: i < j < |h| && h[j].Some? && h[j].value.id == h[i].value.id))
  {
    assert Meets(p, RouteNamesDiffer);
    DistinctFindsItself(p.routes, RouteName, r);
    WaitsExactly(StorePolicy(p, r.name), h);
  }

  /** The same of its capability queue and the ids of changed items. */
  lemma CapabilityQueueHolds(p: ProductDefinition, r: RouteDefinition, h: seq<Option<CapabilityInput>>, i: nat)
    requires Valid(p) && r in p.routes && i < |h| && h[i].Some?
    ensures var policy := CapabilityPolicy(p, r.name);
            && (policy.Fifo? || policy.Coalescing?)
            && (WaitsAt(Waiting(policy, h), i) <==>
                  && i !in TakenAt(policy, h)
                  && !(r.capabilityPolicy == CoalescingQueue && exists j :: i < j < |h| && h[j] == h[i]))
  {
    assert Meets(p, RouteNamesDiffer);
    DistinctFindsItself(p.routes, RouteName, r);
    WaitsExactly(CapabilityPolicy(p, r.name), h);
    assert forall j :: i < j < |h| && h[j].Some? ==> (h[j].value.changedDataId == h[i].value.changedDataId <==> h[j] == h[i]);
  }
}
