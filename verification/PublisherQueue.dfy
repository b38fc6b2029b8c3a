/** What the priority-compressing queue guarantees over any history of insertions and pops. */
module PublisherQueue {
  import opened Values
  import opened Queues

  /** The queue left by a history in which Some(e) inserts e and None pops. */
  function Replayed<T>(policy: Policy<T>, h: seq<Option<T>>): seq<T> {
    if h == [] then []
    else
      var q := Replayed(policy, h[..|h| - 1]);
      match h[|h| - 1]
      case Some(e) => Inserted(policy, q, e)
      case None => if q == [] then q else q[1..]
  }

  const PLAIN: Policy<PublisherInput> := PriorityCompression((e: PublisherInput) => e)

  /** An event together with its position in the history. */
  datatype Stamped = Stamped(input: PublisherInput, at: nat)

  const STAMPED: Policy<Stamped> := PriorityCompression((s: Stamped) => s.input)

  function Stamps(h: seq<Option<PublisherInput>>): (r: seq<Option<Stamped>>)
    ensures |r| == |h|
    ensures forall i :: 0 <= i < |h| ==> r[i] == if h[i].Some? then Some(Stamped(h[i].value, i)) else None
  {
    if h == [] then []
    else
      var n := |h| - 1;
      Stamps(h[..n]) + [if h[n].Some? then Some(Stamped(h[n].value, n)) else None]
  }

  function Inputs(q: seq<Stamped>): (r: seq<PublisherInput>)
    ensures |r| == |q|
    ensures forall i :: 0 <= i < |q| ==> r[i] == q[i].input
  {
    seq(|q|, i requires 0 <= i < |q| => q[i].input)
  }

  // Stamps change nothing.

  lemma FirstIndexOfInputs(q: seq<Stamped>, p: Stamped -> bool, r: PublisherInput -> bool)
    requires forall s: Stamped :: p(s) == r(s.input)
    ensures FirstIndex(q, p) == FirstIndex(Inputs(q), r)
  {
    var i, j := FirstIndex(q, p), FirstIndex(Inputs(q), r);
    assert i < |q| ==> p(q[i]) && r(Inputs(q)[i]);
    assert j < |q| ==> p(q[j]) && r(Inputs(q)[j]);
  }

  lemma ByPriorityOfInputs(q: seq<Stamped>, e: Stamped)
    ensures Inputs(ByPriority(q, e, STAMPED.input)) == ByPriority(Inputs(q), e.input, PLAIN.input)
  {
    FirstIndexOfInputs(q, RanksBelow(e, STAMPED.input),
                       RanksBelow(e.input, PLAIN.input));
  }

  lemma InsertedOfInputs(q: seq<Stamped>, e: Stamped)
    ensures Inputs(Inserted(STAMPED, q, e)) == Inserted(PLAIN, Inputs(q), e.input)
  {
    var k := FirstIndex(q, HasTargetOf(e, STAMPED.input));
    FirstIndexOfInputs(q, HasTargetOf(e, STAMPED.input),
                       HasTargetOf(e.input, PLAIN.input));
    assert Inputs(RemoveAt(q, k)) == RemoveAt(Inputs(q), k);
    ByPriorityOfInputs(q, e);
    ByPriorityOfInputs(RemoveAt(q, k), e);
  }

  lemma {:induction false} StampsAreInvisible(h: seq<Option<PublisherInput>>)
    ensures Inputs(Replayed(STAMPED, Stamps(h))) == Replayed(PLAIN, h)
  {
    if h != [] {
      var n := |h| - 1;
      StampsAreInvisible(h[..n]);
      assert Stamps(h)[..n] == Stamps(h[..n]);
      if h[n].Some? {
        InsertedOfInputs(Replayed(STAMPED, Stamps(h[..n])), Stamped(h[n].value, n));
      }
    }
  }

  // Order.

  ghost predicate Before(a: Stamped, b: Stamped) {
    || a.input.priority.Rank() > b.input.priority.Rank()
    || (a.input.priority == b.input.priority && a.at < b.at)
  }

  /** Priority never rises along the queue, and equal priorities stand in order of arrival. */
  ghost predicate Ordered(q: seq<Stamped>) {
    forall i, j :: 0 <= i < j < |q| ==> Before(q[i], q[j])
  }

  ghost predicate OlderThan(q: seq<Stamped>, now: nat) {
    forall i :: 0 <= i < |q| ==> q[i].at < now
  }

  lemma ByPriorityKeepsOrder(q: seq<Stamped>, e: Stamped)
    requires Ordered(q) && OlderThan(q, e.at)
    ensures Ordered(ByPriority(q, e, STAMPED.input)) && OlderThan(ByPriority(q, e, STAMPED.input), e.at + 1)
  {
    var k := FirstIndex(q, RanksBelow(e, STAMPED.input));
    forall i | 0 <= i < |q|
      ensures i < k ==> Before(q[i], e)
      ensures i >= k ==> Before(e, q[i])
    {
      assert k < i ==> Before(q[k], q[i]);
    }
  }

  lemma InsertedKeepsOrder(q: seq<Stamped>, e: Stamped)
    requires Ordered(q) && OlderThan(q, e.at)
    ensures Ordered(Inserted(STAMPED, q, e)) && OlderThan(Inserted(STAMPED, q, e), e.at + 1)
  {
    ByPriorityKeepsOrder(q, e);
    var k := FirstIndex(q, HasTargetOf(e, STAMPED.input));
    ByPriorityKeepsOrder(RemoveAt(q, k), e);
  }

  /** Main result: the queue is ordered after every history. */
  lemma {:induction false} AlwaysOrdered(h: seq<Option<PublisherInput>>)
    ensures Ordered(Replayed(STAMPED, Stamps(h)))
    ensures OlderThan(Replayed(STAMPED, Stamps(h)), |h|)
  {
    if h != [] {
      var n := |h| - 1;
      AlwaysOrdered(h[..n]);
      assert Stamps(h)[..n] == Stamps(h[..n]);
      if h[n].Some? {
        InsertedKeepsOrder(Replayed(STAMPED, Stamps(h[..n])), Stamped(h[n].value, n));
      }
    }
  }

  // Which targets are queued.

  ghost function Targets(q: seq<PublisherInput>): set<Target> {
    set i | 0 <= i < |q| :: q[i].target
  }

  lemma ByPriorityTargets(q: seq<PublisherInput>, e: PublisherInput)
    ensures Targets(ByPriority(q, e, PLAIN.input)) == Targets(q) + {e.target}
  {
    var k := FirstIndex(q, RanksBelow(e, PLAIN.input));
    InsertAtTargets(q, k, e);
  }

  lemma InsertAtMultiset<T>(q: seq<T>, k: nat, e: T)
    requires k <= |q|
    ensures multiset(InsertAt(q, k, e)) == multiset(q) + multiset{e}
  {
    assert q == q[..k] + q[k..];
  }

  lemma InsertAtTargets(q: seq<PublisherInput>, k: nat, e: PublisherInput)
    requires k <= |q|
    ensures Targets(InsertAt(q, k, e)) == Targets(q) + {e.target}
  {
    var r := InsertAt(q, k, e);
    assert r[k] == e;
    assert forall i :: 0 <= i < k ==> r[i] == q[i];
    assert forall i :: k <= i < |q| ==> r[i + 1] == q[i];
    forall t | t in Targets(q) + {e.target} ensures t in Targets(r) {
      if t != e.target {
        var i :| 0 <= i < |q| && q[i].target == t;
        assert r[if i < k then i else i + 1].target == t;
      }
    }
    forall t | t in Targets(r) ensures t in Targets(q) + {e.target} {
      var i :| 0 <= i < |r| && r[i].target == t;
      assert i < k ==> q[i].target == t;
      assert i > k ==> q[i - 1].target == t;
    }
  }

  lemma RemoveAtTargets(q: seq<PublisherInput>, k: nat)
    ensures k < |q| ==> Targets(RemoveAt(q, k)) + {q[k].target} == Targets(q)
    ensures k >= |q| ==> RemoveAt(q, k) == q
  {
    if k < |q| {
      assert InsertAt(RemoveAt(q, k), k, q[k]) == q;
      InsertAtTargets(RemoveAt(q, k), k, q[k]);
    }
  }

  lemma ReplacedTargets(q: seq<PublisherInput>, k: nat, e: PublisherInput)
    requires k < |q| ==> q[k].target == e.target
    ensures Targets(ByPriority(RemoveAt(q, k), e, PLAIN.input)) == Targets(q) + {e.target}
  {
    RemoveAtTargets(q, k);
    ByPriorityTargets(RemoveAt(q, k), e);
  }

  /** Main result: whatever is discarded, the set of queued targets grows by exactly the new one. */
  lemma InsertLosesNoTarget(q: seq<PublisherInput>, e: PublisherInput)
    ensures Targets(Inserted(PLAIN, q, e)) == Targets(q) + {e.target}
  {
    var k := FirstIndex(q, HasTargetOf(e, PLAIN.input));
    assert k < |q| ==> q[k].target == e.target && q[k].target in Targets(q);
    match e.compression
    case KeepAll => ByPriorityTargets(q, e);
    case KeepOldest => if k >= |q| { ByPriorityTargets(q, e); }
    case KeepLatest => ReplacedTargets(q, k, e);
  }

  ghost predicate AtMostOnce(q: seq<PublisherInput>, t: Target) {
    forall i, j :: 0 <= i < j < |q| && q[i].target == t ==> q[j].target != t
  }

  lemma InsertedAtMostOnce(q: seq<PublisherInput>, k: nat, e: PublisherInput, t: Target)
    requires k <= |q| && AtMostOnce(q, t)
    requires e.target == t ==> forall i :: 0 <= i < |q| ==> q[i].target != t
    ensures AtMostOnce(InsertAt(q, k, e), t)
  {
    var r := InsertAt(q, k, e);
    forall i, j | 0 <= i < j < |r| && r[i].target == t ensures r[j].target != t {
      assert i != k ==> r[i] == q[if i < k then i else i - 1];
      assert j != k ==> r[j] == q[if j < k then j else j - 1];
    }
  }

  lemma RemovedAtMostOnce(q: seq<PublisherInput>, k: nat, t: Target)
    requires AtMostOnce(q, t)
    ensures AtMostOnce(RemoveAt(q, k), t)
    ensures k < |q| && q[k].target == t ==> forall i :: 0 <= i < |q| - 1 ==> RemoveAt(q, k)[i].target != t
  {
    if k < |q| {
      var r := RemoveAt(q, k);
      assert forall i :: 0 <= i < |r| ==> r[i] == q[if i < k then i else i + 1];
    }
  }

  lemma ByPriorityAtMostOnce(q: seq<PublisherInput>, e: PublisherInput, t: Target)
    requires AtMostOnce(q, t)
    requires e.target == t ==> forall i :: 0 <= i < |q| ==> q[i].target != t
    ensures AtMostOnce(ByPriority(q, e, PLAIN.input), t)
  {
    InsertedAtMostOnce(q, FirstIndex(q, RanksBelow(e, PLAIN.input)), e, t);
  }

  lemma InsertKeepsAtMostOnce(q: seq<PublisherInput>, e: PublisherInput, t: Target)
    requires AtMostOnce(q, t)
    requires e.target == t ==> e.compression != KeepAll
    ensures AtMostOnce(Inserted(PLAIN, q, e), t)
  {
    var k := FirstIndex(q, HasTargetOf(e, PLAIN.input));
    assert forall i :: 0 <= i < k ==> !HasTargetOf(e, PLAIN.input)(q[i]);
    match e.compression
    case KeepAll => ByPriorityAtMostOnce(q, e, t);
    case KeepOldest => if k >= |q| { ByPriorityAtMostOnce(q, e, t); }
    case KeepLatest =>
      RemovedAtMostOnce(q, k, t);
      ByPriorityAtMostOnce(RemoveAt(q, k), e, t);
  }

  /** Main result: a target whose every insertion asks for compression is never queued twice,
      however the two compressing policies are mixed and whatever other targets ask for. */
  lemma {:induction false} CompressedTargetQueuedOnce(h: seq<Option<PublisherInput>>, t: Target)
    requires forall i :: 0 <= i < |h| && h[i].Some? && h[i].value.target == t ==> h[i].value.compression != KeepAll
    ensures AtMostOnce(Replayed(PLAIN, h), t)
  {
    if h != [] {
      var n := |h| - 1;
      CompressedTargetQueuedOnce(h[..n], t);
      if h[n].Some? {
        InsertKeepsAtMostOnce(Replayed(PLAIN, h[..n]), h[n].value, t);
      }
    }
  }

  // Without compression nothing is lost.

  ghost predicate NeverCompresses(h: seq<Option<PublisherInput>>) {
    forall i :: 0 <= i < |h| && h[i].Some? ==> h[i].value.compression == KeepAll
  }

  /** The insertions of a history, and the events its pops returned, both with their stamps. */
  ghost function InsertedIn(h: seq<Option<PublisherInput>>): multiset<Stamped> {
    if h == [] then multiset{}
    else
      var n := |h| - 1;
      InsertedIn(h[..n]) + if h[n].Some? then multiset{Stamped(h[n].value, n)} else multiset{}
  }

  ghost function PoppedIn(h: seq<Option<PublisherInput>>): multiset<Stamped> {
    if h == [] then multiset{}
    else
      var n := |h| - 1;
      var q := Replayed(STAMPED, Stamps(h[..n]));
      PoppedIn(h[..n]) + if h[n].None? && q != [] then multiset{q[0]} else multiset{}
  }

  lemma KeepAllInsertsOne(q: seq<Stamped>, e: Stamped)
    requires e.input.compression == KeepAll
    ensures multiset(Inserted(STAMPED, q, e)) == multiset(q) + multiset{e}
  {
    InsertAtMultiset(q, FirstIndex(q, RanksBelow(e, STAMPED.input)), e);
  }

  lemma {:induction false} UncompressedConserves(h: seq<Option<PublisherInput>>)
    requires NeverCompresses(h)
    ensures InsertedIn(h) == PoppedIn(h) + multiset(Replayed(STAMPED, Stamps(h)))
  {
    if h != [] {
      var n := |h| - 1;
      UncompressedConserves(h[..n]);
      assert Stamps(h)[..n] == Stamps(h[..n]);
      if h[n].Some? {
        ConservedByInsert(h, Replayed(STAMPED, Stamps(h[..n])));
      } else {
        ConservedByPop(h, Replayed(STAMPED, Stamps(h[..n])));
      }
    }
  }

  lemma PopMultiset<T>(q: seq<T>)
    requires q != []
    ensures multiset(q) == multiset{q[0]} + multiset(q[1..])
  {
    assert q == [q[0]] + q[1..];
  }

  lemma ConservedByInsert(h: seq<Option<PublisherInput>>, q: seq<Stamped>)
    requires h != [] && h[|h| - 1].Some? && NeverCompresses(h)
    requires q == Replayed(STAMPED, Stamps(h[..|h| - 1]))
    requires Stamps(h)[..|h| - 1] == Stamps(h[..|h| - 1])
    requires InsertedIn(h[..|h| - 1]) == PoppedIn(h[..|h| - 1]) + multiset(q)
    ensures InsertedIn(h) == PoppedIn(h) + multiset(Replayed(STAMPED, Stamps(h)))
  {
    KeepAllInsertsOne(q, Stamped(h[|h| - 1].value, |h| - 1));
  }

  lemma ConservedByPop(h: seq<Option<PublisherInput>>, q: seq<Stamped>)
    requires h != [] && h[|h| - 1].None?
    requires q == Replayed(STAMPED, Stamps(h[..|h| - 1]))
    requires Stamps(h)[..|h| - 1] == Stamps(h[..|h| - 1])
    requires InsertedIn(h[..|h| - 1]) == PoppedIn(h[..|h| - 1]) + multiset(q)
    ensures InsertedIn(h) == PoppedIn(h) + multiset(Replayed(STAMPED, Stamps(h)))
  {
    var n := |h| - 1;
    assert Stamps(h)[n] == None;
    if q != [] {
      PopMultiset(q);
      assert Replayed(STAMPED, Stamps(h)) == q[1..];
      assert PoppedIn(h) == PoppedIn(h[..n]) + multiset{q[0]};
    } else {
      assert PoppedIn(h) == PoppedIn(h[..n]);
    }
  }

  /** Main result: without compression, the next pop returns the oldest of the events of highest
      priority among all those inserted and not yet popped. */
  lemma UncompressedPopsOldestOfHighest(h: seq<Option<PublisherInput>>, s: Stamped)
    requires NeverCompresses(h)
    requires s in InsertedIn(h) - PoppedIn(h)
    ensures Replayed(STAMPED, Stamps(h)) != []
    ensures Replayed(STAMPED, Stamps(h))[0] in InsertedIn(h) - PoppedIn(h)
    ensures s == Replayed(STAMPED, Stamps(h))[0] || Before(Replayed(STAMPED, Stamps(h))[0], s)
  {
    UncompressedConserves(h);
    AlwaysOrdered(h);
    var q := Replayed(STAMPED, Stamps(h));
    assert multiset(q) == InsertedIn(h) - PoppedIn(h);
    assert s in q;
  }
}
