/** Which announcement of a target a compressing queue keeps, after any history. */
module Compression {
  import opened Values
  import opened Queues
  import opened PublisherQueue

  ghost predicate AlwaysAsks(h: seq<Option<PublisherInput>>, t: Target, way: CompressionPolicy) {
    forall i :: 0 <= i < |h| && h[i].Some? && h[i].value.target == t ==> h[i].value.compression == way
  }

  function Queued(h: seq<Option<PublisherInput>>): seq<Stamped> {
    Replayed(STAMPED, Stamps(h))
  }

  ghost predicate TargetWaits(q: seq<Stamped>, t: Target) {
    exists s :: s in q && s.input.target == t
  }

  lemma StampedNext(h: seq<Option<PublisherInput>>)
    requires h != []
    ensures var n := |h| - 1;
            var q := Queued(h[..n]);
            Queued(h) == if h[n].Some? then Inserted(STAMPED, q, Stamped(h[n].value, n))
                          else if q == [] then q else q[1..]
  {
    assert Stamps(h)[..|h| - 1] == Stamps(h[..|h| - 1]);
  }

  lemma MovedIn(q: seq<Stamped>, e: Stamped, s: Stamped)
    ensures s in ByPriority(q, e, STAMPED.input) <==> s in q || s == e
  {
    var k := FirstIndex(q, RanksBelow(e, STAMPED.input));
    InsertAtMultiset(q, k, e);
    assert s in multiset(ByPriority(q, e, STAMPED.input)) <==> s in multiset(q) || s == e;
  }

  lemma RemovedIn(q: seq<Stamped>, k: nat, s: Stamped)
    ensures s in RemoveAt(q, k) ==> s in q
    ensures s in q && !(k < |q| && s == q[k]) ==> s in RemoveAt(q, k)
  {
    if k < |q| {
      assert q == q[..k] + [q[k]] + q[k + 1..];
    }
  }

  /** An insertion for one target leaves the events of every other target in the queue. */
  lemma OthersStay(q: seq<Stamped>, e: Stamped, s: Stamped)
    requires s.input.target != e.input.target
    ensures s in Inserted(STAMPED, q, e) <==> s in q
  {
    match e.input.compression
    case KeepLatest =>
      RemovesNoOther(q, e, s);
      MovedIn(RemoveAt(q, FirstIndex(q, HasTargetOf(e, STAMPED.input))), e, s);
    case _ => MovedIn(q, e, s);
  }

  lemma RemovesNoOther(q: seq<Stamped>, e: Stamped, s: Stamped)
    requires s.input.target != e.input.target
    ensures s in RemoveAt(q, FirstIndex(q, HasTargetOf(e, STAMPED.input))) <==> s in q
  {
    var k := FirstIndex(q, HasTargetOf(e, STAMPED.input));
    RemovedIn(q, k, s);
  }

  lemma RestIn(q: seq<Stamped>, s: Stamped)
    requires q != []
    ensures s in q[1..] ==> s in q
    ensures s in q && s != q[0] ==> s in q[1..]
  {
    assert q == [q[0]] + q[1..];
  }

  // Keeping the latest.

  lemma OnlyOneQueued(h: seq<Option<PublisherInput>>, t: Target, way: CompressionPolicy)
    requires AlwaysAsks(h, t, way) && way != KeepAll
    ensures var q := Queued(h);
            forall i, j :: 0 <= i < |q| && 0 <= j < |q| && q[i].input.target == t && q[j].input.target == t ==> i == j
  {
    CompressedTargetQueuedOnce(h, t);
    StampsAreInvisible(h);
    var q := Queued(h);
    assert forall i :: 0 <= i < |q| ==> Inputs(q)[i] == q[i].input;
  }

  ghost predicate LastOf(h: seq<Option<PublisherInput>>, t: Target, s: Stamped) {
    && s.at < |h| && h[s.at] == Some(s.input)
    && forall j :: s.at < j < |h| && h[j].Some? ==> h[j].value.target != t
  }

  /** Main result: if every announcement of a target asks to keep the latest, what waits for the target
      after any history is the last one that was inserted, and only that. */
  lemma {:induction false} KeepLatestKeepsLast(h: seq<Option<PublisherInput>>, t: Target, s: Stamped)
    requires AlwaysAsks(h, t, KeepLatest) && s in Queued(h) && s.input.target == t
    ensures LastOf(h, t, s)
  {
    if h != [] {
      var n := |h| - 1;
      StampedNext(h);
      if h[n].Some? && h[n].value.target == t {
        NewestIsAlone(Queued(h[..n]), Stamped(h[n].value, n), s, h[..n], t);
      } else {
        StillQueued(h, s);
        KeepLatestKeepsLast(h[..n], t, s);
        assert forall j :: 0 <= j < n ==> h[..n][j] == h[j];
      }
    }
  }

  lemma NewestIsAlone(q: seq<Stamped>, e: Stamped, s: Stamped, h: seq<Option<PublisherInput>>, t: Target)
    requires q == Queued(h) && AlwaysAsks(h, t, KeepLatest) && e.input.target == t && e.input.compression == KeepLatest
    requires s in Inserted(STAMPED, q, e) && s.input.target == t
    ensures s == e
  {
    OnlyOneQueued(h, t, KeepLatest);
    var k := FirstIndex(q, HasTargetOf(e, STAMPED.input));
    MovedIn(RemoveAt(q, k), e, s);
    NoneLeft(q, e, t);
  }

  lemma NoneLeft(q: seq<Stamped>, e: Stamped, t: Target)
    requires e.input.target == t
    requires forall i, j :: 0 <= i < |q| && 0 <= j < |q| && q[i].input.target == t && q[j].input.target == t ==> i == j
    ensures forall s :: s in RemoveAt(q, FirstIndex(q, HasTargetOf(e, STAMPED.input))) ==> s.input.target != t
  {
    var k := FirstIndex(q, HasTargetOf(e, STAMPED.input));
    var r := RemoveAt(q, k);
    assert forall i :: 0 <= i < |q| ==> (HasTargetOf(e, STAMPED.input)(q[i]) <==> q[i].input.target == t);
    forall j | 0 <= j < |r| ensures r[j].input.target != t {
      var i := if j < k then j else j + 1;
      assert r[j] == q[i];
    }
  }

  /** An event that waits after a pop, or after an insertion for another target, waited before. */
  lemma StillQueued(h: seq<Option<PublisherInput>>, s: Stamped)
    requires h != [] && s in Queued(h) && (h[|h| - 1].None? || h[|h| - 1].value.target != s.input.target)
    ensures s in Queued(h[..|h| - 1])
  {
    var n := |h| - 1;
    var q := Queued(h[..n]);
    StampedNext(h);
    if h[n].Some? {
      OthersStay(q, Stamped(h[n].value, n), s);
    } else if q != [] {
      RestIn(q, s);
    }
  }

  // Keeping the oldest.

  /** The target did not wait when `s` was inserted, and has waited ever since. */
  ghost predicate BeganWait(h: seq<Option<PublisherInput>>, t: Target, s: Stamped) {
    && s.at < |h| && h[s.at] == Some(s.input) && !TargetWaits(Queued(h[..s.at]), t)
    && forall k :: s.at < k <= |h| ==> WaitsAfter(h, k, t)
  }

  ghost predicate WaitsAfter(h: seq<Option<PublisherInput>>, k: int, t: Target)
    requires 0 <= k <= |h|
  {
    TargetWaits(Queued(h[..k]), t)
  }

  lemma BeganWaitGoesOn(h: seq<Option<PublisherInput>>, t: Target, s: Stamped)
    requires h != [] && BeganWait(h[..|h| - 1], t, s) && TargetWaits(Queued(h), t)
    ensures BeganWait(h, t, s)
  {
    var n := |h| - 1;
    assert h[..|h|] == h && h[..n][..s.at] == h[..s.at];
    forall k | s.at < k <= |h| ensures WaitsAfter(h, k, t) {
      if k <= n {
        assert WaitsAfter(h[..n], k, t) && h[..n][..k] == h[..k];
      }
    }
  }

  lemma BeginsWait(h: seq<Option<PublisherInput>>, t: Target, s: Stamped)
    requires h != [] && s.at == |h| - 1 && h[s.at] == Some(s.input)
    requires !TargetWaits(Queued(h[..|h| - 1]), t) && TargetWaits(Queued(h), t)
    ensures BeganWait(h, t, s)
  {
    assert h[..|h|] == h;
    assert WaitsAfter(h, |h|, t);
  }

  /** Main result: if every announcement of a target asks to keep the oldest, what waits for the target
      after any history is the one with which its wait began. */
  lemma {:induction false} KeepOldestKeepsFirst(h: seq<Option<PublisherInput>>, t: Target, s: Stamped)
    requires AlwaysAsks(h, t, KeepOldest) && s in Queued(h) && s.input.target == t
    ensures BeganWait(h, t, s)
  {
    if h != [] {
      var n := |h| - 1;
      StampedNext(h);
      if h[n].Some? && h[n].value.target == t && !TargetWaits(Queued(h[..n]), t) {
        FirstIsAlone(Queued(h[..n]), Stamped(h[n].value, n), s, t);
        BeginsWait(h, t, s);
      } else {
        if h[n].Some? && h[n].value.target == t {
          OldestStays(Queued(h[..n]), Stamped(h[n].value, n), t);
        } else {
          StillQueued(h, s);
        }
        KeepOldestKeepsFirst(h[..n], t, s);
        BeganWaitGoesOn(h, t, s);
      }
    }
  }

  lemma OldestStays(q: seq<Stamped>, e: Stamped, t: Target)
    requires TargetWaits(q, t) && e.input.target == t && e.input.compression == KeepOldest
    ensures Inserted(STAMPED, q, e) == q
  {
    var s :| s in q && s.input.target == t;
    var j :| 0 <= j < |q| && q[j] == s;
    assert HasTargetOf(e, STAMPED.input)(q[j]);
  }

  lemma FirstIsAlone(q: seq<Stamped>, e: Stamped, s: Stamped, t: Target)
    requires !TargetWaits(q, t) && e.input.target == t && e.input.compression == KeepOldest
    requires s in Inserted(STAMPED, q, e) && s.input.target == t
    ensures s == e
  {
    forall i | 0 <= i < |q| ensures !HasTargetOf(e, STAMPED.input)(q[i]) {
      assert q[i] in q;
    }
    MovedIn(q, e, s);
  }
}
