/** NotificationRateLimiter: at most one notification per target and interval, over whole runs. */
module RateLimiter {
  import opened Values
  import Bits

  const NANOSECONDS_PER_MILLISECOND: nat := 1_000_000

  // The key of a target.

  function KindNumber(kind: TargetType): nat {
    match kind
    case Capability => 0
    case Data => 1
    case Facade => 2
  }

  /** `(uint64(type) << 32) | id`. */
  function MakeNotificationTargetKey(t: Target): nat {
    Bits.Or(KindNumber(t.kind) * Bits.Pow2(32), t.id)
  }

  /** The key fits 64 bits and tells all targets apart. */
  lemma KeyInjective(t: Target, u: Target)
    ensures MakeNotificationTargetKey(t) < TWO64
    ensures MakeNotificationTargetKey(t) == MakeNotificationTargetKey(u) <==> t == u
  {
    Bits.Pow2At32();
    Bits.OrOfShifted(KindNumber(t.kind), t.id, 32);
    Bits.OrOfShifted(KindNumber(u.kind), u.id, 32);
  }

  /** The steady clock's time, in nanoseconds. */
  type Time = int

  function Nanoseconds(ms: UInt32): nat {
    ms * NANOSECONDS_PER_MILLISECOND
  }

  predicate Allows(last: map<nat, Time>, t: Target, minimumMs: UInt32, now: Time) {
    var key := MakeNotificationTargetKey(t);
    key in last ==> now - last[key] >= Nanoseconds(minimumMs)
  }

  class NotificationRateLimiter {
    var lastNotifyTimes: map<nat, Time>

    constructor ()
      ensures lastNotifyTimes == map[]
    {
      lastNotifyTimes := map[];
    }

    method ShouldNotify(target: Target, minimumNotifyIntervalMs: UInt32, now: Time) returns (granted: bool)
      modifies this
      ensures granted == Allows(old(lastNotifyTimes), target, minimumNotifyIntervalMs, now)
      ensures lastNotifyTimes ==
              if granted then old(lastNotifyTimes)[MakeNotificationTargetKey(target) := now] else old(lastNotifyTimes)
    {
      var minimumInterval := Nanoseconds(minimumNotifyIntervalMs);
      var key := MakeNotificationTargetKey(target);
      if key in lastNotifyTimes {
        if now - lastNotifyTimes[key] < minimumInterval {
          return false;
        }
      }
      lastNotifyTimes := lastNotifyTimes[key := now];
      return true;
    }
  }

  // Whole runs.

  datatype Request = Request(target: Target, minimumMs: UInt32, now: Time)

  /** The limiter's table after the first `n` requests. */
  function TableAfter(requests: seq<Request>, n: nat): map<nat, Time>
    requires n <= |requests|
  {
    if n == 0 then map[]
    else
      var before, r := TableAfter(requests, n - 1), requests[n - 1];
      if Allows(before, r.target, r.minimumMs, r.now) then before[MakeNotificationTargetKey(r.target) := r.now] else before
  }

  predicate GrantedAt(requests: seq<Request>, i: nat)
    requires i < |requests|
  {
    Allows(TableAfter(requests, i), requests[i].target, requests[i].minimumMs, requests[i].now)
  }

  ghost predicate ClockNeverGoesBack(requests: seq<Request>) {
    forall i, j :: 0 <= i < j < |requests| ==> requests[i].now <= requests[j].now
  }

  /** The last request before the n-th that was granted to `t`. */
  ghost predicate LastGrantTo(requests: seq<Request>, n: nat, t: Target, i: int)
    requires n <= |requests|
  {
    && 0 <= i < n && requests[i].target == t && GrantedAt(requests, i)
    && forall j :: i < j < n && requests[j].target == t ==> !GrantedAt(requests, j)
  }

  /** What a request leaves in the table for a target. */
  lemma TableNext(requests: seq<Request>, n: nat, t: Target)
    requires n < |requests|
    ensures var before, after, key := TableAfter(requests, n), TableAfter(requests, n + 1), MakeNotificationTargetKey(t);
            if requests[n].target == t && GrantedAt(requests, n) then key in after && after[key] == requests[n].now
            else (key in after <==> key in before) && (key in before ==> after[key] == before[key])
  {
    KeyInjective(t, requests[n].target);
  }

  /** The table holds the time of the last grant to each target, and nothing of a target without one. */
  lemma {:induction false} TableHoldsLastGrant(requests: seq<Request>, n: nat, t: Target)
    requires n <= |requests|
    ensures var table, key := TableAfter(requests, n), MakeNotificationTargetKey(t);
            && (key !in table ==> forall j :: 0 <= j < n && requests[j].target == t ==> !GrantedAt(requests, j))
            && (key in table ==> exists i :: LastGrantTo(requests, n, t, i) && table[key] == requests[i].now)
  {
    if n > 0 {
      TableHoldsLastGrant(requests, n - 1, t);
      TableNext(requests, n - 1, t);
      if requests[n - 1].target == t && GrantedAt(requests, n - 1) {
        assert LastGrantTo(requests, n, t, n - 1);
      } else if MakeNotificationTargetKey(t) in TableAfter(requests, n - 1) {
        var i :| LastGrantTo(requests, n - 1, t, i) && TableAfter(requests, n - 1)[MakeNotificationTargetKey(t)] == requests[i].now;
        StillLast(requests, n - 1, t, i);
      }
    }
  }

  lemma StillLast(requests: seq<Request>, n: nat, t: Target, i: int)
    requires n < |requests| && LastGrantTo(requests, n, t, i)
    requires requests[n].target == t ==> !GrantedAt(requests, n)
    ensures LastGrantTo(requests, n + 1, t, i)
  {
  }

  /** Main result: a request is suppressed exactly when an earlier one for the same type and id was
      granted less than its interval ago. */
  lemma SuppressedExactly(requests: seq<Request>, i: nat)
    requires i < |requests| && ClockNeverGoesBack(requests)
    ensures !GrantedAt(requests, i) <==>
            exists j :: 0 <= j < i && requests[j].target == requests[i].target && GrantedAt(requests, j)
                        && requests[i].now - requests[j].now < Nanoseconds(requests[i].minimumMs)
  {
    var t := requests[i].target;
    TableHoldsLastGrant(requests, i, t);
    var table, key := TableAfter(requests, i), MakeNotificationTargetKey(t);
    if key in table {
      var last :| LastGrantTo(requests, i, t, last) && table[key] == requests[last].now;
      assert forall j :: 0 <= j < i && requests[j].target == t && GrantedAt(requests, j) ==> j <= last;
    }
  }

  /** How many of the first `n` requests for `t` were granted between two points in time. */
  function Grants(requests: seq<Request>, n: nat, t: Target, from: Time, to: Time): nat
    requires n <= |requests|
  {
    if n == 0 then 0
    else
      var r := requests[n - 1];
      Grants(requests, n - 1, t, from, to)
      + (if r.target == t && from <= r.now <= to && GrantedAt(requests, n - 1) then 1 else 0)
  }

  lemma {:induction false} LaterRequestsDoNotMatter(requests: seq<Request>, r: Request, n: nat, t: Target, from: Time, to: Time)
    requires n <= |requests|
    ensures TableAfter(requests + [r], n) == TableAfter(requests, n)
    ensures Grants(requests + [r], n, t, from, to) == Grants(requests, n, t, from, to)
  {
    if n > 0 {
      LaterRequestsDoNotMatter(requests, r, n - 1, t, from, to);
    }
  }

  lemma OneMoreRequest(requests: seq<Request>, r: Request, t: Target, from: Time, to: Time)
    ensures var table, allowed := TableAfter(requests, |requests|), Allows(TableAfter(requests, |requests|), r.target, r.minimumMs, r.now);
            && TableAfter(requests + [r], |requests| + 1) ==
                 (if allowed then table[MakeNotificationTargetKey(r.target) := r.now] else table)
            && Grants(requests + [r], |requests| + 1, t, from, to) ==
                 Grants(requests, |requests|, t, from, to) + (if r.target == t && from <= r.now <= to && allowed then 1 else 0)
  {
    LaterRequestsDoNotMatter(requests, r, |requests|, t, from, to);
  }

  ghost predicate IntervalAtLeast(requests: seq<Request>, t: Target, minimumMs: UInt32) {
    forall i :: 0 <= i < |requests| && requests[i].target == t ==> requests[i].minimumMs >= minimumMs
  }

  /** Grants in a window are followed by the last one, from which the next must keep its distance. */
  lemma {:induction false} GrantsBeforeLast(requests: seq<Request>, n: nat, t: Target, minimumMs: UInt32, from: Time, to: Time)
    requires n <= |requests| && ClockNeverGoesBack(requests) && IntervalAtLeast(requests, t, minimumMs)
    requires Grants(requests, n, t, from, to) > 0
    ensures var table, key := TableAfter(requests, n), MakeNotificationTargetKey(t);
            && key in table && from <= table[key]
            && (Grants(requests, n, t, from, to) - 1) * Nanoseconds(minimumMs)
               <= (if table[key] < to then table[key] else to) - from
  {
    var r, key, before := requests[n - 1], MakeNotificationTargetKey(t), Grants(requests, n - 1, t, from, to);
    KeyInjective(t, r.target);
    if before > 0 {
      GrantsBeforeLast(requests, n - 1, t, minimumMs, from, to);
      TableHoldsLastGrant(requests, n - 1, t);
      if r.target == t && GrantedAt(requests, n - 1) {
        var last := TableAfter(requests, n - 1)[key];
        if r.now <= to {
          OneMoreInterval(before, Nanoseconds(minimumMs), last - from, r.now - from);
        }
      }
    }
  }

  lemma OneMoreInterval(k: nat, interval: nat, a: int, b: int)
    requires k > 0 && (k - 1) * interval <= a && a + interval <= b
    ensures k * interval <= b
  {
    assert k * interval == (k - 1) * interval + interval;
  }

  /** Main result: n notifications granted to one target within [from, to] are spread over at least
      n - 1 intervals. */
  lemma RateBound(requests: seq<Request>, t: Target, minimumMs: UInt32, from: Time, to: Time)
    requires ClockNeverGoesBack(requests) && IntervalAtLeast(requests, t, minimumMs)
    requires Grants(requests, |requests|, t, from, to) > 0
    ensures (Grants(requests, |requests|, t, from, to) - 1) * Nanoseconds(minimumMs) <= to - from
  {
    GrantsBeforeLast(requests, |requests|, t, minimumMs, from, to);
  }
}
