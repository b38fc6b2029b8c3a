/** PeriodicNotifyManager: timers that are advanced by whole intervals. */
module Periodic {
  import opened Values
  import opened Subscriptions
  import opened RateLimiter

  datatype PeriodicCondition = PeriodicCondition(subscriptionId: SubscriptionId, intervalMs: UInt32, nextNotifyTime: Time)
  {
    predicate Due(now: Time) {
      nextNotifyTime <= now
    }

    function Advanced(): PeriodicCondition {
      this.(nextNotifyTime := nextNotifyTime + Nanoseconds(intervalMs))
    }

    /** One pass over the timer. */
    function Passed(now: Time): PeriodicCondition {
      if Due(now) then Advanced() else this
    }
  }

  type Conditions = map<SubscriptionId, PeriodicCondition>

  ghost predicate Keyed(conditions: Conditions) {
    forall id :: id in conditions ==> conditions[id].subscriptionId == id
  }

  /** `due` lists the conditions that are due, each once, in some order. */
  ghost predicate ListsDue(due: seq<PeriodicCondition>, conditions: Conditions, now: Time) {
    && (forall i, j :: 0 <= i < j < |due| ==> due[i].subscriptionId != due[j].subscriptionId)
    && (forall i :: 0 <= i < |due| ==>
          due[i].subscriptionId in conditions && conditions[due[i].subscriptionId] == due[i] && due[i].Due(now))
    && (forall id :: id in conditions && conditions[id].Due(now) ==> exists i :: 0 <= i < |due| && due[i].subscriptionId == id)
  }

  class PeriodicNotifyManager {
    var conditions: Conditions

    constructor ()
      ensures conditions == map[]
    {
      conditions := map[];
    }

    method Register(condition: PeriodicCondition)
      requires Keyed(conditions)
      modifies this
      ensures Keyed(conditions) && conditions == old(conditions)[condition.subscriptionId := condition]
    {
      conditions := conditions[condition.subscriptionId := condition];
    }

    method GetDueConditions(now: Time) returns (out: seq<PeriodicCondition>)
      requires Keyed(conditions)
      ensures ListsDue(out, conditions, now)
    {
      out := [];
      var rest := conditions.Keys;
      while rest != {}
        invariant rest <= conditions.Keys
        invariant forall i, j :: 0 <= i < j < |out| ==> out[i].subscriptionId != out[j].subscriptionId
        invariant forall i :: 0 <= i < |out| ==>
          out[i].subscriptionId in conditions.Keys - rest && conditions[out[i].subscriptionId] == out[i] && out[i].Due(now)
        invariant forall id :: id in conditions && conditions[id].Due(now) ==>
          id in rest || exists i :: 0 <= i < |out| && out[i].subscriptionId == id
        decreases rest
      {
        var id :| id in rest;
        ghost var before := out;
        if conditions[id].nextNotifyTime <= now {
          out := out + [conditions[id]];
          assert out[|before|].subscriptionId == id;
        }
        rest := rest - {id};
        assert forall k :: 0 <= k < |before| ==> out[k] == before[k];
      }
    }

    method UpdateNextTime(id: SubscriptionId)
      requires Keyed(conditions)
      modifies this
      ensures Keyed(conditions)
      ensures conditions == if id in old(conditions) then old(conditions)[id := old(conditions)[id].Advanced()] else old(conditions)
    {
      if id !in conditions {
        return;
      }
      conditions := conditions[id := conditions[id].Advanced()];
    }
  }

  // One timer over many passes.

  function TimerAfter(c: PeriodicCondition, passes: seq<Time>, n: nat): PeriodicCondition
    requires n <= |passes|
  {
    if n == 0 then c else TimerAfter(c, passes, n - 1).Passed(passes[n - 1])
  }

  predicate Fires(c: PeriodicCondition, passes: seq<Time>, i: nat)
    requires i < |passes|
  {
    TimerAfter(c, passes, i).Due(passes[i])
  }

  function Firings(c: PeriodicCondition, passes: seq<Time>, n: nat): nat
    requires n <= |passes|
  {
    if n == 0 then 0 else Firings(c, passes, n - 1) + (if Fires(c, passes, n - 1) then 1 else 0)
  }

  /** Main result: a timer never drifts, however late the passes come. */
  lemma {:induction false} NeverDrifts(c: PeriodicCondition, passes: seq<Time>, n: nat)
    requires n <= |passes|
    ensures TimerAfter(c, passes, n) == c.(nextNotifyTime := c.nextNotifyTime + Firings(c, passes, n) * Nanoseconds(c.intervalMs))
  {
    if n > 0 {
      NeverDrifts(c, passes, n - 1);
      OneMore(Firings(c, passes, n - 1), Nanoseconds(c.intervalMs));
    }
  }

  /** What subscribing registers. */
  function Registered(id: SubscriptionId, intervalMs: UInt32, now: Time): PeriodicCondition {
    PeriodicCondition(id, intervalMs, now + Nanoseconds(intervalMs))
  }

  /** Main result: after k firings the next is due k + 1 intervals after registration, and the k-th
      did not come before k intervals had passed. */
  lemma FiresOnSchedule(id: SubscriptionId, intervalMs: UInt32, registered: Time, passes: seq<Time>, n: nat)
    requires n < |passes|
    ensures var c, interval := Registered(id, intervalMs, registered), Nanoseconds(intervalMs);
            && TimerAfter(c, passes, n).nextNotifyTime == registered + (Firings(c, passes, n) + 1) * interval
            && (Fires(c, passes, n) <==> passes[n] >= registered + (Firings(c, passes, n) + 1) * interval)
  {
    var c := Registered(id, intervalMs, registered);
    NeverDrifts(c, passes, n);
    OneMore(Firings(c, passes, n), Nanoseconds(intervalMs));
  }

  lemma OneMore(k: int, interval: nat)
    ensures (k + 1) * interval == k * interval + interval
  {
  }

  /** How many firings a timer is behind. */
  function Behind(c: PeriodicCondition, now: Time): nat
    requires c.intervalMs > 0
  {
    if c.Due(now) then (now - c.nextNotifyTime) / Nanoseconds(c.intervalMs) + 1 else 0
  }

  lemma PassCatchesUp(c: PeriodicCondition, now: Time)
    requires c.intervalMs > 0
    ensures Behind(c.Passed(now), now) == if c.Due(now) then Behind(c, now) - 1 else 0
  {
    if c.Due(now) {
      LessByOne(now - c.nextNotifyTime, Nanoseconds(c.intervalMs));
    }
  }

  lemma LessByOne(lag: nat, interval: nat)
    requires interval > 0
    ensures lag >= interval ==> (lag - interval) / interval == lag / interval - 1
    ensures lag < interval ==> lag / interval == 0
  {
    if lag >= interval {
      assert lag == (lag - interval) + interval;
      AddedMultiple(lag - interval, interval);
    }
  }

  /** Adding the divisor adds one to the quotient. */
  lemma AddedMultiple(n: nat, d: nat)
    requires d > 0
    ensures (n + d) / d == n / d + 1
  {
    var q, r := n / d, n % d;
    OneMore(q, d);
    assert n + d == (q + 1) * d + r;
    QuotientIs(n + d, d, q + 1, r);
  }

  lemma QuotientIs(n: nat, d: nat, q: nat, r: nat)
    requires d > 0 && n == q * d + r && r < d
    ensures n / d == q
  {
    var q' := n / d;
    assert n == q' * d + n % d;
    if q > q' {
      Grows(q' + 1, q, d);
      OneMore(q', d);
    } else if q < q' {
      Grows(q + 1, q', d);
      OneMore(q, d);
    }
  }

  lemma Grows(a: nat, b: nat, d: nat)
    requires a <= b
    ensures a * d <= b * d
  {
  }

  /** Main result: while the clock stands still, a timer that is behind fires in each pass until it has
      caught up, which takes floor((now - next) / interval) + 1 passes, and then in none. */
  lemma {:induction false} CatchesUp(c: PeriodicCondition, now: Time, n: nat)
    requires c.intervalMs > 0
    ensures var passes := seq(n, _ => now);
            && Firings(c, passes, n) == (if n < Behind(c, now) then n else Behind(c, now))
            && (TimerAfter(c, passes, n).Due(now) <==> n < Behind(c, now))
  {
    var passes := seq(n, _ => now);
    CatchesUpWithin(c, now, passes, n);
  }

  lemma {:induction false} CatchesUpWithin(c: PeriodicCondition, now: Time, passes: seq<Time>, n: nat)
    requires c.intervalMs > 0 && n <= |passes| && forall i :: 0 <= i < |passes| ==> passes[i] == now
    ensures Firings(c, passes, n) == (if n < Behind(c, now) then n else Behind(c, now))
    ensures TimerAfter(c, passes, n).intervalMs == c.intervalMs
    ensures Behind(TimerAfter(c, passes, n), now) == Behind(c, now) - Firings(c, passes, n)
  {
    if n > 0 {
      CatchesUpWithin(c, now, passes, n - 1);
      PassCatchesUp(TimerAfter(c, passes, n - 1), now);
    }
  }

  /** An interval of zero is never caught up with: once due, such a timer fires in every pass. */
  lemma {:induction false} ZeroIntervalFiresAlways(c: PeriodicCondition, passes: seq<Time>, n: nat)
    requires c.intervalMs == 0 && n <= |passes| && forall i :: 0 <= i < |passes| ==> c.Due(passes[i])
    ensures TimerAfter(c, passes, n) == c && Firings(c, passes, n) == n
  {
    if n > 0 {
      ZeroIntervalFiresAlways(c, passes, n - 1);
    }
  }
}
