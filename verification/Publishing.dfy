/** PublishManager: rate-limited notification of changes, and the passes over the periodic timers. */
module Publishing {
  import opened Values
  import opened Product
  import opened Context
  import opened RateLimiter
  import opened Subscriptions
  import opened Delivery
  import opened FanOut
  import opened Periodic

  /** A change is let through when its target has a route whose interval the limiter finds elapsed. */
  predicate LetsThrough(p: ProductDefinition, last: map<nat, Time>, target: Target, now: Time) {
    RouteOf(p, target).Some? && Allows(last, target, RouteOf(p, target).value.minimumNotifyIntervalMs, now)
  }

  class PublishManager {
    const notifyManager: ChangeNotifyManager
    const periodicNotifyManager: PeriodicNotifyManager
    const subscriptionStore: SubscriptionStore
    const context: ProductContext
    const rateLimiter: NotificationRateLimiter

    constructor (notifyManager: ChangeNotifyManager, periodicNotifyManager: PeriodicNotifyManager,
                 subscriptionStore: SubscriptionStore, context: ProductContext)
      ensures this.notifyManager == notifyManager && this.periodicNotifyManager == periodicNotifyManager
      ensures this.subscriptionStore == subscriptionStore && this.context == context
      ensures fresh(rateLimiter) && rateLimiter.lastNotifyTimes == map[]
    {
      this.notifyManager, this.periodicNotifyManager := notifyManager, periodicNotifyManager;
      this.subscriptionStore, this.context := subscriptionStore, context;
      rateLimiter := new NotificationRateLimiter();
    }

    ghost predicate Valid()
      reads notifyManager, notifyManager.mailboxManager, notifyManager.mailboxManager.Repr, periodicNotifyManager
    {
      notifyManager.Valid() && notifyManager.store == subscriptionStore && context.Built()
      && Keyed(periodicNotifyManager.conditions)
    }

    method Publish(target: Target, trigger: NotificationTrigger, now: Time)
      requires Valid()
      modifies rateLimiter, notifyManager, notifyManager.mailboxManager, notifyManager.mailboxManager.Repr
      modifies notifyManager.callbackQueue`events
      ensures Valid() && fresh(notifyManager.mailboxManager.Repr - old(notifyManager.mailboxManager.Repr))
      ensures notifyManager.customHandler == old(notifyManager.customHandler)
      ensures var through := trigger == OnChange ==> LetsThrough(context.product, old(rateLimiter.lastNotifyTimes), target, now);
              && notifyManager.Now() ==
                   (if through
                    then Notified(old(notifyManager.Now()), notifyManager.customHandler, subscriptionStore.subscriptions, target, trigger)
                    else old(notifyManager.Now()))
              && rateLimiter.lastNotifyTimes ==
                   (if through && trigger == OnChange
                    then old(rateLimiter.lastNotifyTimes)[MakeNotificationTargetKey(target) := now]
                    else old(rateLimiter.lastNotifyTimes))
    {
      if trigger == OnChange {
        var route := context.ResolveRoute(target);
        if route.None? {
          return;
        }
        var granted := rateLimiter.ShouldNotify(target, route.value.minimumNotifyIntervalMs, now);
        if !granted {
          return;
        }
      }
      notifyManager.Notify(target, trigger);
    }

    /** The due conditions come in the order of a hash table, reported here as `due`. */
    method ProcessPeriodicNotifications(now: Time) returns (ghost due: seq<PeriodicCondition>)
      requires Valid()
      modifies rateLimiter, notifyManager, notifyManager.mailboxManager, notifyManager.mailboxManager.Repr
      modifies notifyManager.callbackQueue`events, periodicNotifyManager
      ensures Valid() && fresh(notifyManager.mailboxManager.Repr - old(notifyManager.mailboxManager.Repr))
      ensures ListsDue(due, old(periodicNotifyManager.conditions), now)
      ensures notifyManager.Now() ==
              LedgerAfter(old(notifyManager.Now()), old(notifyManager.customHandler), subscriptionStore.subscriptions, due, |due|)
      ensures periodicNotifyManager.conditions ==
              AfterPass(old(periodicNotifyManager.conditions), subscriptionStore.subscriptions, now)
      ensures rateLimiter.lastNotifyTimes == old(rateLimiter.lastNotifyTimes)
    {
      var conditions := periodicNotifyManager.GetDueConditions(now);
      ghost var timers := periodicNotifyManager.conditions;
      PublishDue(conditions, now);
      EachAdvancedOnce(timers, subscriptionStore.subscriptions, conditions, now);
      due := conditions;
    }

    /** The loop over the due conditions. */
    method PublishDue(conditions: seq<PeriodicCondition>, now: Time)
      requires Valid()
      modifies rateLimiter, notifyManager, notifyManager.mailboxManager, notifyManager.mailboxManager.Repr
      modifies notifyManager.callbackQueue`events, periodicNotifyManager
      ensures Valid() && fresh(notifyManager.mailboxManager.Repr - old(notifyManager.mailboxManager.Repr))
      ensures notifyManager.Now() ==
              LedgerAfter(old(notifyManager.Now()), old(notifyManager.customHandler), subscriptionStore.subscriptions,
                          conditions, |conditions|)
      ensures periodicNotifyManager.conditions ==
              TimersAfter(old(periodicNotifyManager.conditions), subscriptionStore.subscriptions, conditions, |conditions|)
      ensures rateLimiter.lastNotifyTimes == old(rateLimiter.lastNotifyTimes)
    {
      ghost var start, timers, handler := notifyManager.Now(), periodicNotifyManager.conditions, notifyManager.customHandler;
      for i := 0 to |conditions|
        invariant Valid() && fresh(notifyManager.mailboxManager.Repr - old(notifyManager.mailboxManager.Repr))
        invariant notifyManager.customHandler == handler && rateLimiter.lastNotifyTimes == old(rateLimiter.lastNotifyTimes)
        invariant notifyManager.Now() == LedgerAfter(start, handler, subscriptionStore.subscriptions, conditions, i)
        invariant periodicNotifyManager.conditions == TimersAfter(timers, subscriptionStore.subscriptions, conditions, i)
      {
        PublishIfSubscribed(conditions[i], now);
      }
    }

    /** One round of the loop. */
    method PublishIfSubscribed(condition: PeriodicCondition, now: Time)
      requires Valid()
      modifies rateLimiter, notifyManager, notifyManager.mailboxManager, notifyManager.mailboxManager.Repr
      modifies notifyManager.callbackQueue`events, periodicNotifyManager
      ensures Valid() && fresh(notifyManager.mailboxManager.Repr - old(notifyManager.mailboxManager.Repr))
      ensures notifyManager.customHandler == old(notifyManager.customHandler)
      ensures rateLimiter.lastNotifyTimes == old(rateLimiter.lastNotifyTimes)
      ensures notifyManager.Now() ==
              PassedOn(old(notifyManager.Now()), notifyManager.customHandler, subscriptionStore.subscriptions, condition)
      ensures periodicNotifyManager.conditions ==
              TimerPassed(old(periodicNotifyManager.conditions), subscriptionStore.subscriptions, condition.subscriptionId)
    {
      var info := subscriptionStore.Find(condition.subscriptionId);
      if info.None? {
        return;
      }
      Publish(info.value.target, NotificationTrigger.Periodic, now);
      periodicNotifyManager.UpdateNextTime(condition.subscriptionId);
    }
  }

  // One pass.

  function PassedOn(l: Ledger, handler: Option<Handler>, subscriptions: seq<SubscriptionInfo>, condition: PeriodicCondition): Ledger {
    match FirstWithId(subscriptions, condition.subscriptionId)
    case None => l
    case Some(info) => Notified(l, handler, subscriptions, info.target, NotificationTrigger.Periodic)
  }

  function LedgerAfter(l: Ledger, handler: Option<Handler>, subscriptions: seq<SubscriptionInfo>,
          due: seq<PeriodicCondition>, n: nat): Ledger
    requires n <= |due|
  {
    if n == 0 then l else PassedOn(LedgerAfter(l, handler, subscriptions, due, n - 1), handler, subscriptions, due[n - 1])
  }

  function TimerPassed(conditions: Conditions, subscriptions: seq<SubscriptionInfo>, id: SubscriptionId): Conditions {
    if id in conditions && FirstWithId(subscriptions, id).Some? then conditions[id := conditions[id].Advanced()] else conditions
  }

  function TimersAfter(conditions: Conditions, subscriptions: seq<SubscriptionInfo>, due: seq<PeriodicCondition>, n: nat): Conditions
    requires n <= |due|
  {
    if n == 0 then conditions else TimerPassed(TimersAfter(conditions, subscriptions, due, n - 1), subscriptions, due[n - 1].subscriptionId)
  }

  /** A pass over all timers at once: those whose subscription is gone stay as they are. */
  function AfterPass(conditions: Conditions, subscriptions: seq<SubscriptionInfo>, now: Time): Conditions {
    map id | id in conditions ::
      if FirstWithId(subscriptions, id).Some? then conditions[id].Passed(now) else conditions[id]
  }

  lemma {:induction false} TimersAfterAt(conditions: Conditions, subscriptions: seq<SubscriptionInfo>,
          due: seq<PeriodicCondition>, n: nat, id: SubscriptionId)
    requires n <= |due| && id in conditions
    requires forall i, j :: 0 <= i < j < |due| ==> due[i].subscriptionId != due[j].subscriptionId
    ensures var after := TimersAfter(conditions, subscriptions, due, n);
            && after.Keys == conditions.Keys
            && after[id] == if (exists i :: 0 <= i < n && due[i].subscriptionId == id) && FirstWithId(subscriptions, id).Some?
                            then conditions[id].Advanced() else conditions[id]
  {
    if n > 0 {
      TimersAfterAt(conditions, subscriptions, due, n - 1, id);
    }
  }

  /** Main result: whatever the order of the due conditions, a pass advances each due timer by exactly
      one interval. */
  lemma EachAdvancedOnce(conditions: Conditions, subscriptions: seq<SubscriptionInfo>, due: seq<PeriodicCondition>, now: Time)
    requires ListsDue(due, conditions, now)
    ensures TimersAfter(conditions, subscriptions, due, |due|) == AfterPass(conditions, subscriptions, now)
  {
    var after := TimersAfter(conditions, subscriptions, due, |due|);
    if conditions == map[] {
      assert due == [];
    }
    forall id | id in conditions
      ensures after.Keys == conditions.Keys && after[id] == AfterPass(conditions, subscriptions, now)[id]
    {
      TimersAfterAt(conditions, subscriptions, due, |due|, id);
    }
    if id :| id in conditions {
      assert after.Keys == conditions.Keys;
    }
  }

  /** How many of the first `n` due conditions belong to a subscription to `target`. */
  function DueOn(subscriptions: seq<SubscriptionInfo>, due: seq<PeriodicCondition>, n: nat, target: Target): nat
    requires n <= |due|
  {
    if n == 0 then 0
    else
      var info := FirstWithId(subscriptions, due[n - 1].subscriptionId);
      DueOn(subscriptions, due, n - 1, target) + (if info.Some? && info.value.target == target then 1 else 0)
  }

  /** Main result: a pass pushes to the mailbox of a periodic subscription once for every due condition
      whose subscription has the same target, its own or another's. */
  lemma {:induction false} PassReachesMailbox(
    l: Ledger, handler: Option<Handler>, subscriptions: seq<SubscriptionInfo>, due: seq<PeriodicCondition>, n: nat, info: SubscriptionInfo)
    requires n <= |due| && UniqueIds(subscriptions)
    requires info in subscriptions && info.delivery == Mailbox && info.trigger == NotificationTrigger.Periodic
    ensures BoxOf(LedgerAfter(l, handler, subscriptions, due, n).boxes, info.id) ==
            PushedTimes(BoxOf(l.boxes, info.id), DueOn(subscriptions, due, n, info.target),
                        NotificationMessage(info.target, NotificationTrigger.Periodic))
  {
    if n > 0 {
      PassReachesMailbox(l, handler, subscriptions, due, n - 1, info);
      var before := LedgerAfter(l, handler, subscriptions, due, n - 1);
      match FirstWithId(subscriptions, due[n - 1].subscriptionId)
      case None =>
      case Some(other) =>
        NotifyReachesEachOnce(before, handler, subscriptions, other.target, NotificationTrigger.Periodic, info.id);
        OnlyOneWithId(subscriptions, info);
    }
  }

  lemma OnlyOneWithId(subscriptions: seq<SubscriptionInfo>, info: SubscriptionInfo)
    requires UniqueIds(subscriptions) && info in subscriptions
    ensures forall other :: other in subscriptions && other.id == info.id ==> other == info
  {
  }

  function DueIds(subscriptions: seq<SubscriptionInfo>, conditions: Conditions, now: Time, target: Target): set<SubscriptionId> {
    set id | id in conditions && conditions[id].Due(now)
             && FirstWithId(subscriptions, id).Some? && FirstWithId(subscriptions, id).value.target == target
  }

  function DueIdsAmong(subscriptions: seq<SubscriptionInfo>, due: seq<PeriodicCondition>, n: nat, target: Target): set<SubscriptionId>
    requires n <= |due|
  {
    if n == 0 then {}
    else
      var before, info := DueIdsAmong(subscriptions, due, n - 1, target), FirstWithId(subscriptions, due[n - 1].subscriptionId);
      if info.Some? && info.value.target == target then before + {due[n - 1].subscriptionId} else before
  }

  lemma {:induction false} DueIdsListed(subscriptions: seq<SubscriptionInfo>, due: seq<PeriodicCondition>, n: nat,
          target: Target, id: SubscriptionId)
    requires n <= |due|
    ensures id in DueIdsAmong(subscriptions, due, n, target) <==>
            && (exists i :: 0 <= i < n && due[i].subscriptionId == id)
            && FirstWithId(subscriptions, id).Some? && FirstWithId(subscriptions, id).value.target == target
  {
    if n > 0 {
      DueIdsListed(subscriptions, due, n - 1, target, id);
    }
  }

  lemma {:induction false} DueOnAmong(subscriptions: seq<SubscriptionInfo>, due: seq<PeriodicCondition>, n: nat, target: Target)
    requires n <= |due|
    requires forall i, j :: 0 <= i < j < |due| ==> due[i].subscriptionId != due[j].subscriptionId
    ensures DueOn(subscriptions, due, n, target) == |DueIdsAmong(subscriptions, due, n, target)|
  {
    if n > 0 {
      DueOnAmong(subscriptions, due, n - 1, target);
      DueIdsListed(subscriptions, due, n - 1, target, due[n - 1].subscriptionId);
    }
  }

  /** Main result: how often a pass pushes does not depend on the order of the due conditions: it is
      the number of timers that are due and subscribed to the target. */
  lemma PassPushesPerDueTimer(
    l: Ledger, handler: Option<Handler>, subscriptions: seq<SubscriptionInfo>, conditions: Conditions, now: Time,
    due: seq<PeriodicCondition>, info: SubscriptionInfo)
    requires ListsDue(due, conditions, now) && UniqueIds(subscriptions)
    requires info in subscriptions && info.delivery == Mailbox && info.trigger == NotificationTrigger.Periodic
    ensures BoxOf(LedgerAfter(l, handler, subscriptions, due, |due|).boxes, info.id) ==
            PushedTimes(BoxOf(l.boxes, info.id), |DueIds(subscriptions, conditions, now, info.target)|,
                        NotificationMessage(info.target, NotificationTrigger.Periodic))
  {
    PassReachesMailbox(l, handler, subscriptions, due, |due|, info);
    DueOnAmong(subscriptions, due, |due|, info.target);
    forall id
      ensures id in DueIdsAmong(subscriptions, due, |due|, info.target) <==> id in DueIds(subscriptions, conditions, now, info.target)
    {
      DueIdsListed(subscriptions, due, |due|, info.target, id);
    }
    assert DueIdsAmong(subscriptions, due, |due|, info.target) == DueIds(subscriptions, conditions, now, info.target);
  }

  // Changes over a whole run.

  datatype Change = Change(target: Target, now: Time)

  /** The limiter's table after the first `n` changes were published. */
  function LimiterAfter(p: ProductDefinition, changes: seq<Change>, n: nat): map<nat, Time>
    requires n <= |changes|
  {
    if n == 0 then map[]
    else
      var before, c := LimiterAfter(p, changes, n - 1), changes[n - 1];
      if LetsThrough(p, before, c.target, c.now) then before[MakeNotificationTargetKey(c.target) := c.now] else before
  }

  /** How many of the first `n` changes of `t` were let through between two points in time. */
  function Through(p: ProductDefinition, changes: seq<Change>, n: nat, t: Target, from: Time, to: Time): nat
    requires n <= |changes|
  {
    if n == 0 then 0
    else
      var c := changes[n - 1];
      Through(p, changes, n - 1, t, from, to)
      + (if c.target == t && from <= c.now <= to && LetsThrough(p, LimiterAfter(p, changes, n - 1), t, c.now) then 1 else 0)
  }

  /** The requests that reach the limiter: the changes whose target has a route. */
  function Requests(p: ProductDefinition, changes: seq<Change>, n: nat): seq<Request>
    requires n <= |changes|
  {
    if n == 0 then []
    else
      var before, c := Requests(p, changes, n - 1), changes[n - 1];
      match RouteOf(p, c.target)
      case None => before
      case Some(route) => before + [Request(c.target, route.minimumNotifyIntervalMs, c.now)]
  }

  /** The limiter sees the requests and nothing else. */
  lemma {:induction false} LimiterSeesRequests(p: ProductDefinition, changes: seq<Change>, n: nat, t: Target, from: Time, to: Time)
    requires n <= |changes|
    ensures var requests := Requests(p, changes, n);
            && TableAfter(requests, |requests|) == LimiterAfter(p, changes, n)
            && Grants(requests, |requests|, t, from, to) == Through(p, changes, n, t, from, to)
  {
    if n > 0 {
      LimiterSeesRequests(p, changes, n - 1, t, from, to);
      var before, c := Requests(p, changes, n - 1), changes[n - 1];
      match RouteOf(p, c.target)
      case None =>
      case Some(route) =>
        OneMoreRequest(before, Request(c.target, route.minimumNotifyIntervalMs, c.now), t, from, to);
    }
  }

  lemma {:induction false} RequestFacts(p: ProductDefinition, changes: seq<Change>, n: nat, k: nat)
    requires n <= |changes| && InOrder(changes) && k < |Requests(p, changes, n)|
    ensures var r := Requests(p, changes, n)[k];
            && n > 0 && r.now <= changes[n - 1].now
            && RouteOf(p, r.target).Some? && r.minimumMs == RouteOf(p, r.target).value.minimumNotifyIntervalMs
  {
    if k < |Requests(p, changes, n - 1)| {
      RequestFacts(p, changes, n - 1, k);
    }
  }

  ghost predicate InOrder(changes: seq<Change>) {
    forall i, j :: 0 <= i < j < |changes| ==> changes[i].now <= changes[j].now
  }

  lemma {:induction false} RequestsInOrder(p: ProductDefinition, changes: seq<Change>, n: nat)
    requires n <= |changes| && InOrder(changes)
    ensures ClockNeverGoesBack(Requests(p, changes, n))
  {
    if n > 0 {
      RequestsInOrder(p, changes, n - 1);
      var requests := Requests(p, changes, n);
      forall i, j | 0 <= i < j < |requests| ensures requests[i].now <= requests[j].now {
        if j == |Requests(p, changes, n - 1)| {
          RequestFacts(p, changes, n, i);
        }
      }
    }
  }

  /** Main result: over any run of published changes, those of one target that are let through between
      two points in time are spread over the interval of the target's route. */
  lemma ChangesAreSpread(p: ProductDefinition, changes: seq<Change>, t: Target, from: Time, to: Time)
    requires InOrder(changes) && Through(p, changes, |changes|, t, from, to) > 0
    ensures RouteOf(p, t).Some?
    ensures (Through(p, changes, |changes|, t, from, to) - 1) * Nanoseconds(RouteOf(p, t).value.minimumNotifyIntervalMs) <= to - from
  {
    var requests := Requests(p, changes, |changes|);
    LimiterSeesRequests(p, changes, |changes|, t, from, to);
    RequestsInOrder(p, changes, |changes|);
    ThroughHasRoute(p, changes, |changes|, t, from, to);
    assert IntervalAtLeast(requests, t, RouteOf(p, t).value.minimumNotifyIntervalMs) by {
      forall i | 0 <= i < |requests| && requests[i].target == t
        ensures requests[i].minimumMs >= RouteOf(p, t).value.minimumNotifyIntervalMs
      {
        RequestFacts(p, changes, |changes|, i);
      }
    }
    RateBound(requests, t, RouteOf(p, t).value.minimumNotifyIntervalMs, from, to);
  }

  lemma {:induction false} ThroughHasRoute(p: ProductDefinition, changes: seq<Change>, n: nat, t: Target, from: Time, to: Time)
    requires n <= |changes| && Through(p, changes, n, t, from, to) > 0
    ensures RouteOf(p, t).Some?
  {
    if Through(p, changes, n - 1, t, from, to) > 0 {
      ThroughHasRoute(p, changes, n - 1, t, from, to);
    }
  }
}
