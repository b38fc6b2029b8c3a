/** Fan-out and conservation over whole runs of subscribing, notifying and reading mailboxes. */
module FanOut {
  import opened Values
  import opened Subscriptions
  import opened Delivery

  datatype Event =
    | Enrol(target: Target, delivery: DeliveryMethod, trigger: NotificationTrigger)
    | Announce(about: Target, cause: NotificationTrigger)
    | Take(id: SubscriptionId)

  datatype Hub = Hub(subscriptions: seq<SubscriptionInfo>, nextId: SubscriptionId, ledger: Ledger)

  function Stepped(handler: Option<Handler>, hub: Hub, event: Event): Hub {
    match event
    case Enrol(target, delivery, trigger) =>
      hub.(subscriptions := hub.subscriptions + [SubscriptionInfo(hub.nextId, target, delivery, trigger)],
           nextId := (hub.nextId + 1) % TWO64)
    case Announce(about, cause) =>
      hub.(ledger := Notified(hub.ledger, handler, hub.subscriptions, about, cause))
    case Take(id) =>
      hub.(ledger := hub.ledger.(boxes := hub.ledger.boxes[id := Popped(BoxOf(hub.ledger.boxes, id))]))
  }

  /** The hub after the first `n` events. */
  function HubAfter(handler: Option<Handler>, events: seq<Event>, n: nat): Hub
    requires n <= |events|
  {
    if n == 0 then Hub([], 1, EMPTY_LEDGER) else Stepped(handler, HubAfter(handler, events, n - 1), events[n - 1])
  }

  // One notification and one mailbox.

  function PushedTimes(box: Box, k: nat, m: NotificationMessage): Box {
    if k == 0 then box else Pushed(PushedTimes(box, k - 1, m), DEFAULT_MAILBOX_SIZE, m)
  }

  predicate Uses(info: SubscriptionInfo, way: DeliveryMethod, id: SubscriptionId) {
    info.delivery == way && info.id == id
  }

  function Copies(infos: seq<SubscriptionInfo>, n: nat, way: DeliveryMethod, id: SubscriptionId): nat
    requires n <= |infos|
  {
    if n == 0 then 0 else Copies(infos, n - 1, way, id) + (if Uses(infos[n - 1], way, id) then 1 else 0)
  }

  lemma {:induction false} BoxAfterDeliveries(
    l: Ledger, handler: Option<Handler>, infos: seq<SubscriptionInfo>, n: nat, m: NotificationMessage, id: SubscriptionId)
    requires n <= |infos|
    ensures BoxOf(AfterDeliveries(l, handler, infos, n, m).boxes, id) == PushedTimes(BoxOf(l.boxes, id), Copies(infos, n, Mailbox, id), m)
  {
    if n > 0 {
      BoxAfterDeliveries(l, handler, infos, n - 1, m, id);
    }
  }

  function Attempted(subscriptions: seq<SubscriptionInfo>, about: Target, cause: NotificationTrigger, id: SubscriptionId): nat {
    var infos := Concerned(subscriptions, |subscriptions|, about, cause);
    Copies(infos, |infos|, Mailbox, id)
  }

  lemma CopiesOfLonger(infos: seq<SubscriptionInfo>, info: SubscriptionInfo, way: DeliveryMethod, id: SubscriptionId)
    ensures Copies(infos + [info], |infos| + 1, way, id) == Copies(infos, |infos|, way, id) + (if Uses(info, way, id) then 1 else 0)
  {
    CopiesOfPrefix(infos, infos + [info], |infos|, way, id);
  }

  lemma {:induction false} CopiesOfPrefix(a: seq<SubscriptionInfo>, b: seq<SubscriptionInfo>, n: nat,
          way: DeliveryMethod, id: SubscriptionId)
    requires n <= |a| && n <= |b| && forall i :: 0 <= i < n ==> a[i] == b[i]
    ensures Copies(a, n, way, id) == Copies(b, n, way, id)
  {
    if n > 0 {
      CopiesOfPrefix(a, b, n - 1, way, id);
    }
  }

  ghost predicate Reached(subscriptions: seq<SubscriptionInfo>, n: nat, about: Target, cause: NotificationTrigger,
          way: DeliveryMethod, id: SubscriptionId)
    requires n <= |subscriptions|
  {
    exists i :: 0 <= i < n && Concerns(subscriptions[i], about, cause) && Uses(subscriptions[i], way, id)
  }

  lemma {:induction false} CopiesAreOne(subscriptions: seq<SubscriptionInfo>, n: nat, about: Target,
          cause: NotificationTrigger, way: DeliveryMethod, id: SubscriptionId)
    requires n <= |subscriptions| && UniqueIds(subscriptions)
    ensures var infos := Concerned(subscriptions, n, about, cause);
            Copies(infos, |infos|, way, id) == if Reached(subscriptions, n, about, cause, way, id) then 1 else 0
  {
    if n > 0 {
      CopiesAreOne(subscriptions, n - 1, about, cause, way, id);
      var before, last := Concerned(subscriptions, n - 1, about, cause), subscriptions[n - 1];
      CopiesOfLonger(before, last, way, id);
      if Reached(subscriptions, n - 1, about, cause, way, id) {
        var i :| 0 <= i < n - 1 && Concerns(subscriptions[i], about, cause) && Uses(subscriptions[i], way, id);
        assert Reached(subscriptions, n, about, cause, way, id);
      }
      if Reached(subscriptions, n, about, cause, way, id) && !(Concerns(last, about, cause) && Uses(last, way, id)) {
        var i :| 0 <= i < n && Concerns(subscriptions[i], about, cause) && Uses(subscriptions[i], way, id);
        assert i < n - 1;
      }
    }
  }

  lemma UniqueIdsReached(subscriptions: seq<SubscriptionInfo>, about: Target, cause: NotificationTrigger,
          way: DeliveryMethod, id: SubscriptionId)
    requires UniqueIds(subscriptions)
    ensures var infos := Concerned(subscriptions, |subscriptions|, about, cause);
            Copies(infos, |infos|, way, id) ==
            if SubscriptionInfo(id, about, way, cause) in subscriptions then 1 else 0
  {
    CopiesAreOne(subscriptions, |subscriptions|, about, cause, way, id);
    var info := SubscriptionInfo(id, about, way, cause);
    if info in subscriptions {
      var i :| 0 <= i < |subscriptions| && subscriptions[i] == info;
      assert Reached(subscriptions, |subscriptions|, about, cause, way, id);
    }
  }

  /** Main result: while ids are unique, a notification is pushed once to the mailbox of every
      subscription it concerns, and touches no other mailbox. */
  lemma NotifyReachesEachOnce(
    l: Ledger, handler: Option<Handler>, subscriptions: seq<SubscriptionInfo>, about: Target, cause: NotificationTrigger,
    id: SubscriptionId)
    requires UniqueIds(subscriptions)
    ensures BoxOf(Notified(l, handler, subscriptions, about, cause).boxes, id) ==
            if SubscriptionInfo(id, about, Mailbox, cause) in subscriptions
            then Pushed(BoxOf(l.boxes, id), DEFAULT_MAILBOX_SIZE, NotificationMessage(about, cause))
            else BoxOf(l.boxes, id)
  {
    var infos := Concerned(subscriptions, |subscriptions|, about, cause);
    var m := NotificationMessage(about, cause);
    BoxAfterDeliveries(l, handler, infos, |infos|, m, id);
    UniqueIdsReached(subscriptions, about, cause, Mailbox, id);
    assert PushedTimes(BoxOf(l.boxes, id), 0, m) == BoxOf(l.boxes, id);
  }

  lemma CallbackDelivered(l: Ledger, handler: Option<Handler>, info: SubscriptionInfo, m: NotificationMessage, note: CallbackNotification)
    requires note.target == m.target && note.trigger == m.trigger && !l.callbacksShut
    ensures var l' := Delivered(l, handler, info, m);
            && !l'.callbacksShut
            && multiset(l'.callbacks)[note] == multiset(l.callbacks)[note] + (if Uses(info, Callback, note.subscriptionId) then 1 else 0)
  {
  }

  lemma {:induction false} CallbacksAfterDeliveries(
    l: Ledger, handler: Option<Handler>, infos: seq<SubscriptionInfo>, n: nat, m: NotificationMessage, note: CallbackNotification)
    requires n <= |infos| && note.target == m.target && note.trigger == m.trigger && !l.callbacksShut
    ensures var l' := AfterDeliveries(l, handler, infos, n, m);
            && !l'.callbacksShut
            && multiset(l'.callbacks)[note] == multiset(l.callbacks)[note] + Copies(infos, n, Callback, note.subscriptionId)
  {
    if n > 0 {
      CallbacksAfterDeliveries(l, handler, infos, n - 1, m, note);
      CallbackDelivered(AfterDeliveries(l, handler, infos, n - 1, m), handler, infos[n - 1], m, note);
    }
  }

  /** Main result: while ids are unique and the callback queue takes events, a notification is queued
      once for the callback of every subscription it concerns. */
  lemma NotifyQueuesEachCallbackOnce(
    l: Ledger, handler: Option<Handler>, subscriptions: seq<SubscriptionInfo>, note: CallbackNotification)
    requires UniqueIds(subscriptions) && !l.callbacksShut
    ensures multiset(Notified(l, handler, subscriptions, note.target, note.trigger).callbacks)[note] ==
            multiset(l.callbacks)[note] +
            if SubscriptionInfo(note.subscriptionId, note.target, Callback, note.trigger) in subscriptions then 1 else 0
  {
    var infos := Concerned(subscriptions, |subscriptions|, note.target, note.trigger);
    CallbacksAfterDeliveries(l, handler, infos, |infos|, NotificationMessage(note.target, note.trigger), note);
    UniqueIdsReached(subscriptions, note.target, note.trigger, Callback, note.subscriptionId);
  }

  lemma HandoverDelivered(l: Ledger, handler: Option<Handler>, info: SubscriptionInfo, m: NotificationMessage, id: SubscriptionId)
    requires handler.Some?
    ensures var h := Handover(id, m);
            multiset(Delivered(l, handler, info, m).handed)[h] == multiset(l.handed)[h] + (if Uses(info, Custom, id) then 1 else 0)
  {
  }

  lemma {:induction false} HandoversAfterDeliveries(
    l: Ledger, handler: Option<Handler>, infos: seq<SubscriptionInfo>, n: nat, m: NotificationMessage, id: SubscriptionId)
    requires n <= |infos| && handler.Some?
    ensures var h := Handover(id, m);
            multiset(AfterDeliveries(l, handler, infos, n, m).handed)[h] == multiset(l.handed)[h] + Copies(infos, n, Custom, id)
  {
    if n > 0 {
      HandoversAfterDeliveries(l, handler, infos, n - 1, m, id);
      HandoverDelivered(AfterDeliveries(l, handler, infos, n - 1, m), handler, infos[n - 1], m, id);
    }
  }

  /** Main result: while ids are unique and a custom handler is set, it is given a notification once for
      every subscription with custom delivery that the notification concerns. */
  lemma NotifyHandsOverEachOnce(
    l: Ledger, handler: Option<Handler>, subscriptions: seq<SubscriptionInfo>, about: Target, cause: NotificationTrigger,
    id: SubscriptionId)
    requires UniqueIds(subscriptions) && handler.Some?
    ensures var h := Handover(id, NotificationMessage(about, cause));
            multiset(Notified(l, handler, subscriptions, about, cause).handed)[h] ==
            multiset(l.handed)[h] +
            if SubscriptionInfo(id, about, Custom, cause) in subscriptions then 1 else 0
  {
    var infos := Concerned(subscriptions, |subscriptions|, about, cause);
    HandoversAfterDeliveries(l, handler, infos, |infos|, NotificationMessage(about, cause), id);
    UniqueIdsReached(subscriptions, about, cause, Custom, id);
  }

  // Conservation.

  ghost predicate Subsequence<T>(a: seq<T>, b: seq<T>)
    decreases |b|
  {
    if a == [] then true
    else if b == [] then false
    else
      || (a[|a| - 1] == b[|b| - 1] && Subsequence(a[..|a| - 1], b[..|b| - 1]))
      || Subsequence(a, b[..|b| - 1])
  }

  lemma SubsequenceGrows<T>(a: seq<T>, b: seq<T>, x: T)
    requires Subsequence(a, b)
    ensures Subsequence(a, b + [x]) && Subsequence(a + [x], b + [x])
  {
    assert (b + [x])[..|b + [x]| - 1] == b;
    assert (a + [x])[..|a + [x]| - 1] == a;
  }

  function Repeated<T>(x: T, k: nat): seq<T> {
    if k == 0 then [] else Repeated(x, k - 1) + [x]
  }

  /** Every message for which a push to the mailbox was attempted, in order. */
  function Attempts(handler: Option<Handler>, events: seq<Event>, n: nat, id: SubscriptionId): seq<NotificationMessage>
    requires n <= |events|
  {
    if n == 0 then []
    else
      var before := Attempts(handler, events, n - 1, id);
      match events[n - 1]
      case Announce(about, cause) =>
        before + Repeated(NotificationMessage(about, cause), Attempted(HubAfter(handler, events, n - 1).subscriptions, about, cause, id))
      case _ => before
  }

  /** Every message that its reader has taken out of the mailbox, in order. */
  function Taken(handler: Option<Handler>, events: seq<Event>, n: nat, id: SubscriptionId): seq<NotificationMessage>
    requires n <= |events|
  {
    if n == 0 then []
    else
      var before, box := Taken(handler, events, n - 1, id), BoxOf(HubAfter(handler, events, n - 1).ledger.boxes, id);
      if events[n - 1] == Take(id) && box.queue != [] then before + [box.queue[0]] else before
  }

  ghost predicate Balanced(box: Box, attempts: seq<NotificationMessage>, taken: seq<NotificationMessage>) {
    && |attempts| == |taken| + |box.queue| + box.refused
    && |box.queue| <= DEFAULT_MAILBOX_SIZE
    && Subsequence(taken + box.queue, attempts)
  }

  lemma PushBalances(box: Box, m: NotificationMessage, attempts: seq<NotificationMessage>, taken: seq<NotificationMessage>)
    requires Balanced(box, attempts, taken)
    ensures Balanced(Pushed(box, DEFAULT_MAILBOX_SIZE, m), attempts + [m], taken)
  {
    SubsequenceGrows(taken + box.queue, attempts, m);
    assert (taken + box.queue) + [m] == taken + (box.queue + [m]);
  }

  lemma {:induction false} PushesBalance(box: Box, k: nat, m: NotificationMessage,
          attempts: seq<NotificationMessage>, taken: seq<NotificationMessage>)
    requires Balanced(box, attempts, taken)
    ensures Balanced(PushedTimes(box, k, m), attempts + Repeated(m, k), taken)
  {
    if k == 0 {
      assert attempts + Repeated(m, 0) == attempts;
    } else {
      PushesBalance(box, k - 1, m, attempts, taken);
      PushBalances(PushedTimes(box, k - 1, m), m, attempts + Repeated(m, k - 1), taken);
      assert (attempts + Repeated(m, k - 1)) + [m] == attempts + Repeated(m, k);
    }
  }

  lemma PopBalances(box: Box, attempts: seq<NotificationMessage>, taken: seq<NotificationMessage>)
    requires Balanced(box, attempts, taken) && box.queue != []
    ensures Balanced(Popped(box), attempts, taken + [box.queue[0]])
  {
    assert (taken + [box.queue[0]]) + box.queue[1..] == taken + box.queue;
  }

  /** Main result: in every run and for every mailbox, each attempted message was taken, is waiting or
      was refused; what was taken and what waits are attempted messages in their order; and no more
      than 1000 wait. */
  lemma {:induction false} NothingVanishes(handler: Option<Handler>, events: seq<Event>, n: nat, id: SubscriptionId)
    requires n <= |events|
    ensures Balanced(BoxOf(HubAfter(handler, events, n).ledger.boxes, id), Attempts(handler, events, n, id), Taken(handler, events, n, id))
  {
    if n > 0 {
      NothingVanishes(handler, events, n - 1, id);
      var hub := HubAfter(handler, events, n - 1);
      var box, attempts, taken := BoxOf(hub.ledger.boxes, id), Attempts(handler, events, n - 1, id), Taken(handler, events, n - 1, id);
      match events[n - 1]
      case Enrol(_, _, _) =>
      case Announce(about, cause) =>
        var infos, m := Concerned(hub.subscriptions, |hub.subscriptions|, about, cause), NotificationMessage(about, cause);
        BoxAfterDeliveries(hub.ledger, handler, infos, |infos|, m, id);
        PushesBalance(box, Attempted(hub.subscriptions, about, cause, id), m, attempts, taken);
      case Take(other) =>
        if other == id && box.queue != [] {
          PopBalances(box, attempts, taken);
        }
    }
  }

  /** Everything that a mailbox has ever taken in, in order: what was read and what waits. */
  function TakenIn(handler: Option<Handler>, events: seq<Event>, n: nat, id: SubscriptionId): seq<NotificationMessage>
    requires n <= |events|
  {
    Taken(handler, events, n, id) + BoxOf(HubAfter(handler, events, n).ledger.boxes, id).queue
  }

  /** How many of `k` messages fit beside those that wait. */
  function Room(k: nat, waiting: nat): nat {
    if waiting >= 1000 then 0 else if k <= 1000 - waiting then k else 1000 - waiting
  }

  lemma {:induction false} PushesFillRoom(box: Box, k: nat, m: NotificationMessage)
    ensures PushedTimes(box, k, m).queue == box.queue + Repeated(m, Room(k, |box.queue|))
  {
    if k == 0 {
      assert box.queue + Repeated(m, 0) == box.queue;
    } else {
      PushesFillRoom(box, k - 1, m);
      RepeatedLength(m, Room(k - 1, |box.queue|));
      assert (box.queue + Repeated(m, k - 1)) + [m] == box.queue + Repeated(m, k);
    }
  }

  lemma {:induction false} RepeatedLength<T>(x: T, k: nat)
    ensures |Repeated(x, k)| == k
  {
    if k > 0 {
      RepeatedLength(x, k - 1);
    }
  }

  lemma AnnouncedIsTakenIn(handler: Option<Handler>, hub: Hub, about: Target, cause: NotificationTrigger, id: SubscriptionId)
    ensures var box, k := BoxOf(hub.ledger.boxes, id), Attempted(hub.subscriptions, about, cause, id);
            BoxOf(Stepped(handler, hub, Announce(about, cause)).ledger.boxes, id).queue ==
            box.queue + Repeated(NotificationMessage(about, cause), Room(k, |box.queue|))
  {
    var infos, m := Concerned(hub.subscriptions, |hub.subscriptions|, about, cause), NotificationMessage(about, cause);
    BoxAfterDeliveries(hub.ledger, handler, infos, |infos|, m, id);
    PushesFillRoom(BoxOf(hub.ledger.boxes, id), Attempted(hub.subscriptions, about, cause, id), m);
  }

  /** Main result: a mailbox never gives up a message that it has taken in.  Of the messages of one
      notification it takes in, after all others, as many as there is room for, and refuses the rest. */
  lemma MailboxKeepsWhatItTookIn(handler: Option<Handler>, events: seq<Event>, n: nat, id: SubscriptionId)
    requires n < |events|
    ensures var before, hub := TakenIn(handler, events, n, id), HubAfter(handler, events, n);
            TakenIn(handler, events, n + 1, id) ==
            match events[n]
            case Announce(about, cause) =>
              var k, waiting := Attempted(hub.subscriptions, about, cause, id), |BoxOf(hub.ledger.boxes, id).queue|;
              before + Repeated(NotificationMessage(about, cause), Room(k, waiting))
            case _ => before
  {
    var hub, taken := HubAfter(handler, events, n), Taken(handler, events, n, id);
    var queue := BoxOf(hub.ledger.boxes, id).queue;
    match events[n]
    case Enrol(_, _, _) =>
    case Announce(about, cause) =>
      AnnouncedIsTakenIn(handler, hub, about, cause, id);
      var more := Repeated(NotificationMessage(about, cause), Room(Attempted(hub.subscriptions, about, cause, id), |queue|));
      assert taken + (queue + more) == (taken + queue) + more;
    case Take(other) =>
      if other == id && queue != [] {
        assert (taken + [queue[0]]) + queue[1..] == taken + queue;
      }
  }

  // Failed custom deliveries.

  /** How many of the first `n` subscriptions are for custom delivery of this very notification and are
      answered with a failure. */
  function FailedAmong(handler: Handler, subscriptions: seq<SubscriptionInfo>, n: nat, about: Target, cause: NotificationTrigger): nat
    requires n <= |subscriptions|
  {
    if n == 0 then 0
    else
      var info := subscriptions[n - 1];
      FailedAmong(handler, subscriptions, n - 1, about, cause)
      + (if info.target == about && info.trigger == cause && info.delivery == Custom && !handler(info, NotificationMessage(about, cause))
         then 1 else 0)
  }

  lemma {:induction false} DeliveriesOfPrefix(l: Ledger, handler: Option<Handler>, a: seq<SubscriptionInfo>,
          b: seq<SubscriptionInfo>, n: nat, m: NotificationMessage)
    requires n <= |a| && n <= |b| && forall i :: 0 <= i < n ==> a[i] == b[i]
    ensures AfterDeliveries(l, handler, a, n, m) == AfterDeliveries(l, handler, b, n, m)
  {
    if n > 0 {
      DeliveriesOfPrefix(l, handler, a, b, n - 1, m);
    }
  }

  lemma {:induction false} FailuresOfDeliveries(l: Ledger, handler: Option<Handler>, subscriptions: seq<SubscriptionInfo>,
          n: nat, about: Target, cause: NotificationTrigger)
    requires n <= |subscriptions| && handler.Some?
    ensures var infos := Concerned(subscriptions, n, about, cause);
            AfterDeliveries(l, handler, infos, |infos|, NotificationMessage(about, cause)).failures ==
            l.failures + FailedAmong(handler.value, subscriptions, n, about, cause)
  {
    if n > 0 {
      FailuresOfDeliveries(l, handler, subscriptions, n - 1, about, cause);
      var before, last := Concerned(subscriptions, n - 1, about, cause), subscriptions[n - 1];
      OneMoreDelivery(l, handler, before, last, NotificationMessage(about, cause));
    }
  }

  lemma OneMoreDelivery(l: Ledger, handler: Option<Handler>, infos: seq<SubscriptionInfo>, last: SubscriptionInfo, m: NotificationMessage)
    requires handler.Some?
    ensures AfterDeliveries(l, handler, infos + [last], |infos| + 1, m).failures ==
            AfterDeliveries(l, handler, infos, |infos|, m).failures
            + if last.delivery == Custom && !handler.value(last, m) then 1 else 0
  {
    DeliveriesOfPrefix(l, handler, infos, infos + [last], |infos|, m);
  }

  /** Main result: the failure counter grows by one for each concerned subscription with custom delivery
      whose handler answers that it did not deliver, and not at all without a handler. */
  lemma FailuresAreCounted(l: Ledger, handler: Option<Handler>, subscriptions: seq<SubscriptionInfo>,
          about: Target, cause: NotificationTrigger)
    ensures Notified(l, handler, subscriptions, about, cause).failures ==
            l.failures + if handler.Some? then FailedAmong(handler.value, subscriptions, |subscriptions|, about, cause) else 0
  {
    if handler.Some? {
      FailuresOfDeliveries(l, handler, subscriptions, |subscriptions|, about, cause);
    } else {
      var infos := Concerned(subscriptions, |subscriptions|, about, cause);
      NoHandlerNoFailures(l, infos, |infos|, NotificationMessage(about, cause));
    }
  }

  lemma {:induction false} NoHandlerNoFailures(l: Ledger, infos: seq<SubscriptionInfo>, n: nat, m: NotificationMessage)
    requires n <= |infos|
    ensures AfterDeliveries(l, None, infos, n, m).failures == l.failures
  {
    if n > 0 {
      NoHandlerNoFailures(l, infos, n - 1, m);
    }
  }

  // The manager's counter.

  ghost function TotalRefused(boxes: map<SubscriptionId, Box>): nat {
    if boxes == map[] then 0
    else
      var id :| id in boxes;
      boxes[id].refused + TotalRefused(boxes - {id})
  }

  lemma {:induction false} TotalWithout(boxes: map<SubscriptionId, Box>, id: SubscriptionId)
    requires id in boxes
    ensures TotalRefused(boxes) == boxes[id].refused + TotalRefused(boxes - {id})
    decreases |boxes|
  {
    var first :| first in boxes && TotalRefused(boxes) == boxes[first].refused + TotalRefused(boxes - {first});
    if first != id {
      TotalWithout(boxes - {first}, id);
      TotalWithout(boxes - {id}, first);
      assert boxes - {first} - {id} == boxes - {id} - {first};
    }
  }

  lemma TotalAfterSet(boxes: map<SubscriptionId, Box>, id: SubscriptionId, box: Box)
    ensures TotalRefused(boxes[id := box]) + BoxOf(boxes, id).refused == TotalRefused(boxes) + box.refused
  {
    TotalWithout(boxes[id := box], id);
    if id in boxes {
      TotalWithout(boxes, id);
      assert boxes[id := box] - {id} == boxes - {id};
    } else {
      assert boxes[id := box] - {id} == boxes;
    }
  }

  lemma {:induction false} DeliveriesKeepTotal(l: Ledger, handler: Option<Handler>, infos: seq<SubscriptionInfo>,
          n: nat, m: NotificationMessage)
    requires n <= |infos| && l.refused == TotalRefused(l.boxes)
    ensures var l' := AfterDeliveries(l, handler, infos, n, m); l'.refused == TotalRefused(l'.boxes)
  {
    if n > 0 {
      DeliveriesKeepTotal(l, handler, infos, n - 1, m);
      var before, id := AfterDeliveries(l, handler, infos, n - 1, m), infos[n - 1].id;
      TotalAfterSet(before.boxes, id, Pushed(BoxOf(before.boxes, id), DEFAULT_MAILBOX_SIZE, m));
    }
  }

  ghost predicate Summed(l: Ledger) {
    l.refused == TotalRefused(l.boxes)
  }

  lemma StepKeepsSum(handler: Option<Handler>, hub: Hub, event: Event)
    requires Summed(hub.ledger)
    ensures Summed(Stepped(handler, hub, event).ledger)
  {
    match event
    case Enrol(_, _, _) =>
    case Announce(about, cause) =>
      var infos := Concerned(hub.subscriptions, |hub.subscriptions|, about, cause);
      DeliveriesKeepTotal(hub.ledger, handler, infos, |infos|, NotificationMessage(about, cause));
    case Take(id) =>
      TotalAfterSet(hub.ledger.boxes, id, Popped(BoxOf(hub.ledger.boxes, id)));
  }

  /** Main result: the manager's overflow counter is the sum over all mailboxes. */
  lemma {:induction false} CounterIsSum(handler: Option<Handler>, events: seq<Event>, n: nat)
    requires n <= |events|
    ensures Summed(HubAfter(handler, events, n).ledger)
  {
    if n > 0 {
      CounterIsSum(handler, events, n - 1);
      StepKeepsSum(handler, HubAfter(handler, events, n - 1), events[n - 1]);
    }
  }

  lemma StepKeepsNumbers(handler: Option<Handler>, hub: Hub, event: Event)
    requires Numbered(hub.subscriptions, hub.nextId)
    ensures var hub' := Stepped(handler, hub, event); Numbered(hub'.subscriptions, hub'.nextId)
  {
  }

  lemma {:induction false} RunsNumberInOrder(handler: Option<Handler>, events: seq<Event>, n: nat)
    requires n <= |events|
    ensures var hub := HubAfter(handler, events, n); Numbered(hub.subscriptions, hub.nextId)
  {
    if n > 0 {
      RunsNumberInOrder(handler, events, n - 1);
      StepKeepsNumbers(handler, HubAfter(handler, events, n - 1), events[n - 1]);
    }
  }

  /** Main result: in every run, ids are unique exactly until 2^64 subscriptions have been made. */
  lemma RunsHaveUniqueIds(handler: Option<Handler>, events: seq<Event>, n: nat)
    requires n <= |events|
    ensures var subscriptions := HubAfter(handler, events, n).subscriptions;
            UniqueIds(subscriptions) <==> |subscriptions| <= TWO64
  {
    RunsNumberInOrder(handler, events, n);
    UniqueUntilWrap(HubAfter(handler, events, n).subscriptions, HubAfter(handler, events, n).nextId);
  }
}
