/** Bounded mailboxes and the fan-out of a notification to its subscribers. */
module Delivery {
  import opened Values
  import opened Queues
  import opened Subscriptions

  datatype NotificationMessage = NotificationMessage(target: Target, trigger: NotificationTrigger)
  datatype CallbackNotification = CallbackNotification(subscriptionId: SubscriptionId, target: Target, trigger: NotificationTrigger)

  /** The value of a mailbox: what waits in it and how many messages it has refused. */
  datatype Box = Box(queue: seq<NotificationMessage>, refused: nat)

  const DEFAULT_MAILBOX_SIZE: nat := 1000

  function Pushed(box: Box, maxSize: nat, m: NotificationMessage): Box {
    if |box.queue| >= maxSize then box.(refused := box.refused + 1) else box.(queue := box.queue + [m])
  }

  function Popped(box: Box): Box {
    if box.queue == [] then box else box.(queue := box.queue[1..])
  }

  /** A count as a 64-bit counter holds it. */
  function Counter(n: nat): UInt64 { n % TWO64 }

  function Incremented(counter: UInt64): UInt64 { (counter + 1) % TWO64 }

  lemma CounterCounts(n: nat)
    ensures Incremented(Counter(n)) == Counter(n + 1)
  {
  }

  class SubscriberMailbox {
    const maxSize: nat
    var notificationQueue: seq<NotificationMessage>
    var overflowCount: UInt64
    ghost var contents: Box
    ghost const owner: SubscriptionId

    constructor (ghost owner: SubscriptionId, maxSize: nat := DEFAULT_MAILBOX_SIZE)
      ensures Valid() && contents == Box([], 0) && this.maxSize == maxSize && this.owner == owner
    {
      this.owner, this.maxSize := owner, maxSize;
      notificationQueue, overflowCount := [], 0;
      contents := Box([], 0);
    }

    /** The counter is the number of refused messages in 64 bits, and the queue fits the mailbox. */
    ghost predicate Valid()
      reads this
    {
      notificationQueue == contents.queue && overflowCount == Counter(contents.refused) && |notificationQueue| <= maxSize
    }

    method Push(message: NotificationMessage) returns (accepted: bool)
      requires Valid()
      modifies this
      ensures Valid() && contents == Pushed(old(contents), maxSize, message)
      ensures accepted == (|old(contents).queue| < maxSize)
    {
      contents := Pushed(contents, maxSize, message);
      if |notificationQueue| >= maxSize {
        CounterCounts(old(contents).refused);
        overflowCount := Incremented(overflowCount);
        return false;
      }
      notificationQueue := notificationQueue + [message];
      return true;
    }

    method Pop() returns (message: Option<NotificationMessage>)
      requires Valid()
      modifies this
      ensures Valid() && contents == Popped(old(contents))
      ensures message == if old(contents).queue == [] then None else Some(old(contents).queue[0])
    {
      contents := Popped(contents);
      if notificationQueue == [] {
        return None;
      }
      message := Some(notificationQueue[0]);
      notificationQueue := notificationQueue[1..];
    }

    /** The cast to 32 bits loses nothing as long as the capacity fits. */
    method Count() returns (count: UInt32)
      requires Valid()
      ensures count == |contents.queue| % TWO32
      ensures maxSize < TWO32 ==> count == |contents.queue|
    {
      count := |notificationQueue| % TWO32;
    }
  }

  function BoxOf(boxes: map<SubscriptionId, Box>, id: SubscriptionId): Box {
    if id in boxes then boxes[id] else Box([], 0)
  }

  function PushedTo(boxes: map<SubscriptionId, Box>, id: SubscriptionId, m: NotificationMessage): map<SubscriptionId, Box> {
    boxes[id := Pushed(BoxOf(boxes, id), DEFAULT_MAILBOX_SIZE, m)]
  }

  lemma LastAssignmentWins(boxes: map<SubscriptionId, Box>, id: SubscriptionId, first: Box, second: Box)
    ensures boxes[id := first][id := second] == boxes[id := second]
  {
  }

  class SubscriberMailboxManager {
    var mailboxes: map<SubscriptionId, SubscriberMailbox>
    ghost var boxes: map<SubscriptionId, Box>
    ghost var Repr: set<SubscriberMailbox>

    constructor ()
      ensures Valid() && boxes == map[] && Repr == {}
    {
      mailboxes, boxes, Repr := map[], map[], {};
    }

    ghost predicate Valid()
      reads this, Repr
    {
      mailboxes.Keys == boxes.Keys && forall id :: id in mailboxes ==> HeldAt(id)
    }

    ghost predicate HeldAt(id: SubscriptionId)
      requires id in mailboxes && mailboxes.Keys == boxes.Keys
      reads this, Repr
    {
      var mailbox := mailboxes[id];
      && mailbox in Repr && mailbox.owner == id && mailbox.maxSize == DEFAULT_MAILBOX_SIZE
      && mailbox.Valid() && mailbox.contents == boxes[id]
    }

    /** An unknown id gets a new mailbox of the default size. */
    method GetMailbox(id: SubscriptionId) returns (mailbox: SubscriberMailbox)
      requires Valid()
      modifies this
      ensures Valid() && fresh(Repr - old(Repr)) && old(Repr) <= Repr
      ensures id in mailboxes && mailboxes[id] == mailbox && HeldAt(id)
      ensures boxes == old(boxes)[id := BoxOf(old(boxes), id)]
    {
      if id in mailboxes {
        mailbox := mailboxes[id];
      } else {
        mailbox := new SubscriberMailbox(id);
        mailboxes := mailboxes[id := mailbox];
        boxes := boxes[id := Box([], 0)];
        Repr := Repr + {mailbox};
      }
    }

    /** `GetMailbox(id).Push(message)`. */
    method PushTo(id: SubscriptionId, message: NotificationMessage) returns (delivered: bool)
      requires Valid()
      modifies this, Repr
      ensures Valid() && fresh(Repr - old(Repr))
      ensures boxes == PushedTo(old(boxes), id, message)
      ensures delivered == (|BoxOf(old(boxes), id).queue| < DEFAULT_MAILBOX_SIZE)
    {
      var mailbox := GetMailbox(id);
      delivered := PushThrough(id, mailbox, message);
      LastAssignmentWins(old(boxes), id, BoxOf(old(boxes), id), boxes[id]);
    }

    method PushThrough(id: SubscriptionId, mailbox: SubscriberMailbox, message: NotificationMessage) returns (delivered: bool)
      requires Valid() && id in mailboxes && mailboxes[id] == mailbox
      modifies this`boxes, mailbox
      ensures Valid()
      ensures boxes == old(boxes)[id := Pushed(old(boxes)[id], DEFAULT_MAILBOX_SIZE, message)]
      ensures delivered == (|old(boxes)[id].queue| < DEFAULT_MAILBOX_SIZE)
    {
      assert HeldAt(id);
      delivered := mailbox.Push(message);
      boxes := boxes[id := mailbox.contents];
      forall k | k in mailboxes ensures HeldAt(k) {
        assert old(HeldAt(k)) && old(HeldAt(id));
      }
    }

    /** NotificationReceiver::TryGetNotification: `GetMailbox(id).Pop(message)`. */
    method TryGetNotification(id: SubscriptionId) returns (message: Option<NotificationMessage>)
      requires Valid()
      modifies this, Repr
      ensures Valid() && fresh(Repr - old(Repr))
      ensures boxes == old(boxes)[id := Popped(BoxOf(old(boxes), id))]
      ensures var queue := BoxOf(old(boxes), id).queue;
              message == if queue == [] then None else Some(queue[0])
    {
      var mailbox := GetMailbox(id);
      message := PopThrough(id, mailbox);
      LastAssignmentWins(old(boxes), id, BoxOf(old(boxes), id), boxes[id]);
    }

    method PopThrough(id: SubscriptionId, mailbox: SubscriberMailbox) returns (message: Option<NotificationMessage>)
      requires Valid() && id in mailboxes && mailboxes[id] == mailbox
      modifies this`boxes, mailbox
      ensures Valid()
      ensures boxes == old(boxes)[id := Popped(old(boxes)[id])]
      ensures message == if old(boxes)[id].queue == [] then None else Some(old(boxes)[id].queue[0])
    {
      assert HeldAt(id);
      message := mailbox.Pop();
      boxes := boxes[id := mailbox.contents];
      forall k | k in mailboxes ensures HeldAt(k) {
        assert old(HeldAt(k)) && old(HeldAt(id));
      }
    }
  }

  /** A custom delivery handler answers whether it delivered. */
  type Handler = (SubscriptionInfo, NotificationMessage) -> bool

  /** A message given to the custom handler on behalf of a subscription. */
  datatype Handover = Handover(subscriptionId: SubscriptionId, message: NotificationMessage)

  /** Everything that a notification can change, and what it handed over. */
  datatype Ledger = Ledger(
    boxes: map<SubscriptionId, Box>, refused: nat, callbacks: seq<CallbackNotification>, callbacksShut: bool,
    handed: seq<Handover>, failures: nat)

  const EMPTY_LEDGER := Ledger(map[], 0, [], false, [], 0)

  function Delivered(l: Ledger, handler: Option<Handler>, info: SubscriptionInfo, m: NotificationMessage): Ledger {
    match info.delivery
    case Mailbox =>
      l.(boxes := PushedTo(l.boxes, info.id, m),
         refused := if |BoxOf(l.boxes, info.id).queue| < DEFAULT_MAILBOX_SIZE then l.refused else l.refused + 1)
    case Callback =>
      if l.callbacksShut then l else l.(callbacks := l.callbacks + [CallbackNotification(info.id, m.target, m.trigger)])
    case Custom =>
      if handler.None? then l
      else
        l.(handed := l.handed + [Handover(info.id, m)],
           failures := if handler.value(info, m) then l.failures else l.failures + 1)
  }

  function AfterDeliveries(l: Ledger, handler: Option<Handler>, infos: seq<SubscriptionInfo>, n: nat, m: NotificationMessage): Ledger
    requires n <= |infos|
  {
    if n == 0 then l else Delivered(AfterDeliveries(l, handler, infos, n - 1, m), handler, infos[n - 1], m)
  }

  function Notified(l: Ledger, handler: Option<Handler>, subscriptions: seq<SubscriptionInfo>, target: Target,
          trigger: NotificationTrigger): Ledger {
    var infos := Concerned(subscriptions, |subscriptions|, target, trigger);
    AfterDeliveries(l, handler, infos, |infos|, NotificationMessage(target, trigger))
  }

  class ChangeNotifyManager {
    const store: SubscriptionStore
    const mailboxManager: SubscriberMailboxManager
    const callbackQueue: EventQueue<CallbackNotification>
    var customHandler: Option<Handler>
    var mailboxOverflowCount: UInt64
    var customDeliveryFailureCount: UInt64
    ghost var refused: nat
    ghost var failures: nat
    ghost var handed: seq<Handover>

    constructor (store: SubscriptionStore, mailboxManager: SubscriberMailboxManager, callbackQueue: EventQueue<CallbackNotification>)
      requires mailboxManager.Valid() && callbackQueue.policy == Fifo
      ensures this.store == store && this.mailboxManager == mailboxManager && this.callbackQueue == callbackQueue
      ensures Valid() && customHandler == None && refused == 0 && failures == 0 && handed == []
    {
      this.store, this.mailboxManager, this.callbackQueue := store, mailboxManager, callbackQueue;
      customHandler, mailboxOverflowCount, customDeliveryFailureCount, refused, failures, handed := None, 0, 0, 0, 0, [];
    }

    ghost predicate Valid()
      reads this, mailboxManager, mailboxManager.Repr
    {
      && mailboxManager.Valid() && callbackQueue.policy == Fifo
      && mailboxOverflowCount == Counter(refused) && customDeliveryFailureCount == Counter(failures)
    }

    ghost function Now(): Ledger
      reads this, mailboxManager, callbackQueue
    {
      Ledger(mailboxManager.boxes, refused, callbackQueue.events, callbackQueue.shutdown, handed, failures)
    }

    method Notify(target: Target, trigger: NotificationTrigger)
      requires Valid()
      modifies this`mailboxOverflowCount, this`customDeliveryFailureCount, this`refused, this`failures, this`handed
      modifies mailboxManager, mailboxManager.Repr, callbackQueue`events
      ensures Valid() && fresh(mailboxManager.Repr - old(mailboxManager.Repr))
      ensures Now() == Notified(old(Now()), customHandler, store.subscriptions, target, trigger)
    {
      var infos := store.GetSubscriptions(target, trigger);
      ghost var start := Now();
      for i := 0 to |infos|
        invariant Valid() && fresh(mailboxManager.Repr - old(mailboxManager.Repr))
        invariant Now() == AfterDeliveries(start, customHandler, infos, i, NotificationMessage(target, trigger))
      {
        Deliver(infos[i], NotificationMessage(target, trigger));
      }
    }

    /** One round of the loop. */
    method Deliver(info: SubscriptionInfo, message: NotificationMessage)
      requires Valid()
      modifies this`mailboxOverflowCount, this`customDeliveryFailureCount, this`refused, this`failures, this`handed
      modifies mailboxManager, mailboxManager.Repr, callbackQueue`events
      ensures Valid() && fresh(mailboxManager.Repr - old(mailboxManager.Repr))
      ensures Now() == Delivered(old(Now()), customHandler, info, message)
    {
      if info.delivery == Mailbox {
        var delivered := mailboxManager.PushTo(info.id, message);
        if !delivered {
          CounterCounts(refused);
          mailboxOverflowCount := Incremented(mailboxOverflowCount);
          refused := refused + 1;
        }
      } else if info.delivery == Callback {
        var _ := callbackQueue.Push(CallbackNotification(info.id, message.target, message.trigger));
      } else if info.delivery == Custom {
        HandOver(info, message);
      }
    }

    /** The branch for custom delivery, which does nothing while no handler is set. */
    method HandOver(info: SubscriptionInfo, message: NotificationMessage)
      requires Valid() && info.delivery == Custom
      modifies this`customDeliveryFailureCount, this`failures, this`handed
      ensures Valid() && Now() == Delivered(old(Now()), customHandler, info, message)
    {
      if customHandler.Some? {
        var delivered := customHandler.value(info, message);
        handed := handed + [Handover(info.id, message)];
        if !delivered {
          CounterCounts(failures);
          customDeliveryFailureCount := Incremented(customDeliveryFailureCount);
          failures := failures + 1;
        }
      }
    }
  }
}
