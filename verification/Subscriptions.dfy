/** SubscriptionStore: the numbering of subscriptions and the search for those that a notification concerns. */
module Subscriptions {
  import opened Values

  type SubscriptionId = x: int | 0 <= x < 0x1_0000_0000_0000_0000

  datatype NotificationTrigger = OnChange | Periodic
  datatype DeliveryMethod = Mailbox | Callback | Custom
  datatype SubscriptionInfo = SubscriptionInfo(id: SubscriptionId, target: Target, delivery: DeliveryMethod, trigger: NotificationTrigger)

  predicate Concerns(info: SubscriptionInfo, target: Target, trigger: NotificationTrigger) {
    info.target.kind == target.kind && info.target.id == target.id && info.trigger == trigger
  }

  /** The subscriptions among the first `n` that a notification concerns, in the order of registration. */
  function Concerned(subscriptions: seq<SubscriptionInfo>, n: nat, target: Target, trigger: NotificationTrigger): seq<SubscriptionInfo>
    requires n <= |subscriptions|
  {
    if n == 0 then []
    else
      var before := Concerned(subscriptions, n - 1, target, trigger);
      if Concerns(subscriptions[n - 1], target, trigger) then before + [subscriptions[n - 1]] else before
  }

  /** The first subscription with an id. */
  function FirstWithId(subscriptions: seq<SubscriptionInfo>, id: SubscriptionId): (r: Option<SubscriptionInfo>)
    ensures r == None <==> forall i :: 0 <= i < |subscriptions| ==> subscriptions[i].id != id
    ensures r.Some? ==> r.value.id == id && r.value in subscriptions
  {
    if subscriptions == [] then None
    else if subscriptions[0].id == id then Some(subscriptions[0])
    else FirstWithId(subscriptions[1..], id)
  }

  /** It is the first: none before it has the id. */
  lemma {:induction false} FoundIsFirst(subscriptions: seq<SubscriptionInfo>, id: SubscriptionId) returns (k: nat)
    requires FirstWithId(subscriptions, id).Some?
    ensures k < |subscriptions| && subscriptions[k] == FirstWithId(subscriptions, id).value
    ensures forall j :: 0 <= j < k ==> subscriptions[j].id != id
  {
    if subscriptions[0].id == id {
      k := 0;
    } else {
      var rest := FoundIsFirst(subscriptions[1..], id);
      k := rest + 1;
      assert forall j :: 1 <= j < k ==> subscriptions[j] == subscriptions[1..][j - 1];
    }
  }

  ghost predicate UniqueIds(subscriptions: seq<SubscriptionInfo>) {
    forall i, j :: 0 <= i < j < |subscriptions| ==> subscriptions[i].id != subscriptions[j].id
  }

  class SubscriptionStore {
    var nextId: SubscriptionId
    var subscriptions: seq<SubscriptionInfo>

    constructor ()
      ensures nextId == 1 && subscriptions == []
    {
      nextId, subscriptions := 1, [];
    }

    method CreateSubscriptionId() returns (id: SubscriptionId)
      modifies this`nextId
      ensures id == old(nextId) && nextId == (old(nextId) + 1) % TWO64
    {
      id := nextId;
      nextId := (nextId + 1) % TWO64;
    }

    method Register(info: SubscriptionInfo)
      modifies this`subscriptions
      ensures subscriptions == old(subscriptions) + [info]
    {
      subscriptions := subscriptions + [info];
    }

    method Find(id: SubscriptionId) returns (found: Option<SubscriptionInfo>)
      ensures found == FirstWithId(subscriptions, id)
    {
      for i := 0 to |subscriptions|
        invariant FirstWithId(subscriptions, id) == FirstWithId(subscriptions[i..], id)
      {
        if subscriptions[i].id == id {
          return Some(subscriptions[i]);
        }
        assert subscriptions[i..][1..] == subscriptions[i + 1..];
      }
      return None;
    }

    method GetSubscriptions(target: Target, trigger: NotificationTrigger) returns (r: seq<SubscriptionInfo>)
      ensures r == Concerned(subscriptions, |subscriptions|, target, trigger)
    {
      r := [];
      for i := 0 to |subscriptions|
        invariant r == Concerned(subscriptions, i, target, trigger)
      {
        if subscriptions[i].target.kind != target.kind {
          continue;
        }
        if subscriptions[i].target.id != target.id {
          continue;
        }
        if subscriptions[i].trigger != trigger {
          continue;
        }
        r := r + [subscriptions[i]];
      }
    }

    /** The two calls of every subscription request. */
    method Subscribe(target: Target, delivery: DeliveryMethod, trigger: NotificationTrigger) returns (id: SubscriptionId)
      requires Numbered(subscriptions, nextId)
      modifies this
      ensures Numbered(subscriptions, nextId)
      ensures id == old(nextId) && subscriptions == old(subscriptions) + [SubscriptionInfo(id, target, delivery, trigger)]
    {
      id := CreateSubscriptionId();
      Register(SubscriptionInfo(id, target, delivery, trigger));
    }
  }

  /** Ids are given out in order, from one on, by a 64-bit counter. */
  ghost predicate Numbered(subscriptions: seq<SubscriptionInfo>, nextId: SubscriptionId) {
    && nextId == (|subscriptions| + 1) % TWO64
    && forall i :: 0 <= i < |subscriptions| ==> subscriptions[i].id == (i + 1) % TWO64
  }

  /** Main result: subscriptions have different ids exactly until the counter has wrapped around. */
  lemma UniqueUntilWrap(subscriptions: seq<SubscriptionInfo>, nextId: SubscriptionId)
    requires Numbered(subscriptions, nextId)
    ensures UniqueIds(subscriptions) <==> |subscriptions| <= TWO64
  {
    if |subscriptions| > TWO64 {
      assert subscriptions[0].id == subscriptions[TWO64].id;
    }
  }

  /** Main result: a search finds each concerned subscription, no other, and each as often as it is
      registered. */
  lemma {:induction false} ConcernedExactly(subscriptions: seq<SubscriptionInfo>, n: nat, target: Target,
          trigger: NotificationTrigger, info: SubscriptionInfo)
    requires n <= |subscriptions|
    ensures multiset(Concerned(subscriptions, n, target, trigger))[info] ==
            if info.target == target && info.trigger == trigger then multiset(subscriptions[..n])[info] else 0
  {
    if n > 0 {
      ConcernedExactly(subscriptions, n - 1, target, trigger, info);
      assert subscriptions[..n] == subscriptions[..n - 1] + [subscriptions[n - 1]];
    }
  }

  ghost predicate IdsUpTo(infos: seq<SubscriptionInfo>, n: nat) {
    forall i :: 0 <= i < |infos| ==> infos[i].id <= n
  }

  ghost predicate IdsRise(infos: seq<SubscriptionInfo>) {
    forall i, j :: 0 <= i < j < |infos| ==> infos[i].id < infos[j].id
  }

  /** And it finds them in the order of their ids, until the counter has wrapped around. */
  lemma {:induction false} ConcernedInOrder(subscriptions: seq<SubscriptionInfo>, n: nat, nextId: SubscriptionId,
          target: Target, trigger: NotificationTrigger)
    requires Numbered(subscriptions, nextId) && n <= |subscriptions| < TWO64
    ensures IdsUpTo(Concerned(subscriptions, n, target, trigger), n) && IdsRise(Concerned(subscriptions, n, target, trigger))
  {
    if n > 0 {
      ConcernedInOrder(subscriptions, n - 1, nextId, target, trigger);
      assert subscriptions[n - 1].id == n;
    }
  }
}
