/** The earlier snapshot storage: a ring of sixteen snapshots looked up by access id. */
module SnapshotRing {
  import opened Values
  import opened Product

  const MAX_SNAPSHOTS: nat := 16

  type AccessId = x: int | 0 <= x < 0x1_0000_0000_0000_0000

  datatype Entry = Entry(id: AccessId, snapshot: RIMSnapshot)

  /** The id of the k-th snapshot ever stored, counted from one. */
  function IdOf(k: nat): AccessId { k % TWO64 }

  /** The slot of the k-th snapshot. */
  function SlotOf(k: int): nat { (k - 1) % MAX_SNAPSHOTS }

  /** The snapshots still held after `n` were stored. */
  predicate Held(n: nat, k: int) {
    1 <= k <= n < k + MAX_SNAPSHOTS
  }

  /** The snapshot held in a slot. */
  function HeldIn(n: nat, slot: nat): int
    requires slot < MAX_SNAPSHOTS
  {
    n - (n - 1 - slot) % MAX_SNAPSHOTS
  }

  /** Slots and held snapshots correspond one to one. */
  lemma SlotsAreHeld(n: nat, slot: nat)
    requires slot < MAX_SNAPSHOTS && slot < n
    ensures Held(n, HeldIn(n, slot)) && SlotOf(HeldIn(n, slot)) == slot
  {
  }

  lemma HeldAreInSlots(n: nat, k: int)
    requires Held(n, k)
    ensures SlotOf(k) < (if n < MAX_SNAPSHOTS then n else MAX_SNAPSHOTS) && HeldIn(n, SlotOf(k)) == k
  {
  }

  function Incremented(id: AccessId): AccessId { (id + 1) % TWO64 }

  function NextSlot(slot: nat): nat { (slot + 1) % MAX_SNAPSHOTS }

  lemma IdAdvances(n: nat)
    ensures Incremented(IdOf(n)) == IdOf(n + 1)
  {
  }

  lemma SlotAdvances(n: nat)
    ensures NextSlot(n % MAX_SNAPSHOTS) == (n + 1) % MAX_SNAPSHOTS
  {
  }

  class SnapshotStorage {
    const snapshots: array<Entry>
    var nextId: AccessId
    var writeIndex: nat
    var count: nat
    ghost var stored: seq<RIMSnapshot>

    constructor ()
      ensures Valid() && stored == [] && fresh(snapshots)
    {
      snapshots := new Entry[MAX_SNAPSHOTS](_ => Entry(0, []));
      nextId, writeIndex, count, stored := 1, 0, 0, [];
    }

    ghost predicate Valid()
      reads this, snapshots
    {
      && snapshots.Length == MAX_SNAPSHOTS
      && nextId == IdOf(|stored| + 1)
      && writeIndex == |stored| % MAX_SNAPSHOTS
      && count == (if |stored| < MAX_SNAPSHOTS then |stored| else MAX_SNAPSHOTS)
      && forall slot :: 0 <= slot < count ==> HoldsAt(slot)
    }

    ghost predicate HoldsAt(slot: nat)
      requires slot < snapshots.Length && slot < MAX_SNAPSHOTS
      reads this, snapshots
    {
      var k := HeldIn(|stored|, slot);
      1 <= k <= |stored| && snapshots[slot] == Entry(IdOf(k), stored[k - 1])
    }

    method Store(snapshot: RIMSnapshot) returns (id: AccessId)
      requires Valid()
      modifies this, snapshots
      ensures Valid() && stored == old(stored) + [snapshot] && id == IdOf(|stored|)
    {
      IdAdvances(|stored| + 1);
      SlotAdvances(|stored|);
      id := nextId;
      nextId := Incremented(nextId);
      snapshots[writeIndex] := Entry(id, snapshot);
      ghost var written := writeIndex;
      writeIndex := NextSlot(writeIndex);
      if count < MAX_SNAPSHOTS {
        count := count + 1;
      }
      stored := stored + [snapshot];
      forall slot | 0 <= slot < count ensures HoldsAt(slot) {
        SlotAfterStore(|old(stored)|, slot);
        if slot != written {
          assert old(HoldsAt(slot));
          assert stored[HeldIn(|stored|, slot) - 1] == old(stored)[HeldIn(|stored|, slot) - 1];
        }
      }
    }

    /** The ids of the snapshots still held, and no others, are found. */
    method TryGet(id: AccessId) returns (snapshot: Option<RIMSnapshot>)
      requires Valid()
      ensures snapshot.None? ==> forall k :: Held(|stored|, k) ==> IdOf(k) != id
      ensures snapshot.Some? ==> exists k :: Held(|stored|, k) && IdOf(k) == id && snapshot.value == stored[k - 1]
    {
      for i := 0 to count
        invariant forall j :: 0 <= j < i ==> snapshots[j].id != id
      {
        if snapshots[i].id == id {
          assert HoldsAt(i);
          SlotsAreHeld(|stored|, i);
          return Some(snapshots[i].snapshot);
        }
      }
      forall k | Held(|stored|, k) ensures IdOf(k) != id {
        HeldAreInSlots(|stored|, k);
        assert HoldsAt(SlotOf(k));
      }
      return None;
    }

    method GetCount() returns (n: nat)
      requires Valid()
      ensures n == if |stored| < MAX_SNAPSHOTS then |stored| else MAX_SNAPSHOTS
    {
      n := count;
    }
  }

  lemma SlotAfterStore(n: nat, slot: nat)
    requires slot < MAX_SNAPSHOTS
    ensures HeldIn(n + 1, slot) == if slot == n % MAX_SNAPSHOTS then n + 1 else HeldIn(n, slot)
  {
  }

  /** Main result: as long as the counter has not wrapped, the ids found after `n` stores are exactly
      max(1, n - 15) to n, each standing for one snapshot. */
  lemma FoundExactly(n: nat, id: AccessId)
    requires n < TWO64
    ensures (exists k :: Held(n, k) && IdOf(k) == id) <==> (if n <= 15 then 1 else n - 15) <= id <= n
    ensures forall k :: Held(n, k) && IdOf(k) == id ==> k == id
  {
    if (if n <= 15 then 1 else n - 15) <= id <= n {
      assert Held(n, id) && IdOf(id) == id;
    }
  }

  /** Even beyond that, no two snapshots held share an id. */
  lemma HeldIdsDiffer(n: nat, j: int, k: int)
    requires Held(n, j) && Held(n, k) && IdOf(j) == IdOf(k)
    ensures j == k
  {
    var a, b := j / TWO64, k / TWO64;
    assert j - k == (a - b) * TWO64;
  }
}
