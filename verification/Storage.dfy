/** Partitioned storage: one PartitionStorage per domain, with binary buffers and hashes kept in step. */
module Storage {
  import opened Values
  import Fnv = BinaryHash

  type DomainId = Id
  const INVALID_DOMAIN: DomainId := 0

  // The value of a registry: a partition per domain.

  type Partition = map<Id, RIMValue>
  type Partitions = map<DomainId, Partition>

  function PartitionOf(ps: Partitions, domain: DomainId): Partition {
    if domain in ps then ps[domain] else map[]
  }

  function Find(ps: Partitions, domain: DomainId, id: Id): Option<RIMValue> {
    var partition := PartitionOf(ps, domain);
    if id in partition then Some(partition[id]) else None
  }

  function Put(ps: Partitions, domain: DomainId, id: Id, v: RIMValue): Partitions {
    ps[domain := PartitionOf(ps, domain)[id := v]]
  }

  lemma FindAfterPut(ps: Partitions, domain: DomainId, id: Id, v: RIMValue, domain': DomainId, id': Id)
    ensures Find(Put(ps, domain, id, v), domain', id') ==
            if domain' == domain && id' == id then Some(v) else Find(ps, domain', id')
  {
  }

  /** Creating an empty partition first makes no difference to what is stored in it. */
  lemma PutAfterCreate(ps: Partitions, domain: DomainId, id: Id, v: RIMValue)
    ensures Put(ps[domain := PartitionOf(ps, domain)], domain, id, v) == Put(ps, domain, id, v)
  {
  }

  /** `items` lists the entries of `partition`, each once, in some order. */
  ghost predicate Enumerates(items: seq<RIMDataItem>, partition: Partition) {
    && (forall i, j :: 0 <= i < j < |items| ==> items[i].id != items[j].id)
    && (forall i :: 0 <= i < |items| ==> items[i].id in partition && partition[items[i].id] == items[i].value)
    && (forall id :: id in partition ==> exists i :: 0 <= i < |items| && items[i].id == id)
  }

  datatype BinaryEntry = BinaryEntry(buffer: seq<Byte>, hash: nat)
  datatype BinaryInfo = BinaryInfo(bytes: seq<Byte>, size: nat, hash: nat)

  class PartitionStorage {
    var items: map<Id, RIMDataItem>
    var binaries: map<Id, BinaryEntry>
    ghost var contents: Partition
    ghost const domain: DomainId

    constructor (ghost domain: DomainId)
      ensures InStep() && contents == map[] && this.domain == domain
    {
      items, binaries, contents := map[], map[], map[];
      this.domain := domain;
    }

    ghost predicate InStep()
      reads this
    {
      forall id :: InStepAt(id)
    }

    /** items holds the contents, and binaries holds exactly the ids of the binary items, with the
        same bytes and their hash. */
    ghost predicate InStepAt(id: Id)
      reads this
    {
      && (id in items <==> id in contents)
      && (id in items ==> items[id] == RIMDataItem(id, contents[id]))
      && (id in binaries <==> id in contents && contents[id].BinaryValue?)
      && (id in binaries ==> binaries[id] == BinaryEntry(contents[id].bytes, Fnv.Hash(contents[id].bytes)))
    }

    method Store(item: RIMDataItem)
      requires InStep()
      modifies this
      ensures InStep()
      ensures contents == old(contents)[item.id := item.value]
    {
      if item.value.BinaryValue? {
        var hash := Fnv.CalculateBinaryHash(item.value.bytes);
        binaries := binaries[item.id := BinaryEntry(item.value.bytes, hash)];
      } else {
        binaries := binaries - {item.id};
      }
      items := items[item.id := item];
      contents := contents[item.id := item.value];
      assert forall id :: old(InStepAt(id)) ==> InStepAt(id);
    }

    method Find(id: Id) returns (item: Option<RIMDataItem>)
      requires InStep()
      ensures item == if id in contents then Some(RIMDataItem(id, contents[id])) else None
    {
      assert InStepAt(id);
      item := if id in items then Some(items[id]) else None;
    }

    /** A hash table is walked in an order of its own. */
    method GetAll() returns (result: seq<RIMDataItem>)
      requires InStep()
      ensures Enumerates(result, contents)
    {
      assert forall id :: InStepAt(id) ==> (id in items <==> id in contents);
      assert forall id :: InStepAt(id) && id in items ==> items[id] == RIMDataItem(id, contents[id]);
      result := [];
      var rest := items.Keys;
      while rest != {}
        invariant rest <= items.Keys
        invariant forall i, j :: 0 <= i < j < |result| ==> result[i].id != result[j].id
        invariant forall i :: 0 <= i < |result| ==> result[i].id in items.Keys - rest && items[result[i].id] == result[i]
        invariant forall id :: id in items ==> id in rest || exists i :: 0 <= i < |result| && result[i].id == id
        decreases rest
      {
        var id :| id in rest;
        ghost var before := result;
        result := result + [items[id]];
        rest := rest - {id};
        assert forall k :: 0 <= k < |before| ==> result[k] == before[k];
        assert result[|before|].id == id;
      }
    }

    method GetBinaryInfo(id: Id) returns (info: Option<BinaryInfo>)
      requires InStep()
      ensures info.Some? <==> id in contents && contents[id].BinaryValue?
      ensures info.Some? ==>
                var bytes := contents[id].bytes;
                info.value == BinaryInfo(bytes, |bytes|, Fnv.Hash(bytes))
    {
      assert InStepAt(id);
      if id in binaries {
        info := Some(BinaryInfo(binaries[id].buffer, |binaries[id].buffer|, binaries[id].hash));
      } else {
        info := None;
      }
    }
  }

  class PartitionStorageRegistry {
    var storages: map<DomainId, PartitionStorage>
    ghost var contents: Partitions
    ghost var Repr: set<PartitionStorage>

    constructor ()
      ensures Valid() && Repr == {} && contents == map[]
    {
      storages, contents, Repr := map[], map[], {};
    }

    /** Every domain has a partition object of its own, in step and holding its contents. */
    ghost predicate Valid()
      reads this, Repr
    {
      storages.Keys == contents.Keys && forall d :: d in storages ==> HeldAt(d)
    }

    ghost predicate HeldAt(d: DomainId)
      requires d in storages && storages.Keys == contents.Keys
      reads this, Repr
    {
      storages[d] in Repr && storages[d].domain == d && storages[d].InStep() && storages[d].contents == contents[d]
    }

    method GetOrCreate(domain: DomainId) returns (storage: PartitionStorage)
      requires Valid()
      modifies this
      ensures Valid() && fresh(Repr - old(Repr)) && old(Repr) <= Repr
      ensures domain in storages && storages[domain] == storage
      ensures HeldAt(domain)
      ensures contents == old(contents)[domain := PartitionOf(old(contents), domain)]
    {
      if domain in storages {
        storage := storages[domain];
      } else {
        storage := new PartitionStorage(domain);
        storages := storages[domain := storage];
        contents := contents[domain := map[]];
        Repr := Repr + {storage};
      }
    }

    method Find(domain: DomainId) returns (storage: PartitionStorage?)
      requires Valid()
      ensures storage == null <==> domain !in contents
      ensures storage != null ==> domain in storages && storage == storages[domain] && HeldAt(domain)
    {
      storage := if domain in storages then storages[domain] else null;
    }

    /** `GetOrCreate(domain).Store(item)`. */
    method StoreIn(domain: DomainId, item: RIMDataItem)
      requires Valid()
      modifies this, Repr
      ensures Valid() && fresh(Repr - old(Repr)) && old(Repr) <= Repr
      ensures contents == Put(old(contents), domain, item.id, item.value)
    {
      var storage := GetOrCreate(domain);
      PutAfterCreate(old(contents), domain, item.id, item.value);
      StoreThrough(domain, storage, item);
    }

    /** `storage.Store(item)` on the partition that serves `domain`. */
    method StoreThrough(domain: DomainId, storage: PartitionStorage, item: RIMDataItem)
      requires Valid() && domain in storages && storages[domain] == storage
      modifies this`contents, storage
      ensures Valid()
      ensures contents == Put(old(contents), domain, item.id, item.value)
    {
      contents := Put(contents, domain, item.id, item.value);
      storage.Store(item);
      assert forall d :: d in storages && d != domain ==> storages[d] != storage;
    }
  }
}
