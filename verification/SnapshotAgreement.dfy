/** A capability's snapshot shows, for every required id, exactly what that id's own partition holds. */
module SnapshotAgreement {
  import opened Values
  import opened Product
  import opened Storage
  import opened Context
  import opened Partitioning
  import opened Snapshots

  /** A partition numbered for data holds only data items of that number. */
  ghost predicate Tidy(p: ProductDefinition, ps: Partitions) {
    forall u, id :: TidyFor(p, ps, u, id)
  }

  ghost predicate TidyFor(p: ProductDefinition, ps: Partitions, u: Target, id: Id) {
    Defined(p, u) && u.kind == Data && id in PartitionOf(ps, DomainOf(p, u)) ==>
      Defined(p, Target(Data, id)) && DataDomainId(p, id) == DomainOf(p, u)
  }

  lemma TidyAt(p: ProductDefinition, ps: Partitions, u: Target, id: Id)
    requires Tidy(p, ps) && Defined(p, u) && u.kind == Data && id in PartitionOf(ps, DomainOf(p, u))
    ensures DataDomainId(p, id) == DomainOf(p, u)
  {
    assert TidyFor(p, ps, u, id);
  }

  lemma EmptyIsTidy(p: ProductDefinition)
    ensures Tidy(p, map[])
  {
  }

  lemma SetKeepsTidy(p: ProductDefinition, ps: Partitions, t: Target, v: RIMValue)
    requires Separated(p) && Defined(p, t) && Tidy(p, ps)
    ensures Tidy(p, Set(p, ps, t, v))
  {
    var ps' := Set(p, ps, t, v);
    forall u, id ensures TidyFor(p, ps', u, id) {
      assert TidyFor(p, ps, u, id) && Apart(p, t, u);
    }
  }

  // The de-duplicated cover.

  lemma {:induction false} CoverOfOne(p: ProductDefinition, n: nat, i: nat)
    requires n <= |p.capabilities| && i < |p.capabilities| && Distinct(p.capabilities, DerivedId)
    ensures RequiredDomainsIn(p.dataItems, p.capabilities, n, p.capabilities[i].id) ==
            if i < n then DomainCover(p.dataItems, [], p.capabilities[i].required, |p.capabilities[i].required|) else []
  {
    if n != 0 {
      CoverOfOne(p, n - 1, i);
      if i != n - 1 {
        assert DerivedId(p.capabilities[i]) != DerivedId(p.capabilities[n - 1]);
      }
    }
  }

  ghost predicate IsCover(p: ProductDefinition, ds: seq<DomainId>, ids: seq<Id>) {
    && (forall i, j :: 0 <= i < j < |ds| ==> ds[i] != ds[j])
    && (forall id :: id in ids && DataDomainId(p, id) != INVALID_DOMAIN ==> DataDomainId(p, id) in ds)
    && (forall i :: 0 <= i < |ds| ==> IsDomainOfSome(p, ds[i], ids))
  }

  ghost predicate IsDomainOfSome(p: ProductDefinition, d: DomainId, ids: seq<Id>) {
    d != INVALID_DOMAIN && exists id :: id in ids && DataDomainId(p, id) == d
  }

  lemma {:induction false} CoverIsCover(p: ProductDefinition, ids: seq<Id>, n: nat)
    requires n <= |ids|
    ensures IsCover(p, DomainCover(p.dataItems, [], ids, n), ids[..n])
  {
    if n != 0 {
      CoverIsCover(p, ids, n - 1);
      assert ids[..n] == ids[..n - 1] + [ids[n - 1]];
      var before := DomainCover(p.dataItems, [], ids, n - 1);
      var after := DomainCover(p.dataItems, [], ids, n);
      forall i | 0 <= i < |after| ensures IsDomainOfSome(p, after[i], ids[..n]) {
        if i < |before| {
          assert IsDomainOfSome(p, before[i], ids[..n - 1]);
        } else {
          assert ids[n - 1] in ids[..n] && DataDomainId(p, ids[n - 1]) == after[i];
        }
      }
    }
  }

  // What concatenated partitions show.

  ghost predicate HeldIn(ps: Partitions, domains: seq<DomainId>, n: nat, item: RIMDataItem)
    requires n <= |domains|
  {
    exists i :: 0 <= i < n && item.id in PartitionOf(ps, domains[i]) && PartitionOf(ps, domains[i])[item.id] == item.value
  }

  lemma {:induction false} ConcatenationSound(s: RIMSnapshot, ps: Partitions, domains: seq<DomainId>, n: nat, j: nat)
    requires n <= |domains| && Concatenates(s, ps, domains, n) && j < |s|
    ensures HeldIn(ps, domains, n, s[j])
    decreases n
  {
    var k :| 0 <= k <= |s| && Splits(s, k, ps, domains, n);
    if j < k {
      ConcatenationSound(s[..k], ps, domains, n - 1, j);
    } else {
      assert s[k..][j - k] == s[j];
    }
  }

  lemma {:induction false} ConcatenationComplete(s: RIMSnapshot, ps: Partitions, domains: seq<DomainId>, n: nat, i: nat, id: Id)
    returns (j: nat)
    requires n <= |domains| && Concatenates(s, ps, domains, n)
    requires i < n && id in PartitionOf(ps, domains[i])
    ensures j < |s| && s[j] == RIMDataItem(id, PartitionOf(ps, domains[i])[id])
    decreases n
  {
    var k :| 0 <= k <= |s| && Splits(s, k, ps, domains, n);
    if i < n - 1 {
      j := ConcatenationComplete(s[..k], ps, domains, n - 1, i, id);
    } else {
      var m :| 0 <= m < |s[k..]| && s[k..][m].id == id;
      j := k + m;
    }
  }

  ghost predicate SharesNoId(ps: Partitions, domains: seq<DomainId>) {
    forall i, j, id :: 0 <= i < j < |domains| && id in PartitionOf(ps, domains[i]) ==> id !in PartitionOf(ps, domains[j])
  }

  ghost predicate EachIdOnce(s: RIMSnapshot) {
    forall i, j :: 0 <= i < j < |s| ==> s[i].id != s[j].id
  }

  lemma {:induction false} ConcatenationOnce(s: RIMSnapshot, ps: Partitions, domains: seq<DomainId>, n: nat)
    requires n <= |domains| && Concatenates(s, ps, domains, n) && SharesNoId(ps, domains)
    ensures EachIdOnce(s)
    decreases n
  {
    if n != 0 {
      var k :| 0 <= k <= |s| && Splits(s, k, ps, domains, n);
      ConcatenationOnce(s[..k], ps, domains, n - 1);
      forall i, j | 0 <= i < j < |s| ensures s[i].id != s[j].id {
        if i < k <= j {
          ConcatenationSound(s[..k], ps, domains, n - 1, i);
          assert s[k..][j - k] == s[j];
        } else if k <= i {
          assert s[k..][i - k] == s[i] && s[k..][j - k] == s[j];
        } else {
          assert s[..k][i] == s[i] && s[..k][j] == s[j];
        }
      }
    }
  }

  lemma FindUnique(s: RIMSnapshot, j: nat)
    requires EachIdOnce(s) && j < |s|
    ensures FindIn(s, s[j].id) == Some(s[j].value)
  {
    var k := IndexWith(s, ItemId, s[j].id);
    assert ItemId(s[j]) == s[j].id;
    assert ItemId(s[k]) == s[j].id;
  }

  // The two together.

  lemma CoverSharesNoId(p: ProductDefinition, ps: Partitions, ds: seq<DomainId>, ids: seq<Id>)
    requires Tidy(p, ps) && IsCover(p, ds, ids)
    requires forall id :: id in ids ==> Defined(p, Target(Data, id))
    ensures SharesNoId(ps, ds)
  {
    forall i, j, id | 0 <= i < j < |ds| && id in PartitionOf(ps, ds[i])
      ensures id !in PartitionOf(ps, ds[j])
    {
      assert IsDomainOfSome(p, ds[i], ids) && IsDomainOfSome(p, ds[j], ids);
      var a :| a in ids && DataDomainId(p, a) == ds[i];
      var b :| b in ids && DataDomainId(p, b) == ds[j];
      assert TidyFor(p, ps, Target(Data, a), id) && TidyFor(p, ps, Target(Data, b), id);
    }
  }

  /** Main result: a snapshot over a cover of the ids holds each stored item of those partitions once
      and finds every id exactly as its own partition does. */
  lemma CoverSnapshotAgrees(p: ProductDefinition, ps: Partitions, ds: seq<DomainId>, ids: seq<Id>, s: RIMSnapshot)
    requires Separated(p) && Tidy(p, ps) && IsCover(p, ds, ids)
    requires forall id :: id in ids ==> Defined(p, Target(Data, id))
    requires Concatenates(s, ps, ds, |ds|)
    ensures EachIdOnce(s)
    ensures forall id :: id in ids ==> FindIn(s, id) == Get(p, ps, Target(Data, id))
  {
    CoverSharesNoId(p, ps, ds, ids);
    ConcatenationOnce(s, ps, ds, |ds|);
    forall id | id in ids ensures FindIn(s, id) == Get(p, ps, Target(Data, id)) {
      var d := DataDomainId(p, id);
      assert Apart(p, Target(Data, id), Target(Data, id));
      assert Defined(p, Target(Data, id)) && DomainOf(p, Target(Data, id)) == d;
      var i :| 0 <= i < |ds| && ds[i] == d;
      if id in PartitionOf(ps, d) {
        var j := ConcatenationComplete(s, ps, ds, |ds|, i, id);
        FindUnique(s, j);
      } else {
        AbsentIsNotFound(p, ps, ds, s, id);
      }
    }
  }

  lemma AbsentIsNotFound(p: ProductDefinition, ps: Partitions, ds: seq<DomainId>, s: RIMSnapshot, id: Id)
    requires Tidy(p, ps) && Concatenates(s, ps, ds, |ds|)
    requires id !in PartitionOf(ps, DataDomainId(p, id))
    requires forall i :: 0 <= i < |ds| ==> exists u :: Defined(p, u) && u.kind == Data && DomainOf(p, u) == ds[i]
    ensures FindIn(s, id) == None
  {
    var k := IndexWith(s, ItemId, id);
    if k < |s| {
      assert ItemId(s[k]) == id;
      ConcatenationSound(s, ps, ds, |ds|, k);
      var i :| 0 <= i < |ds| && s[k].id in PartitionOf(ps, ds[i]);
      var u :| Defined(p, u) && u.kind == Data && DomainOf(p, u) == ds[i];
      TidyAt(p, ps, u, id);
    }
  }

  /** The domains that the context computes for a capability cover what it requires. */
  lemma CapabilityCover(p: ProductDefinition, c: DerivedDefinition)
    requires Valid(p) && c in p.capabilities
    ensures IsCover(p, RequiredDomains(p, c.id), c.required)
    ensures forall id :: id in c.required ==> Defined(p, Target(Data, id))
  {
    assert Meets(p, CapabilityIdsDiffer) && Meets(p, RequiredDataKnown);
    var i :| 0 <= i < |p.capabilities| && p.capabilities[i] == c;
    CoverOfOne(p, |p.capabilities|, i);
    CoverIsCover(p, c.required, |c.required|);
    assert c.required[..|c.required|] == c.required;
    forall id | id in c.required ensures Defined(p, Target(Data, id)) {
      assert AllDefined(p.dataItems, DataItemId, p.capabilities[i].required);
    }
  }

  /** Main result, for those domains. */
  lemma CapabilitySnapshotAgrees(p: ProductDefinition, ps: Partitions, c: DerivedDefinition, s: RIMSnapshot)
    requires Valid(p) && Separated(p) && Tidy(p, ps) && c in p.capabilities
    requires Concatenates(s, ps, RequiredDomains(p, c.id), |RequiredDomains(p, c.id)|)
    ensures EachIdOnce(s)
    ensures forall id :: id in c.required ==> FindIn(s, id) == Get(p, ps, Target(Data, id))
  {
    CapabilityCover(p, c);
    CoverSnapshotAgrees(p, ps, RequiredDomains(p, c.id), c.required, s);
  }
}
