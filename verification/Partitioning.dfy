/** When the numbers given to data, capability and facade partitions keep the three kinds apart. */
module Partitioning {
  import opened Values
  import opened Queues
  import opened Product
  import opened Storage
  import opened Context

  ghost predicate Defined(p: ProductDefinition, t: Target) {
    match t.kind
    case Data => FindDataItem(p, t.id).Some?
    case Capability => FindCapability(p, t.id).Some?
    case Facade => FindFacade(p, t.id).Some?
  }

  /** Two defined targets share a partition only if both are data, and no partition number is the
      invalid one. */
  ghost predicate Apart(p: ProductDefinition, t: Target, u: Target) {
    Defined(p, t) && Defined(p, u) ==>
      && DomainOf(p, t) != INVALID_DOMAIN
      && (DomainOf(p, t) == DomainOf(p, u) ==> t == u || (t.kind == Data && u.kind == Data))
  }

  ghost predicate Separated(p: ProductDefinition) {
    forall t, u :: Apart(p, t, u)
  }

  function AllDataDomains(p: ProductDefinition): seq<DomainPointer> {
    DataDomains(p.dataItems, |p.dataItems|)
  }

  ghost predicate CountsFit(p: ProductDefinition) {
    && |p.domains| + |p.capabilities| + |p.facades| < TWO32
    && |AllDataDomains(p)| < TWO32
  }

  /** Two data items whose domain pointers differ name different domains. */
  ghost predicate NamesTellDomainsApart(p: ProductDefinition) {
    forall i, j :: 0 <= i < |p.dataItems| && 0 <= j < |p.dataItems| ==>
      && p.dataItems[i].domain.DomainAt? && p.dataItems[j].domain.DomainAt?
      && (p.dataItems[i].domain != p.dataItems[j].domain ==> TextOf(p.dataItems[i].domain) != TextOf(p.dataItems[j].domain))
  }

  function TextOf(d: DomainPointer): string {
    match d
    case NullDomain => ""
    case DomainAt(_, definition) => definition.name.text
  }

  // Numbers below 2^32 do not wrap.

  lemma {:induction false} NumberedSmall(n: nat)
    requires n < TWO32
    ensures Numbered(n) == n
  {
    if n != 0 {
      NumberedSmall(n - 1);
    }
  }

  // Positions in the list of data domains never move as it grows.

  lemma {:induction false} DataDomainsPrefix(items: seq<DataItemDefinition>, m: nat, n: nat)
    requires m <= n <= |items|
    ensures DataDomains(items, m) <= DataDomains(items, n)
    decreases n
  {
    if m < n {
      DataDomainsPrefix(items, m, n - 1);
    }
  }

  lemma {:induction false} PositionInPrefix<T>(s: seq<T>, t: seq<T>, x: T)
    requires s <= t && x in s
    ensures PositionOf(s, x) == PositionOf(t, x)
  {
    if s[0] != x {
      PositionInPrefix(s[1..], t[1..], x);
    }
  }

  /** With distinct ids, an item's number is the position of its domain pointer plus one. */
  lemma {:induction false} DataNumber(p: ProductDefinition, n: nat, i: nat)
    requires i < n <= |p.dataItems| && Distinct(p.dataItems, DataItemId)
    ensures DataDomainIdIn(p.dataItems, n, p.dataItems[i].id) ==
            Numbered(1 + PositionOf(AllDataDomains(p), p.dataItems[i].domain))
    decreases n
  {
    if i == n - 1 {
      DataDomainListed(p.dataItems, n, i);
      DataDomainsPrefix(p.dataItems, n, |p.dataItems|);
      PositionInPrefix(DataDomains(p.dataItems, n), AllDataDomains(p), p.dataItems[i].domain);
    } else {
      assert DataItemId(p.dataItems[i]) != DataItemId(p.dataItems[n - 1]);
      DataNumber(p, n - 1, i);
    }
  }

  lemma {:induction false} DataDomainsDistinct(items: seq<DataItemDefinition>, n: nat)
    requires n <= |items|
    ensures forall i, j :: 0 <= i < j < |DataDomains(items, n)| ==> DataDomains(items, n)[i] != DataDomains(items, n)[j]
  {
    if n != 0 {
      DataDomainsDistinct(items, n - 1);
    }
  }

  lemma {:induction false} DataDomainUsed(items: seq<DataItemDefinition>, n: nat, x: DomainPointer) returns (i: nat)
    requires n <= |items| && x in DataDomains(items, n)
    ensures i < n && items[i].domain == x
  {
    if x in DataDomains(items, n - 1) {
      i := DataDomainUsed(items, n - 1, x);
    } else {
      i := n - 1;
    }
  }

  lemma {:induction false} DataDomainListed(items: seq<DataItemDefinition>, n: nat, i: nat)
    requires i < n <= |items|
    ensures items[i].domain in DataDomains(items, n)
  {
    if i < n - 1 {
      DataDomainListed(items, n - 1, i);
    }
  }

  /** The number of a defined target, without the wrap-around. */
  lemma NumberOf(p: ProductDefinition, t: Target)
    requires Distinct(p.dataItems, DataItemId) && CountsFit(p) && Defined(p, t)
    ensures t.kind == Data ==> 1 <= DomainOf(p, t) <= |AllDataDomains(p)|
    ensures t.kind == Capability ==>
              DomainOf(p, t) == |p.domains| + 1 + IndexWith(p.capabilities, DerivedId, t.id)
    ensures t.kind == Facade ==>
              DomainOf(p, t) == |p.domains| + |p.capabilities| + 1 + IndexWith(p.facades, DerivedId, t.id)
  {
    match t.kind
    case Data =>
      var i := IndexWith(p.dataItems, DataItemId, t.id);
      DataNumber(p, |p.dataItems|, i);
      DataDomainListed(p.dataItems, |p.dataItems|, i);
      NumberedSmall(1 + PositionOf(AllDataDomains(p), p.dataItems[i].domain));
    case Capability =>
      NumberedSmall(|p.domains| + 1 + IndexWith(p.capabilities, DerivedId, t.id));
    case Facade =>
      NumberedSmall(|p.domains| + |p.capabilities| + 1 + IndexWith(p.facades, DerivedId, t.id));
  }

  /** Main result: two data items share a partition exactly if they point at the same domain definition. */
  lemma SharedExactly(p: ProductDefinition, i: nat, j: nat)
    requires Valid(p) && CountsFit(p) && i < |p.dataItems| && j < |p.dataItems|
    ensures DomainOf(p, Target(Data, p.dataItems[i].id)) == DomainOf(p, Target(Data, p.dataItems[j].id)) <==>
            p.dataItems[i].domain == p.dataItems[j].domain
  {
    assert Meets(p, DataIdsDiffer);
    var n, ds := |p.dataItems|, AllDataDomains(p);
    DataNumber(p, n, i);
    DataNumber(p, n, j);
    DataDomainListed(p.dataItems, n, i);
    DataDomainListed(p.dataItems, n, j);
    NumberedSmall(1 + PositionOf(ds, p.dataItems[i].domain));
    NumberedSmall(1 + PositionOf(ds, p.dataItems[j].domain));
  }

  lemma FewDomainsSeparate(p: ProductDefinition)
    requires Distinct(p.dataItems, DataItemId) && CountsFit(p)
    requires |AllDataDomains(p)| <= |p.domains| || (p.capabilities == [] && p.facades == [])
    ensures Separated(p)
  {
    forall t, u ensures Apart(p, t, u) {
      if Defined(p, t) && Defined(p, u) {
        NumberOf(p, t);
        NumberOf(p, u);
      }
    }
  }

  /** With one data domain too many, its number is also the first derived number. */
  lemma ManyDomainsCollide(p: ProductDefinition) returns (t: Target, u: Target)
    requires Distinct(p.dataItems, DataItemId) && CountsFit(p)
    requires |AllDataDomains(p)| > |p.domains| && (p.capabilities != [] || p.facades != [])
    ensures Defined(p, t) && Defined(p, u) && t.kind == Data && u.kind != Data
    ensures DomainOf(p, t) == DomainOf(p, u) == |p.domains| + 1
  {
    var x := AllDataDomains(p)[|p.domains|];
    assert x in AllDataDomains(p);
    var i := DataDomainUsed(p.dataItems, |p.dataItems|, x);
    t := Target(Data, p.dataItems[i].id);
    assert DataItemId(p.dataItems[i]) == t.id;
    DataNumber(p, |p.dataItems|, i);
    DataDomainsDistinct(p.dataItems, |p.dataItems|);
    NumberedSmall(|p.domains| + 1);
    if p.capabilities != [] {
      u := Target(Capability, p.capabilities[0].id);
      assert DerivedId(p.capabilities[0]) == u.id;
    } else {
      u := Target(Facade, p.facades[0].id);
      assert DerivedId(p.facades[0]) == u.id;
    }
    NumberOf(p, u);
  }

  /** Main result: the exact condition under which the partitions of the three kinds are disjoint. */
  lemma SeparatedExactly(p: ProductDefinition)
    requires Valid(p) && CountsFit(p)
    ensures Separated(p) <==>
            |AllDataDomains(p)| <= |p.domains| || (p.capabilities == [] && p.facades == [])
  {
    assert Meets(p, DataIdsDiffer);
    if |AllDataDomains(p)| <= |p.domains| || (p.capabilities == [] && p.facades == []) {
      FewDomainsSeparate(p);
    } else {
      var t, u := ManyDomainsCollide(p);
      assert !Apart(p, t, u);
    }
  }

  // Distinct names give the condition.

  lemma {:induction false} Pigeonhole<T>(xs: seq<T>, ys: seq<T>)
    requires forall i, j :: 0 <= i < j < |xs| ==> xs[i] != xs[j]
    requires forall i :: 0 <= i < |xs| ==> xs[i] in ys
    ensures |xs| <= |ys|
  {
    if xs != [] {
      var n := |xs| - 1;
      var k :| 0 <= k < |ys| && ys[k] == xs[n];
      var rest := ys[..k] + ys[k + 1..];
      forall i | 0 <= i < n ensures xs[i] in rest {
        var j :| 0 <= j < |ys| && ys[j] == xs[i];
        assert rest[if j < k then j else j - 1] == xs[i];
      }
      Pigeonhole(xs[..n], rest);
    }
  }

  /** The names of the data domains are different, and each is the name of a domain of the product. */
  lemma DataDomainsFit(p: ProductDefinition)
    requires Valid(p) && NamesTellDomainsApart(p)
    ensures |AllDataDomains(p)| <= |p.domains|
  {
    assert Meets(p, DataDomainsKnown);
    var ds := AllDataDomains(p);
    var texts := seq(|ds|, i requires 0 <= i < |ds| => TextOf(ds[i]));
    var known := seq(|p.domains|, i requires 0 <= i < |p.domains| => p.domains[i].name.text);
    forall i, j | 0 <= i < j < |ds| ensures texts[i] != texts[j] {
      DataDomainsDistinct(p.dataItems, |p.dataItems|);
      var a := DataDomainUsed(p.dataItems, |p.dataItems|, ds[i]);
      var b := DataDomainUsed(p.dataItems, |p.dataItems|, ds[j]);
    }
    forall i | 0 <= i < |ds| ensures texts[i] in known {
      var a := DataDomainUsed(p.dataItems, |p.dataItems|, ds[i]);
      assert DomainKnown(p, p.dataItems[a]);
      var k := IndexWith(p.domains, DomainText, texts[i]);
      assert known[k] == texts[i];
    }
    Pigeonhole(texts, known);
  }

  /** Main result: a valid product whose domain pointers differ only where their names differ keeps
      every data domain number within 1..domainCount and all derived numbers above it. */
  lemma NamedDomainsAreSeparated(p: ProductDefinition)
    requires Valid(p) && NamesTellDomainsApart(p)
    requires |p.domains| + |p.capabilities| + |p.facades| < TWO32
    ensures Separated(p)
    ensures forall id :: FindDataItem(p, id).Some? ==> 1 <= DataDomainId(p, id) <= |p.domains|
  {
    assert Meets(p, DataIdsDiffer);
    DataDomainsFit(p);
    FewDomainsSeparate(p);
    forall id | FindDataItem(p, id).Some? ensures 1 <= DataDomainId(p, id) <= |p.domains| {
      NumberOf(p, Target(Data, id));
    }
  }

  // Reading and writing the value of a target.

  function Get(p: ProductDefinition, ps: Partitions, t: Target): Option<RIMValue> {
    if DomainOf(p, t) == INVALID_DOMAIN then None else Find(ps, DomainOf(p, t), t.id)
  }

  function Set(p: ProductDefinition, ps: Partitions, t: Target, v: RIMValue): Partitions {
    Put(ps, DomainOf(p, t), t.id, v)
  }

  /** Storing one target's value changes no other target's, even when the numeric ids coincide. */
  lemma GetAfterSet(p: ProductDefinition, ps: Partitions, t: Target, v: RIMValue, u: Target)
    requires Separated(p) && Defined(p, t) && Defined(p, u)
    ensures Get(p, Set(p, ps, t, v), u) == if u == t then Some(v) else Get(p, ps, u)
  {
    assert Apart(p, t, u) && Apart(p, u, t);
    FindAfterPut(ps, DomainOf(p, t), t.id, v, DomainOf(p, u), u.id);
  }

  // Validation alone does not separate the kinds.

  const SHARED_NAME := DomainDefinition(CString(1, "Environment"))

  function ItemIn(id: Id, name: string, address: nat): DataItemDefinition {
    DataItemDefinition(id, name, DomainAt(address, SHARED_NAME), 1, Int32Type, Int32Type, Int32Type,
                       v => v, IdentityStore, Some(IdentityDiff))
  }

  /** Two data items point at two copies of one domain definition; one capability shares an id with
      the second item. */
  function CopiedDomainProduct(): ProductDefinition {
    ProductDefinition(
      [SHARED_NAME],
      [RouteDefinition(1, "Route", BufferedQueue, BufferedQueue, KeepAll, 0)],
      [ItemIn(1, "First", 10), ItemIn(2, "Second", 20)],
      [DerivedDefinition(2, "Capability", s => EMPTY_VALUE, IdentityDiff, [1], 1)],
      [])
  }

  lemma CopiedDomainIsValid()
    ensures Valid(CopiedDomainProduct())
  {
    var p := CopiedDomainProduct();
    assert RouteId(p.routes[0]) == 1;
    assert DomainText(p.domains[0]) == TextOf(p.dataItems[0].domain) == TextOf(p.dataItems[1].domain);
    assert DataItemId(p.dataItems[0]) == 1 && DataItemId(p.dataItems[1]) == 2;
    assert |DataItemName(p.dataItems[0])| != |DataItemName(p.dataItems[1])|;
    forall rule ensures Meets(p, rule) {
    }
  }

  /** An item after the first that brings a second domain pointer gets the number 2. */
  lemma {:induction false} SecondDomainNumber(items: seq<DataItemDefinition>)
    requires |items| == 2 && items[0].domain != items[1].domain
    ensures DataDomainIdIn(items, 2, items[1].id) == 2
  {
    assert DataDomains(items, 1) == [items[0].domain];
    PositionAfterAppend([items[0].domain], items[1].domain);
    assert Numbered(1) == 1;
  }

  /** Such a product passes validation, and storing the capability overwrites the data item. */
  lemma CopiedDomainCollides(ps: Partitions, v: RIMValue)
    ensures Valid(CopiedDomainProduct())
    ensures Get(CopiedDomainProduct(), Set(CopiedDomainProduct(), ps, Target(Capability, 2), v), Target(Data, 2)) == Some(v)
  {
    CopiedDomainIsValid();
    var p := CopiedDomainProduct();
    SecondDomainNumber(p.dataItems);
    assert DataDomainId(p, 2) == 2;
    assert IndexWith(p.capabilities, DerivedId, 2) == 0 by {
      assert DerivedId(p.capabilities[0]) == 2;
    }
    assert CapabilityDomainId(p, 2) == 2 by {
      assert Numbered(1) == 1;
    }
    FindAfterPut(ps, 2, 2, v, 2, 2);
  }
}
