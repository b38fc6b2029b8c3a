/** What evaluation achieves: the evaluated values become current and nothing else is disturbed. */
module Derivation {
  import opened Values
  import opened Product
  import opened Storage
  import opened Context
  import opened Partitioning
  import opened Snapshots
  import opened Evaluation

  function Definitions(p: ProductDefinition, kind: TargetType): seq<DerivedDefinition> {
    if kind == Facade then p.facades else p.capabilities
  }

  /** Some declared input of `x` is stored. */
  ghost predicate HasInput(p: ProductDefinition, ps: Partitions, kind: TargetType, x: DerivedDefinition) {
    exists i :: 0 <= i < |x.required| && Get(p, ps, Target(InputKind(kind), x.required[i])).Some?
  }

  /** The stored value of `x` is what its build gives now, or one that its diff cannot tell from it. */
  ghost predicate Current(p: ProductDefinition, ps: Partitions, kind: TargetType, x: DerivedDefinition) {
    var stored := Get(p, ps, Target(kind, x.id));
    stored.Some? && (stored.value == Derive(p, ps, kind, x) || !x.diff(stored.value, Derive(p, ps, kind, x)))
  }

  /** `x` is current once it has an input, and absent before. */
  ghost predicate Settled(p: ProductDefinition, ps: Partitions, kind: TargetType, x: DerivedDefinition) {
    && (HasInput(p, ps, kind, x) ==> Current(p, ps, kind, x))
    && (Get(p, ps, Target(kind, x.id)).Some? ==> HasInput(p, ps, kind, x))
  }

  ghost predicate SameInputs(p: ProductDefinition, ps: Partitions, ps': Partitions, kind: TargetType, x: DerivedDefinition) {
    forall id :: id in x.required ==> Get(p, ps, Target(InputKind(kind), id)) == Get(p, ps', Target(InputKind(kind), id))
  }

  lemma SameInputsSameDerive(p: ProductDefinition, ps: Partitions, ps': Partitions, kind: TargetType, x: DerivedDefinition)
    requires SameInputs(p, ps, ps', kind, x)
    ensures Derive(p, ps, kind, x) == Derive(p, ps', kind, x)
    ensures HasInput(p, ps, kind, x) <==> HasInput(p, ps', kind, x)
  {
    DeriveUnchanged(p, ps, ps', kind, x);
    if HasInput(p, ps, kind, x) {
      var i :| 0 <= i < |x.required| && Get(p, ps, Target(InputKind(kind), x.required[i])).Some?;
      assert Get(p, ps', Target(InputKind(kind), x.required[i])).Some?;
    }
    if HasInput(p, ps', kind, x) {
      var i :| 0 <= i < |x.required| && Get(p, ps', Target(InputKind(kind), x.required[i])).Some?;
      assert Get(p, ps, Target(InputKind(kind), x.required[i])).Some?;
    }
  }

  // What a step leaves alone.

  ghost predicate Same(p: ProductDefinition, ps: Partitions, ps': Partitions, u: Target) {
    Get(p, ps, u) == Get(p, ps', u)
  }

  ghost predicate SameKind(p: ProductDefinition, ps: Partitions, ps': Partitions, kind: TargetType) {
    forall u: Target :: u.kind == kind ==> Same(p, ps, ps', u)
  }

  /** Undefined targets have no partition, so nothing is ever read from them. */
  lemma UndefinedIsAbsent(p: ProductDefinition, ps: Partitions, u: Target)
    requires !Defined(p, u)
    ensures Get(p, ps, u) == None
  {
    if u.kind == Data {
      UndefinedHasNoNumber(p, |p.dataItems|, u.id);
    }
  }

  lemma {:induction false} UndefinedHasNoNumber(p: ProductDefinition, n: nat, id: Id)
    requires n <= |p.dataItems| && FindDataItem(p, id).None?
    ensures DataDomainIdIn(p.dataItems, n, id) == INVALID_DOMAIN
  {
    if n != 0 {
      assert DataItemId(p.dataItems[n - 1]) != id;
      UndefinedHasNoNumber(p, n - 1, id);
    }
  }

  lemma SetKeepsOthers(p: ProductDefinition, ps: Partitions, t: Target, v: RIMValue, u: Target)
    requires Separated(p) && Defined(p, t)
    ensures u != t ==> Same(p, ps, Set(p, ps, t, v), u)
    ensures Get(p, Set(p, ps, t, v), t) == Some(v)
  {
    GetAfterSet(p, ps, t, v, t);
    if Defined(p, u) {
      GetAfterSet(p, ps, t, v, u);
    } else {
      UndefinedIsAbsent(p, ps, u);
      UndefinedIsAbsent(p, Set(p, ps, t, v), u);
    }
  }

  /** One evaluation: only its own value can change, and it ends current. */
  lemma EvaluatedEffect(p: ProductDefinition, s: Stage, kind: TargetType, x: DerivedDefinition)
    requires Separated(p) && Defined(p, Target(kind, x.id)) && kind != Data
    ensures forall u :: u != Target(kind, x.id) ==> Same(p, s.ps, Evaluated(p, s, kind, x).ps, u)
    ensures Current(p, Evaluated(p, s, kind, x).ps, kind, x)
  {
    var t := Target(kind, x.id);
    var s' := Evaluated(p, s, kind, x);
    forall u | u != t ensures Same(p, s.ps, s'.ps, u) {
      SetKeepsOthers(p, s.ps, t, Derive(p, s.ps, kind, x), u);
    }
    assert SameInputs(p, s.ps, s'.ps, kind, x) by {
      assert forall id :: Same(p, s.ps, s'.ps, Target(InputKind(kind), id));
    }
    SameInputsSameDerive(p, s.ps, s'.ps, kind, x);
    assert Apart(p, t, t);
    SetKeepsOthers(p, s.ps, t, Derive(p, s.ps, kind, x), t);
  }

  // Rounds over facades.

  lemma DefinedByMembership(p: ProductDefinition, kind: TargetType, x: DerivedDefinition)
    requires kind != Data && x in Definitions(p, kind)
    ensures Defined(p, Target(kind, x.id))
  {
    var i :| 0 <= i < |Definitions(p, kind)| && Definitions(p, kind)[i] == x;
    assert DerivedId(Definitions(p, kind)[i]) == x.id;
  }

  lemma SameIdSameDefinition(p: ProductDefinition, kind: TargetType, x: DerivedDefinition, y: DerivedDefinition)
    requires Valid(p) && x in Definitions(p, kind) && y in Definitions(p, kind) && x.id == y.id
    ensures x == y
  {
    assert Meets(p, CapabilityIdsDiffer) && Meets(p, FacadeIdsDiffer);
    DistinctFindsItself(Definitions(p, kind), DerivedId, x);
    DistinctFindsItself(Definitions(p, kind), DerivedId, y);
  }

  ghost predicate AllIn(xs: seq<DerivedDefinition>, ys: seq<DerivedDefinition>) {
    forall i :: 0 <= i < |xs| ==> xs[i] in ys
  }

  /** Whether `x` is one of the first n. */
  ghost predicate AmongFirst(xs: seq<DerivedDefinition>, n: nat, x: DerivedDefinition)
    requires n <= |xs|
  {
    n != 0 && (xs[n - 1] == x || AmongFirst(xs, n - 1, x))
  }

  lemma {:induction false} AmongFirstIsMember(xs: seq<DerivedDefinition>, n: nat, x: DerivedDefinition)
    requires n <= |xs|
    ensures AmongFirst(xs, n, x) <==> exists i :: 0 <= i < n && xs[i] == x
  {
    if n != 0 {
      AmongFirstIsMember(xs, n - 1, x);
    }
  }

  lemma SameKindTransitive(p: ProductDefinition, a: Partitions, b: Partitions, c: Partitions, kind: TargetType)
    requires SameKind(p, a, b, kind) && SameKind(p, b, c, kind)
    ensures SameKind(p, a, c, kind)
  {
    forall u: Target | u.kind == kind ensures Same(p, a, c, u) {
      assert Same(p, a, b, u) && Same(p, b, c, u);
    }
  }

  /** After the first n facades of the round: they are current, current facades stay current, and no
      other facade and no other kind of value was touched. */
  lemma {:induction false} AfterFacadesEffect(p: ProductDefinition, s: Stage, fs: seq<DerivedDefinition>, n: nat, g: DerivedDefinition)
    requires Valid(p) && Separated(p) && n <= |fs| && AllIn(fs, p.facades) && g in p.facades
    ensures var s' := AfterFacades(p, s, fs, n);
            && SameKind(p, s.ps, s'.ps, Data)
            && SameKind(p, s.ps, s'.ps, Capability)
            && (AmongFirst(fs, n, g) || Current(p, s.ps, Facade, g) ==> Current(p, s'.ps, Facade, g))
            && (!AmongFirst(fs, n, g) ==> Same(p, s.ps, s'.ps, Target(Facade, g.id)))
  {
    if n != 0 {
      AfterFacadesEffect(p, s, fs, n - 1, g);
      var before := AfterFacades(p, s, fs, n - 1);
      FacadeRound(p, before, fs[n - 1], g);
      var after := AfterFacades(p, s, fs, n);
      SameKindTransitive(p, s.ps, before.ps, after.ps, Data);
      SameKindTransitive(p, s.ps, before.ps, after.ps, Capability);
    }
  }

  lemma FacadeRound(p: ProductDefinition, s: Stage, f: DerivedDefinition, g: DerivedDefinition)
    requires Valid(p) && Separated(p) && f in p.facades && g in p.facades
    ensures SameKind(p, s.ps, Evaluated(p, s, Facade, f).ps, Data)
    ensures SameKind(p, s.ps, Evaluated(p, s, Facade, f).ps, Capability)
    ensures f == g || Current(p, s.ps, Facade, g) ==> Current(p, Evaluated(p, s, Facade, f).ps, Facade, g)
    ensures f != g ==> Same(p, s.ps, Evaluated(p, s, Facade, f).ps, Target(Facade, g.id))
  {
    DefinedByMembership(p, Facade, f);
    EvaluatedEffect(p, s, Facade, f);
    var s' := Evaluated(p, s, Facade, f);
    if f != g {
      if f.id == g.id {
        SameIdSameDefinition(p, Facade, f, g);
      }
      assert Same(p, s.ps, s'.ps, Target(Facade, g.id));
      assert SameInputs(p, s.ps, s'.ps, Facade, g) by {
        assert forall id :: Same(p, s.ps, s'.ps, Target(Capability, id));
      }
      SameInputsSameDerive(p, s.ps, s'.ps, Facade, g);
    }
  }

  // Rounds over capabilities.

  ghost predicate SettledIn(p: ProductDefinition, ps: Partitions, kind: TargetType, x: DerivedDefinition) {
    x in Definitions(p, kind) ==> Settled(p, ps, kind, x)
  }

  ghost predicate FacadesSettled(p: ProductDefinition, ps: Partitions) {
    forall f :: SettledIn(p, ps, Facade, f)
  }

  /** Re-evaluating one capability leaves it current, every facade settled, and all data and other
      capabilities alone. */
  lemma AfterCapabilityEffect(p: ProductDefinition, s: Stage, c: DerivedDefinition)
    requires Valid(p) && Separated(p) && c in p.capabilities
    requires FacadesSettled(p, s.ps)
    ensures var s' := AfterCapability(p, s, c);
            && SameKind(p, s.ps, s'.ps, Data)
            && (forall u: Target :: u.kind == Capability && u.id != c.id ==> Same(p, s.ps, s'.ps, u))
            && Current(p, s'.ps, Capability, c)
            && FacadesSettled(p, s'.ps)
  {
    DefinedByMembership(p, Capability, c);
    EvaluatedEffect(p, s, Capability, c);
    if Renews(p, s.ps, Capability, c) {
      RenewedCapabilityEffect(p, s, c);
    }
  }

  lemma RenewedCapabilityEffect(p: ProductDefinition, s: Stage, c: DerivedDefinition)
    requires Valid(p) && Separated(p) && c in p.capabilities
    requires FacadesSettled(p, s.ps) && Renews(p, s.ps, Capability, c)
    ensures var s' := AfterCapability(p, s, c);
            && SameKind(p, s.ps, s'.ps, Data)
            && (forall u: Target :: u.kind == Capability && u.id != c.id ==> Same(p, s.ps, s'.ps, u))
            && Current(p, s'.ps, Capability, c)
            && FacadesSettled(p, s'.ps)
  {
    DefinedByMembership(p, Capability, c);
    EvaluatedEffect(p, s, Capability, c);
    var middle := Evaluated(p, s, Capability, c);
    var s' := AfterCapability(p, s, c);
    var fs := Dependents(p.facades, c.id);
    DependentsAreFacades(p, c.id);
    FacadesKeepOtherKinds(p, middle, fs);
    CapabilityRound(p, middle, s', c);
    forall f ensures SettledIn(p, s'.ps, Facade, f) {
      if f in p.facades {
        assert SettledIn(p, s.ps, Facade, f);
        FacadeAfterRenewal(p, s, middle, c, f);
      }
    }
    forall u: Target | u.kind == Data || (u.kind == Capability && u.id != c.id) ensures Same(p, s.ps, s'.ps, u) {
      assert Same(p, s.ps, middle.ps, u) && Same(p, middle.ps, s'.ps, u);
    }
  }

  lemma FacadeAfterRenewal(p: ProductDefinition, s: Stage, middle: Stage, c: DerivedDefinition, f: DerivedDefinition)
    requires Valid(p) && Separated(p) && f in p.facades
    requires Settled(p, s.ps, Facade, f)
    requires forall u :: u != Target(Capability, c.id) ==> Same(p, s.ps, middle.ps, u)
    requires Get(p, middle.ps, Target(Capability, c.id)).Some?
    ensures var fs := Dependents(p.facades, c.id);
            Settled(p, AfterFacades(p, middle, fs, |fs|).ps, Facade, f)
  {
    var fs := Dependents(p.facades, c.id);
    DependentsAreFacades(p, c.id);
    AfterFacadesEffect(p, middle, fs, |fs|, f);
    AmongFirstIsMember(fs, |fs|, f);
    DependentsMembers(p.facades, c.id, f);
    FacadeSettledAgain(p, s, middle, AfterFacades(p, middle, fs, |fs|), c, f);
  }

  lemma DependentsAreFacades(p: ProductDefinition, id: Id)
    ensures AllIn(Dependents(p.facades, id), p.facades)
  {
    var fs := Dependents(p.facades, id);
    forall i | 0 <= i < |fs| ensures fs[i] in p.facades {
      DependentsMembers(p.facades, id, fs[i]);
    }
  }

  lemma FacadesKeepOtherKinds(p: ProductDefinition, s: Stage, fs: seq<DerivedDefinition>)
    requires Valid(p) && Separated(p) && AllIn(fs, p.facades)
    ensures SameKind(p, s.ps, AfterFacades(p, s, fs, |fs|).ps, Data)
    ensures SameKind(p, s.ps, AfterFacades(p, s, fs, |fs|).ps, Capability)
  {
    if fs != [] {
      AfterFacadesEffect(p, s, fs, |fs|, fs[0]);
    }
  }

  /** A facade that reads c was in the round; any other has the inputs and the value it had before. */
  lemma FacadeSettledAgain(p: ProductDefinition, s: Stage, middle: Stage, s': Stage, c: DerivedDefinition, f: DerivedDefinition)
    requires Settled(p, s.ps, Facade, f)
    requires forall u :: u != Target(Capability, c.id) ==> Same(p, s.ps, middle.ps, u)
    requires Get(p, middle.ps, Target(Capability, c.id)).Some?
    requires SameKind(p, middle.ps, s'.ps, Capability)
    requires c.id in f.required ==> Current(p, s'.ps, Facade, f)
    requires c.id !in f.required ==> Same(p, middle.ps, s'.ps, Target(Facade, f.id))
    ensures Settled(p, s'.ps, Facade, f)
  {
    assert forall id :: Same(p, middle.ps, s'.ps, Target(Capability, id));
    if c.id in f.required {
      var i :| 0 <= i < |f.required| && f.required[i] == c.id;
      assert Get(p, s'.ps, Target(Capability, f.required[i])).Some?;
    } else {
      assert forall id :: id in f.required ==> Same(p, s.ps, middle.ps, Target(Capability, id));
      assert SameInputs(p, s.ps, s'.ps, Facade, f);
      SameInputsSameDerive(p, s.ps, s'.ps, Facade, f);
      assert Same(p, s.ps, middle.ps, Target(Facade, f.id));
    }
  }

  /** After the first n capabilities of the round: they are current, every other capability and all
      data are as before, and every facade is settled. */
  lemma {:induction false} AfterCapabilitiesEffect(p: ProductDefinition, s: Stage, cs: seq<DerivedDefinition>, n: nat, d: DerivedDefinition)
    requires Valid(p) && Separated(p) && n <= |cs| && AllIn(cs, p.capabilities) && d in p.capabilities
    requires FacadesSettled(p, s.ps)
    ensures var s' := AfterCapabilities(p, s, cs, n);
            && SameKind(p, s.ps, s'.ps, Data)
            && (AmongFirst(cs, n, d) ==> Current(p, s'.ps, Capability, d))
            && (!AmongFirst(cs, n, d) ==> Same(p, s.ps, s'.ps, Target(Capability, d.id)))
            && FacadesSettled(p, s'.ps)
  {
    if n != 0 {
      AfterCapabilitiesEffect(p, s, cs, n - 1, d);
      var before := AfterCapabilities(p, s, cs, n - 1);
      OneRoundEffect(p, before, cs[n - 1], d);
      SameKindTransitive(p, s.ps, before.ps, AfterCapability(p, before, cs[n - 1]).ps, Data);
    }
  }

  /** One round, seen from any capability `d`. */
  lemma OneRoundEffect(p: ProductDefinition, s: Stage, c: DerivedDefinition, d: DerivedDefinition)
    requires Valid(p) && Separated(p) && c in p.capabilities && d in p.capabilities && FacadesSettled(p, s.ps)
    ensures var s' := AfterCapability(p, s, c);
            && SameKind(p, s.ps, s'.ps, Data) && FacadesSettled(p, s'.ps)
            && (c == d || Current(p, s.ps, Capability, d) ==> Current(p, s'.ps, Capability, d))
            && (c != d ==> Same(p, s.ps, s'.ps, Target(Capability, d.id)))
  {
    AfterCapabilityEffect(p, s, c);
    if c != d {
      if c.id == d.id {
        SameIdSameDefinition(p, Capability, c, d);
      }
      CapabilityRound(p, s, AfterCapability(p, s, c), d);
    }
  }

  lemma CapabilityRound(p: ProductDefinition, s: Stage, s': Stage, d: DerivedDefinition)
    requires SameKind(p, s.ps, s'.ps, Data) && Same(p, s.ps, s'.ps, Target(Capability, d.id))
    ensures Current(p, s.ps, Capability, d) ==> Current(p, s'.ps, Capability, d)
  {
    assert SameInputs(p, s.ps, s'.ps, Capability, d) by {
      assert forall id :: Same(p, s.ps, s'.ps, Target(Data, id));
    }
    SameInputsSameDerive(p, s.ps, s'.ps, Capability, d);
  }
}
