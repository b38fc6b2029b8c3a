/** A facade over two capabilities that one item feeds shows a value in between: within a single turn it
    is stored and published with one capability new and the other still old. */
module GlitchExample {
  import opened Values
  import opened Product
  import opened Storage
  import opened Context
  import opened Partitioning
  import opened Snapshots
  import opened Evaluation
  import opened Derivation
  import opened Consistency
  import opened Settling
  import opened Announcements
  import opened RaceExample

  function ShownInt32(s: RIMSnapshot, id: Id): Int32 {
    match TryGetInt32(s, id)
    case Some(i) => i
    case None => 0
  }

  function BuildCopy(s: RIMSnapshot): RIMValue { Int32Value(ShownInt32(s, 1)) }

  /** Whether the two capabilities show different numbers. */
  function BuildDiffer(s: RIMSnapshot): RIMValue {
    Int32Value(if ShownInt32(s, 0) != ShownInt32(s, 1) then 1 else 0)
  }

  const COPY := DerivedDefinition(0, "Copy", BuildCopy, IdentityDiff, [1], 1)
  const AGAIN := DerivedDefinition(1, "CopyAgain", BuildCopy, IdentityDiff, [1], 1)
  const DIFFER := DerivedDefinition(0, "Differ", BuildDiffer, IdentityDiff, [0, 1], 1)

  const GLITCH := TWO_ROUTES.(capabilities := [COPY, AGAIN], facades := [DIFFER])

  lemma PartsFound(id: Id)
    ensures FindDataItem(GLITCH, id) == FindDataItem(TWO_ROUTES, id)
    ensures FindRoute(GLITCH, id) == FindRoute(TWO_ROUTES, id)
    ensures FindCapability(GLITCH, id) == if id == 0 then Some(COPY) else if id == 1 then Some(AGAIN) else None
    ensures FindFacade(GLITCH, id) == if id == 0 then Some(DIFFER) else None
  {
    var cs, fs := GLITCH.capabilities, GLITCH.facades;
    assert DerivedId(cs[0]) == 0 && DerivedId(cs[1]) == 1 && DerivedId(fs[0]) == 0;
    var k, l := IndexWith(cs, DerivedId, id), IndexWith(fs, DerivedId, id);
  }

  lemma GlitchIsValid()
    ensures Valid(GLITCH)
  {
    var p := GLITCH;
    IsValid();
    ItemsFound(1);
    PartsFound(0);
    PartsFound(1);
    assert |DerivedName(COPY)| != |DerivedName(AGAIN)|;
    assert AllDefined(p.dataItems, DataItemId, COPY.required) && AllDefined(p.dataItems, DataItemId, AGAIN.required);
    assert AllDefined(p.capabilities, DerivedId, DIFFER.required);
    forall rule ensures Meets(p, rule) {
      assert Meets(TWO_ROUTES, rule);
      if rule == DataDomainsKnown {
        assert forall item :: DomainKnown(p, item) <==> DomainKnown(TWO_ROUTES, item);
      }
    }
  }

  lemma GlitchIsSeparated()
    ensures Valid(GLITCH) && Separated(GLITCH)
  {
    GlitchIsValid();
    NamedDomainsAreSeparated(GLITCH);
  }

  lemma GlitchTellsExactly()
    ensures AllTellExactly(GLITCH)
  {
    IdentityDiffIsExact();
    forall x | x in GLITCH.capabilities || x in GLITCH.facades ensures TellsExactly(x) {
      forall s ensures !x.diff(x.build(s), x.build(s)) {
      }
    }
  }

  lemma WhoIsFed()
    ensures Dependents(GLITCH.capabilities, 1) == [COPY, AGAIN]
  {
    var cs := GLITCH.capabilities;
    assert DependentsUpTo(cs, 0, 1, 1) == [COPY] && DependentsUpTo(cs, 1, 0, 1) == [COPY];
    assert DependentsUpTo(cs, 1, 1, 1) == [COPY, AGAIN];
  }

  lemma WhoIsFedNext()
    ensures Dependents(GLITCH.facades, 0) == [DIFFER] && Dependents(GLITCH.facades, 1) == [DIFFER]
  {
    var fs := GLITCH.facades;
    assert DependentsUpTo(fs, 0, 1, 0) == [DIFFER] && DependentsUpTo(fs, 0, 2, 0) == [DIFFER];
    assert DependentsUpTo(fs, 0, 1, 1) == [] && DependentsUpTo(fs, 0, 2, 1) == [DIFFER];
  }

  // Values, as numbers.

  function AsNumber(v: Option<RIMValue>): Int32 {
    match v
    case Some(Int32Value(i)) => i
    case _ => 0
  }

  function NumberOf(ps: Partitions, kind: TargetType, id: Id): Int32 {
    AsNumber(Get(GLITCH, ps, Target(kind, id)))
  }

  lemma WhatIsBuilt(ps: Partitions)
    ensures Derive(GLITCH, ps, Capability, COPY) == Int32Value(NumberOf(ps, Data, 1))
    ensures Derive(GLITCH, ps, Capability, AGAIN) == Int32Value(NumberOf(ps, Data, 1))
    ensures Derive(GLITCH, ps, Facade, DIFFER) ==
            Int32Value(if NumberOf(ps, Capability, 0) != NumberOf(ps, Capability, 1) then 1 else 0)
  {
    assert [1][..1] == [1] && [0, 1][..2] == [0, 1];
    assert COPY.required[0] == 1 && DIFFER.required[0] == 0 && DIFFER.required[1] == 1;
    InputSnapshotView(GLITCH, ps, Data, COPY.required, 1, 1);
    InputSnapshotView(GLITCH, ps, Capability, DIFFER.required, 2, 0);
    InputSnapshotView(GLITCH, ps, Capability, DIFFER.required, 2, 1);
  }

  ghost predicate Kept(s: Stage, s': Stage, u: Target) {
    Same(GLITCH, s.ps, s'.ps, u) && (Announced(s', u) <==> Announced(s, u))
  }

  /** From s to s' the target got the value, which was announced if it is new; the rest stayed. */
  ghost predicate Wrote(s: Stage, s': Stage, t: Target, v: RIMValue) {
    && !s'.shut && Get(GLITCH, s'.ps, t) == Some(v)
    && (Announced(s', t) <==> Announced(s, t) || !Same(GLITCH, s.ps, s'.ps, t))
    && forall u :: u != t ==> Kept(s, s', u)
  }

  lemma OneEvaluation(s: Stage, kind: TargetType, x: DerivedDefinition)
    requires Separated(GLITCH) && kind != Data && x in Definitions(GLITCH, kind) && !s.shut
    ensures Wrote(s, Evaluated(GLITCH, s, kind, x), Target(kind, x.id), Derive(GLITCH, s.ps, kind, x))
  {
    var p, s', t := GLITCH, Evaluated(GLITCH, s, kind, x), Target(kind, x.id);
    GlitchTellsExactly();
    DefinedByMembership(p, kind, x);
    assert TellsExactly(x) && Apart(p, t, t);
    EvaluatedEffect(p, s, kind, x);
    EvaluatedAnnouncesOnly(p, s, kind, x, t);
    if Renews(p, s.ps, kind, x) {
      RenewedDiffers(p, s.ps, kind, x);
      SetKeepsOthers(p, s.ps, t, Derive(p, s.ps, kind, x), t);
    }
    forall u | u != t ensures Kept(s, s', u) {
      EvaluatedAnnouncesOnly(p, s, kind, x, u);
    }
  }

  lemma OneFacadeRound(p: ProductDefinition, s: Stage, c: DerivedDefinition, f: DerivedDefinition)
    requires Renews(p, s.ps, Capability, c) && Dependents(p.facades, c.id) == [f]
    ensures AfterCapability(p, s, c) == Evaluated(p, Evaluated(p, s, Capability, c), Facade, f)
  {
    var middle := Evaluated(p, s, Capability, c);
    assert AfterFacades(p, middle, [f], 0) == middle;
  }

  lemma RenewsHere(s: Stage, x: DerivedDefinition)
    requires Separated(GLITCH) && (x == COPY || x == AGAIN)
    requires Get(GLITCH, s.ps, Target(Capability, x.id)) != Some(Derive(GLITCH, s.ps, Capability, x))
    ensures Renews(GLITCH, s.ps, Capability, x)
  {
    var t := Target(Capability, x.id);
    PartsFound(x.id);
    assert Apart(GLITCH, t, t);
    if Get(GLITCH, s.ps, t).Some? {
      IdentityDiffExactly(Get(GLITCH, s.ps, t).value, Derive(GLITCH, s.ps, Capability, x));
    }
  }

  /** A round that changes a capability evaluates the facade right after it. */
  lemma RoundIsTwoEvaluations(s: Stage, x: DerivedDefinition)
    requires Separated(GLITCH) && (x == COPY || x == AGAIN)
    requires Get(GLITCH, s.ps, Target(Capability, x.id)) != Some(Derive(GLITCH, s.ps, Capability, x))
    ensures AfterCapability(GLITCH, s, x) == Evaluated(GLITCH, Evaluated(GLITCH, s, Capability, x), Facade, DIFFER)
  {
    RenewsHere(s, x);
    WhoIsFedNext();
    OneFacadeRound(GLITCH, s, x, DIFFER);
  }

  const F := Target(Facade, 0)
  const C := Target(Capability, 0)
  const A := Target(Capability, 1)

  ghost predicate Holds(s: Stage, t: Target, i: Int32) {
    Get(GLITCH, s.ps, t) == Some(Int32Value(i))
  }

  /** The first round, with the item at `item` and the second capability at `again` or absent. */
  lemma FirstRound(s: Stage, item: Int32, again: Int32)
    requires Separated(GLITCH) && !s.shut && Holds(s, Target(Data, 1), item) && !Holds(s, C, item)
    requires NumberOf(s.ps, Capability, 1) == again
    ensures var s' := AfterCapability(GLITCH, s, COPY);
            && !s'.shut && Holds(s', C, item) && Holds(s', F, if item != again then 1 else 0)
            && Same(GLITCH, s.ps, s'.ps, A) && Same(GLITCH, s.ps, s'.ps, Target(Data, 1))
            && (item != again && !Holds(s, F, 1) ==> Announced(s', F))
  {
    WhatIsBuilt(s.ps);
    RoundIsTwoEvaluations(s, COPY);
    var middle := Evaluated(GLITCH, s, Capability, COPY);
    OneEvaluation(s, Capability, COPY);
    WhatIsBuilt(middle.ps);
    OneEvaluation(middle, Facade, DIFFER);
    assert Kept(s, middle, A) && Kept(s, middle, F) && Kept(s, middle, Target(Data, 1));
    var s' := AfterCapability(GLITCH, s, COPY);
    assert Kept(middle, s', A) && Kept(middle, s', C) && Kept(middle, s', Target(Data, 1));
  }

  /** The second round, after which the two capabilities agree. */
  lemma SecondRound(s: Stage, item: Int32)
    requires Separated(GLITCH) && !s.shut && Holds(s, Target(Data, 1), item) && Holds(s, C, item) && !Holds(s, A, item)
    ensures var s' := AfterCapability(GLITCH, s, AGAIN);
            && !s'.shut && Holds(s', C, item) && Holds(s', A, item) && Holds(s', F, 0)
            && (Announced(s, F) ==> Announced(s', F))
  {
    WhatIsBuilt(s.ps);
    RoundIsTwoEvaluations(s, AGAIN);
    var middle := Evaluated(GLITCH, s, Capability, AGAIN);
    OneEvaluation(s, Capability, AGAIN);
    WhatIsBuilt(middle.ps);
    OneEvaluation(middle, Facade, DIFFER);
    assert Kept(s, middle, C) && Kept(s, middle, F);
    var s' := AfterCapability(GLITCH, s, AGAIN);
    assert Kept(middle, s', C) && Kept(middle, s', A);
  }

  /** A turn in which both capabilities change: the facade agrees again at its end, and was announced
      if it did not agree in between. */
  lemma BothChange(s: Stage, item: Int32, again: Int32)
    requires Separated(GLITCH) && !s.shut && Holds(s, Target(Data, 1), item) && !Holds(s, C, item) && !Holds(s, A, item)
    requires NumberOf(s.ps, Capability, 1) == again
    ensures var s' := Processed(GLITCH, s, 1);
            && Holds(s', C, item) && Holds(s', A, item) && Holds(s', F, 0)
            && (item != again && !Holds(s, F, 1) ==> Announced(s', F))
  {
    var told, cs := Published(GLITCH, s, Target(Data, 1)), [COPY, AGAIN];
    WhoIsFed();
    FirstRound(told, item, again);
    var first := AfterCapability(GLITCH, told, COPY);
    SecondRound(first, item);
    assert AfterCapabilities(GLITCH, told, cs, 0) == told && AfterCapabilities(GLITCH, told, cs, 1) == first;
  }

  /** The first turn, with zero stored, leaves everything at zero. */
  lemma SettledAtZero() returns (s: Stage)
    requires Separated(GLITCH)
    ensures s == Processed(GLITCH, Stage(AfterStore(GLITCH, map[], RIMDataItem(1, Int32Value(0))), [], false), 1)
    ensures !s.shut && Holds(s, Target(Data, 1), 0) && Holds(s, C, 0) && Holds(s, A, 0) && Holds(s, F, 0)
  {
    var before := Stage(AfterStore(GLITCH, map[], RIMDataItem(1, Int32Value(0))), [], false);
    s := Processed(GLITCH, before, 1);
    NumberStored(map[], 0);
    assert Same(GLITCH, map[], before.ps, C) && Same(GLITCH, map[], before.ps, A);
    BothChange(before, 0, 0);
    TurnKeepsData(before);
    TurnStaysOpen(GLITCH, before, 1);
  }

  lemma NumberStored(ps: Partitions, i: Int32)
    requires Separated(GLITCH) && Get(GLITCH, ps, Target(Data, 1)) != Some(Int32Value(i))
    ensures var ps' := AfterStore(GLITCH, ps, RIMDataItem(1, Int32Value(i)));
            && Get(GLITCH, ps', Target(Data, 1)) == Some(Int32Value(i))
            && forall u: Target :: u.kind != Data ==> Same(GLITCH, ps, ps', u)
  {
    var item := RIMDataItem(1, Int32Value(i));
    ItemsFound(1);
    PartsFound(1);
    assert GLITCH.dataItems[0].id == 1 && GLITCH.dataItems[0] in GLITCH.dataItems;
    GlitchIsValid();
    WritesExactly(GLITCH, ps, item, GLITCH.dataItems[0]);
    forall u: Target ensures u.kind != Data ==> Same(GLITCH, ps, AfterStore(GLITCH, ps, item), u) {
      SetKeepsOthers(GLITCH, ps, Target(Data, 1), Int32Value(i), u);
    }
  }

  lemma TurnKeepsData(s: Stage)
    requires Separated(GLITCH)
    ensures Same(GLITCH, s.ps, Processed(GLITCH, s, 1).ps, Target(Data, 1))
  {
    GlitchIsValid();
    DependentsAreCapabilities(GLITCH, 1);
    WhoIsFed();
    RoundsLeaveCurrent(GLITCH, Published(GLITCH, s, Target(Data, 1)), Dependents(GLITCH.capabilities, 1), 2, COPY);
  }

  /** Counterexample: with 0 processed first and 7 after it, from an emptied publisher queue, the
      facade is published although the turn leaves it with the value it had. */
  lemma FacadeFlickers() returns (s: Stage)
    ensures Valid(GLITCH) && Separated(GLITCH) && AllTellExactly(GLITCH) && !s.shut && s.published == []
    ensures var first := Processed(GLITCH, Stage(AfterStore(GLITCH, map[], RIMDataItem(1, Int32Value(0))), [], false), 1);
            s.ps == AfterStore(GLITCH, first.ps, RIMDataItem(1, Int32Value(7)))
    ensures var f := Target(Facade, 0);
            Same(GLITCH, s.ps, Processed(GLITCH, s, 1).ps, f) && Announced(Processed(GLITCH, s, 1), f)
  {
    GlitchIsSeparated();
    GlitchTellsExactly();
    var first := SettledAtZero();
    NumberStored(first.ps, 7);
    s := Stage(AfterStore(GLITCH, first.ps, RIMDataItem(1, Int32Value(7))), [], false);
    assert Same(GLITCH, first.ps, s.ps, C) && Same(GLITCH, first.ps, s.ps, A) && Same(GLITCH, first.ps, s.ps, F);
    BothChange(s, 7, 0);
  }
}
