/** What one turn of the capability worker publishes, exactly: the data item, the capabilities whose
    value the turn changed, and facades over them. */
module Announcements {
  import opened Values
  import opened Queues
  import opened PublisherQueue
  import opened Product
  import opened Storage
  import opened Context
  import opened Partitioning
  import opened Snapshots
  import opened Evaluation
  import opened Derivation
  import opened Consistency
  import opened Publication
  import opened Interleaving
  import opened FinePublication
  import opened Settling

  /** The diff tells values apart exactly when they differ, as far as the builder's own values go. */
  ghost predicate TellsExactly(x: DerivedDefinition) {
    KnowsItsOwn(x) && NeverHidesAChange(x.diff)
  }

  ghost predicate AllTellExactly(p: ProductDefinition) {
    (forall c :: c in p.capabilities ==> TellsExactly(c)) && (forall f :: f in p.facades ==> TellsExactly(f))
  }

  // What is announced, target by target.

  ghost predicate Announced(s: Stage, u: Target) {
    u in Targets(s.published)
  }

  lemma EvaluatedAnnouncesOnly(p: ProductDefinition, s: Stage, kind: TargetType, x: DerivedDefinition, u: Target)
    requires !s.shut
    ensures Announced(Evaluated(p, s, kind, x), u) <==> Announced(s, u) || (u == Target(kind, x.id) && Renews(p, s.ps, kind, x))
  {
    var t := Target(kind, x.id);
    if Renews(p, s.ps, kind, x) {
      PublishedTargets(p, s.(ps := Set(p, s.ps, t, Derive(p, s.ps, kind, x))), t);
    }
  }

  lemma {:induction false} FacadeRoundsAnnounceFacades(p: ProductDefinition, s: Stage, fs: seq<DerivedDefinition>, n: nat, u: Target)
    requires !s.shut && n <= |fs|
    ensures !AfterFacades(p, s, fs, n).shut
    ensures Announced(s, u) ==> Announced(AfterFacades(p, s, fs, n), u)
    ensures Announced(AfterFacades(p, s, fs, n), u) && !Announced(s, u) ==>
              u.kind == Facade && exists i :: 0 <= i < n && fs[i].id == u.id
  {
    if n != 0 {
      FacadeRoundsAnnounceFacades(p, s, fs, n - 1, u);
      EvaluatedAnnouncesOnly(p, AfterFacades(p, s, fs, n - 1), Facade, fs[n - 1], u);
    }
  }

  // One capability, seen over the rounds of a turn.

  /** Its value was changed if and only if it was announced, and it is up to date once taken up. */
  ghost predicate ToldExactly(p: ProductDefinition, s: Stage, s': Stage, c: DerivedDefinition, taken: bool) {
    var t := Target(Capability, c.id);
    && (Announced(s', t) <==> Announced(s, t) || !Same(p, s.ps, s'.ps, t))
    && (taken ==> Current(p, s'.ps, Capability, c))
    && (!taken ==> Same(p, s.ps, s'.ps, t))
  }

  /** Its value is the first one or the one that the data imply. */
  ghost predicate OldOrNew(p: ProductDefinition, s: Stage, s': Stage, c: DerivedDefinition) {
    var t := Target(Capability, c.id);
    Same(p, s.ps, s'.ps, t) || Get(p, s'.ps, t) == Some(Derive(p, s.ps, Capability, c))
  }

  lemma RoundTells(p: ProductDefinition, s: Stage, before: Stage, c: DerivedDefinition, d: DerivedDefinition, taken: bool)
    requires Valid(p) && Separated(p) && c in p.capabilities && d in p.capabilities && TellsExactly(d) && !before.shut
    requires SameKind(p, s.ps, before.ps, Data) && ToldExactly(p, s, before, d, taken) && OldOrNew(p, s, before, d)
    ensures var after := AfterCapability(p, before, c);
            && !after.shut && SameKind(p, s.ps, after.ps, Data)
            && ToldExactly(p, s, after, d, taken || c == d) && OldOrNew(p, s, after, d)
  {
    var after, t := AfterCapability(p, before, c), Target(Capability, d.id);
    SameDataSameValue(p, s.ps, before.ps, d);
    RoundLeavesCurrent(p, before, c, d);
    SameKindTransitive(p, s.ps, before.ps, after.ps, Data);
    if c == d {
      OwnRoundTells(p, before, d);
    } else {
      OtherRoundTells(p, before, c, d);
    }
  }

  lemma SameDataSameValue(p: ProductDefinition, a: Partitions, b: Partitions, c: DerivedDefinition)
    requires SameKind(p, a, b, Data)
    ensures Derive(p, a, Capability, c) == Derive(p, b, Capability, c)
  {
    assert forall id :: Same(p, a, b, Target(Data, id));
    SameInputsSameDerive(p, a, b, Capability, c);
  }

  /** The round that takes the capability up announces it exactly if its value changes. */
  lemma OwnRoundTells(p: ProductDefinition, s: Stage, c: DerivedDefinition)
    requires Valid(p) && Separated(p) && c in p.capabilities && TellsExactly(c) && !s.shut
    ensures var s', t := AfterCapability(p, s, c), Target(Capability, c.id);
            && !s'.shut && Get(p, s'.ps, t) == Some(Derive(p, s.ps, Capability, c))
            && (Announced(s', t) <==> Announced(s, t) || !Same(p, s.ps, s'.ps, t))
  {
    var t, middle, fs := Target(Capability, c.id), Evaluated(p, s, Capability, c), Dependents(p.facades, c.id);
    DefinedByMembership(p, Capability, c);
    EvaluatedAnnouncesOnly(p, s, Capability, c, t);
    DependentsAreFacades(p, c.id);
    FacadesKeepOtherKinds(p, middle, fs);
    FacadeRoundsAnnounceFacades(p, middle, fs, |fs|, t);
    assert Same(p, middle.ps, AfterFacades(p, middle, fs, |fs|).ps, t);
    if Renews(p, s.ps, Capability, c) {
      RenewedDiffers(p, s.ps, Capability, c);
      SetKeepsOthers(p, s.ps, t, Derive(p, s.ps, Capability, c), t);
    } else {
      assert Apart(p, t, t);
    }
  }

  lemma OtherRoundTells(p: ProductDefinition, s: Stage, c: DerivedDefinition, d: DerivedDefinition)
    requires Valid(p) && Separated(p) && c in p.capabilities && d in p.capabilities && c != d && !s.shut
    ensures var s', t := AfterCapability(p, s, c), Target(Capability, d.id);
            !s'.shut && Same(p, s.ps, s'.ps, t) && (Announced(s', t) <==> Announced(s, t))
  {
    var t, middle, fs := Target(Capability, d.id), Evaluated(p, s, Capability, c), Dependents(p.facades, c.id);
    if c.id == d.id {
      SameIdSameDefinition(p, Capability, c, d);
    }
    DefinedByMembership(p, Capability, c);
    EvaluatedEffect(p, s, Capability, c);
    EvaluatedAnnouncesOnly(p, s, Capability, c, t);
    DependentsAreFacades(p, c.id);
    FacadesKeepOtherKinds(p, middle, fs);
    FacadeRoundsAnnounceFacades(p, middle, fs, |fs|, t);
    assert Same(p, middle.ps, AfterFacades(p, middle, fs, |fs|).ps, t);
  }

  lemma {:induction false} RoundsTell(p: ProductDefinition, s: Stage, cs: seq<DerivedDefinition>, n: nat, d: DerivedDefinition)
    requires Valid(p) && Separated(p) && n <= |cs| && AllIn(cs, p.capabilities) && d in p.capabilities && TellsExactly(d) && !s.shut
    ensures var after := AfterCapabilities(p, s, cs, n);
            && !after.shut && SameKind(p, s.ps, after.ps, Data)
            && ToldExactly(p, s, after, d, AmongFirst(cs, n, d)) && OldOrNew(p, s, after, d)
  {
    if n != 0 {
      RoundsTell(p, s, cs, n - 1, d);
      RoundTells(p, s, AfterCapabilities(p, s, cs, n - 1), cs[n - 1], d, AmongFirst(cs, n - 1, d));
    }
  }

  // Facades.

  /** The facade of `u` requires a capability that was announced. */
  ghost predicate CauseOf(p: ProductDefinition, s: Stage, u: Target, c: DerivedDefinition) {
    c in p.capabilities && Announced(s, Target(Capability, c.id))
    && exists f :: f in p.facades && f.id == u.id && c.id in f.required
  }

  ghost predicate HasCause(p: ProductDefinition, s: Stage, u: Target) {
    exists c :: CauseOf(p, s, u, c)
  }

  lemma RoundHasCause(p: ProductDefinition, s: Stage, c: DerivedDefinition, u: Target)
    requires !s.shut && c in p.capabilities && u.kind == Facade && (Announced(s, u) ==> HasCause(p, s, u))
    ensures var s' := AfterCapability(p, s, c); !s'.shut && (Announced(s', u) ==> HasCause(p, s', u))
    ensures forall v :: Announced(s, v) ==> Announced(AfterCapability(p, s, c), v)
  {
    var t, middle, fs := Target(Capability, c.id), Evaluated(p, s, Capability, c), Dependents(p.facades, c.id);
    var s' := AfterCapability(p, s, c);
    forall v ensures Announced(s, v) ==> Announced(s', v) {
      EvaluatedAnnouncesOnly(p, s, Capability, c, v);
      FacadeRoundsAnnounceFacades(p, middle, fs, |fs|, v);
    }
    EvaluatedAnnouncesOnly(p, s, Capability, c, u);
    FacadeRoundsAnnounceFacades(p, middle, fs, |fs|, u);
    if Announced(s, u) {
      var b :| CauseOf(p, s, u, b);
      assert CauseOf(p, s', u, b);
    } else if Announced(s', u) {
      EvaluatedAnnouncesOnly(p, s, Capability, c, t);
      FacadeRoundsAnnounceFacades(p, middle, fs, |fs|, t);
      var i :| 0 <= i < |fs| && fs[i].id == u.id;
      DependentsMembers(p.facades, c.id, fs[i]);
      assert CauseOf(p, s', u, c);
    }
  }

  lemma {:induction false} RoundsHaveCauses(p: ProductDefinition, s: Stage, cs: seq<DerivedDefinition>, n: nat, u: Target)
    requires n <= |cs| && AllIn(cs, p.capabilities) && !s.shut && u.kind == Facade && !Announced(s, u)
    ensures var s' := AfterCapabilities(p, s, cs, n); !s'.shut && (Announced(s', u) ==> HasCause(p, s', u))
  {
    if n != 0 {
      RoundsHaveCauses(p, s, cs, n - 1, u);
      RoundHasCause(p, AfterCapabilities(p, s, cs, n - 1), cs[n - 1], u);
    }
  }

  lemma {:induction false} RoundsAnnounceNoData(p: ProductDefinition, s: Stage, cs: seq<DerivedDefinition>, n: nat, u: Target)
    requires n <= |cs| && AllIn(cs, p.capabilities) && !s.shut && u.kind != Facade
    requires u.kind == Data || FindCapability(p, u.id).None?
    ensures var s' := AfterCapabilities(p, s, cs, n); !s'.shut && (Announced(s', u) <==> Announced(s, u))
  {
    if n != 0 {
      RoundsAnnounceNoData(p, s, cs, n - 1, u);
      var before, c := AfterCapabilities(p, s, cs, n - 1), cs[n - 1];
      var middle, fs := Evaluated(p, before, Capability, c), Dependents(p.facades, c.id);
      DefinedByMembership(p, Capability, c);
      EvaluatedAnnouncesOnly(p, before, Capability, c, u);
      FacadeRoundsAnnounceFacades(p, middle, fs, |fs|, u);
    }
  }

  // One turn, from an emptied queue.

  /** Main result: of the data, a turn announces the item that it was told about and no other. */
  lemma TurnAnnouncesOneItem(p: ProductDefinition, s: Stage, d: Id, u: Id)
    requires !s.shut && s.published == [] && d != INVALID_DATA_ID
    ensures Announced(Processed(p, s, d), Target(Data, u)) <==> u == d
  {
    var told, cs := Published(p, s, Target(Data, d)), Dependents(p.capabilities, d);
    PublishedTargets(p, s, Target(Data, d));
    DependentsAreCapabilities(p, d);
    RoundsAnnounceNoData(p, told, cs, |cs|, Target(Data, u));
  }

  /** Main result: if diffs tell values apart exactly when they differ, a turn announces exactly the
      capabilities whose stored value it changed. */
  lemma TurnAnnouncesChangedCapabilities(p: ProductDefinition, s: Stage, d: Id, u: Id)
    requires Valid(p) && Separated(p) && AllTellExactly(p) && !s.shut && s.published == [] && d != INVALID_DATA_ID
    ensures Announced(Processed(p, s, d), Target(Capability, u)) <==> !Same(p, s.ps, Processed(p, s, d).ps, Target(Capability, u))
  {
    var t, told, cs := Target(Capability, u), Published(p, s, Target(Data, d)), Dependents(p.capabilities, d);
    PublishedTargets(p, s, Target(Data, d));
    DependentsAreCapabilities(p, d);
    match FindCapability(p, u)
    case None =>
      RoundsAnnounceNoData(p, told, cs, |cs|, t);
      UndefinedIsAbsent(p, s.ps, t);
      UndefinedIsAbsent(p, Processed(p, s, d).ps, t);
    case Some(c) => RoundsTell(p, told, cs, |cs|, c);
  }

  /** Main result: a turn announces no facade without having changed a capability that it requires. */
  lemma TurnAnnouncesFacadesForACause(p: ProductDefinition, s: Stage, d: Id, f: DerivedDefinition)
    requires Valid(p) && Separated(p) && AllTellExactly(p) && !s.shut && s.published == [] && d != INVALID_DATA_ID
    requires f in p.facades && Announced(Processed(p, s, d), Target(Facade, f.id))
    ensures exists id :: id in f.required && !Same(p, s.ps, Processed(p, s, d).ps, Target(Capability, id))
  {
    var u, told, cs := Target(Facade, f.id), Published(p, s, Target(Data, d)), Dependents(p.capabilities, d);
    PublishedTargets(p, s, Target(Data, d));
    DependentsAreCapabilities(p, d);
    RoundsHaveCauses(p, told, cs, |cs|, u);
    var c :| CauseOf(p, Processed(p, s, d), u, c);
    var g :| g in p.facades && g.id == u.id && c.id in g.required;
    SameIdSameDefinition(p, Facade, f, g);
    TurnAnnouncesChangedCapabilities(p, s, d, c.id);
  }

  /** No turn announces an undefined facade. */
  lemma TurnAnnouncesDefinedFacades(p: ProductDefinition, s: Stage, d: Id, u: Id)
    requires !s.shut && s.published == [] && d != INVALID_DATA_ID
    ensures Announced(Processed(p, s, d), Target(Facade, u)) ==> exists f :: f in p.facades && f.id == u
  {
    PublishedTargets(p, s, Target(Data, d));
    DependentsAreCapabilities(p, d);
    var cs := Dependents(p.capabilities, d);
    RoundsHaveCauses(p, Published(p, s, Target(Data, d)), cs, |cs|, Target(Facade, u));
  }

  // A facade with one capability in the turn.

  /** Of the capabilities that the item feeds, `f` requires none but `c`. */
  ghost predicate OneFeeds(p: ProductDefinition, d: Id, f: DerivedDefinition, c: DerivedDefinition) {
    c in p.capabilities && f in p.facades
    && forall b :: b in p.capabilities && d in b.required && b.id in f.required ==> b == c
  }

  /** One facade over the rounds of one capability. */
  lemma {:induction false} FacadeRoundsTell(p: ProductDefinition, s: Stage, fs: seq<DerivedDefinition>, n: nat, f: DerivedDefinition)
    requires Valid(p) && Separated(p) && n <= |fs| && AllIn(fs, p.facades) && f in p.facades && TellsExactly(f) && !s.shut
    ensures var s', t := AfterFacades(p, s, fs, n), Target(Facade, f.id);
            && !s'.shut && SameKind(p, s.ps, s'.ps, Capability)
            && (Announced(s', t) <==> Announced(s, t) || !Same(p, s.ps, s'.ps, t))
            && (Same(p, s.ps, s'.ps, t) || Get(p, s'.ps, t) == Some(Derive(p, s.ps, Facade, f)))
  {
    if n != 0 {
      FacadeRoundsTell(p, s, fs, n - 1, f);
      FacadeRoundTells(p, s, AfterFacades(p, s, fs, n - 1), fs[n - 1], f);
    }
  }

  lemma FacadeRoundTells(p: ProductDefinition, s: Stage, before: Stage, g: DerivedDefinition, f: DerivedDefinition)
    requires Valid(p) && Separated(p) && g in p.facades && f in p.facades && TellsExactly(f) && !before.shut
    requires var t := Target(Facade, f.id);
             && SameKind(p, s.ps, before.ps, Capability)
             && (Announced(before, t) <==> Announced(s, t) || !Same(p, s.ps, before.ps, t))
             && (Same(p, s.ps, before.ps, t) || Get(p, before.ps, t) == Some(Derive(p, s.ps, Facade, f)))
    ensures var s', t := Evaluated(p, before, Facade, g), Target(Facade, f.id);
            && !s'.shut && SameKind(p, s.ps, s'.ps, Capability)
            && (Announced(s', t) <==> Announced(s, t) || !Same(p, s.ps, s'.ps, t))
            && (Same(p, s.ps, s'.ps, t) || Get(p, s'.ps, t) == Some(Derive(p, s.ps, Facade, f)))
  {
    var s', t := Evaluated(p, before, Facade, g), Target(Facade, f.id);
    FacadeRound(p, before, g, f);
    SameKindTransitive(p, s.ps, before.ps, s'.ps, Capability);
    EvaluatedAnnouncesOnly(p, before, Facade, g, t);
    SameCapabilitiesSameValue(p, s.ps, before.ps, f);
    if g.id == f.id {
      SameIdSameDefinition(p, Facade, f, g);
      DefinedByMembership(p, Facade, f);
      if Renews(p, before.ps, Facade, f) {
        RenewedDiffers(p, before.ps, Facade, f);
        SetKeepsOthers(p, before.ps, t, Derive(p, before.ps, Facade, f), t);
      }
    }
  }

  lemma SameCapabilitiesSameValue(p: ProductDefinition, a: Partitions, b: Partitions, f: DerivedDefinition)
    requires SameKind(p, a, b, Capability)
    ensures Derive(p, a, Facade, f) == Derive(p, b, Facade, f)
  {
    assert forall id :: Same(p, a, b, Target(Capability, id));
    SameInputsSameDerive(p, a, b, Facade, f);
  }

  /** Until the capability is announced the facade is untouched; from then on its value was changed if
      and only if it was announced. */
  ghost predicate FacadeTold(p: ProductDefinition, s: Stage, s': Stage, f: DerivedDefinition, c: DerivedDefinition) {
    var t := Target(Facade, f.id);
    && (Announced(s', t) <==> !Same(p, s.ps, s'.ps, t))
    && (!Announced(s', Target(Capability, c.id)) ==> Same(p, s.ps, s'.ps, t))
  }

  /** A round with another capability does not come near the facade. */
  lemma OtherRoundKeepsFacade(p: ProductDefinition, s: Stage, b: DerivedDefinition, f: DerivedDefinition)
    requires Valid(p) && Separated(p) && b in p.capabilities && f in p.facades && b.id !in f.required && !s.shut
    ensures var s', t := AfterCapability(p, s, b), Target(Facade, f.id);
            Same(p, s.ps, s'.ps, t) && (Announced(s', t) <==> Announced(s, t))
  {
    OtherRoundKeepsValue(p, s, b, f);
    NotInRound(p, b.id, f);
    var t, fs := Target(Facade, f.id), Dependents(p.facades, b.id);
    EvaluatedAnnouncesOnly(p, s, Capability, b, t);
    FacadeRoundsAnnounceFacades(p, Evaluated(p, s, Capability, b), fs, |fs|, t);
  }

  lemma OtherRoundKeepsValue(p: ProductDefinition, s: Stage, b: DerivedDefinition, f: DerivedDefinition)
    requires Valid(p) && Separated(p) && b in p.capabilities && f in p.facades && b.id !in f.required
    ensures Same(p, s.ps, AfterCapability(p, s, b).ps, Target(Facade, f.id))
  {
    if Renews(p, s.ps, Capability, b) {
      var t, middle, fs := Target(Facade, f.id), Evaluated(p, s, Capability, b), Dependents(p.facades, b.id);
      DefinedByMembership(p, Capability, b);
      EvaluatedEffect(p, s, Capability, b);
      assert Same(p, s.ps, middle.ps, t);
      NotInRound(p, b.id, f);
      AfterFacadesEffect(p, middle, fs, |fs|, f);
    }
  }

  lemma NotInRound(p: ProductDefinition, id: Id, f: DerivedDefinition)
    requires Valid(p) && f in p.facades && id !in f.required
    ensures var fs := Dependents(p.facades, id);
            AllIn(fs, p.facades) && !AmongFirst(fs, |fs|, f) && forall i :: 0 <= i < |fs| ==> fs[i].id != f.id
  {
    var fs := Dependents(p.facades, id);
    DependentsAreFacades(p, id);
    DependentsMembers(p.facades, id, f);
    AmongFirstIsMember(fs, |fs|, f);
    forall i | 0 <= i < |fs| ensures fs[i].id != f.id {
      if fs[i].id == f.id {
        SameIdSameDefinition(p, Facade, fs[i], f);
      }
    }
  }

  /** The round in which the capability changes tells of the facade exactly. */
  lemma FeedingRoundTells(p: ProductDefinition, s: Stage, c: DerivedDefinition, f: DerivedDefinition)
    requires Valid(p) && Separated(p) && c in p.capabilities && f in p.facades && TellsExactly(f) && !s.shut
    ensures var s', t := AfterCapability(p, s, c), Target(Facade, f.id);
            && (Announced(s', t) <==> Announced(s, t) || !Same(p, s.ps, s'.ps, t))
            && (!Announced(s', Target(Capability, c.id)) ==> s' == s)
  {
    var t, middle, fs := Target(Facade, f.id), Evaluated(p, s, Capability, c), Dependents(p.facades, c.id);
    EvaluatedAnnouncesOnly(p, s, Capability, c, Target(Capability, c.id));
    FacadeRoundsAnnounceFacades(p, middle, fs, |fs|, Target(Capability, c.id));
    DefinedByMembership(p, Capability, c);
    EvaluatedEffect(p, s, Capability, c);
    EvaluatedAnnouncesOnly(p, s, Capability, c, t);
    DependentsAreFacades(p, c.id);
    assert Same(p, s.ps, middle.ps, t);
    FacadeRoundsTell(p, middle, fs, |fs|, f);
  }

  lemma {:induction false} RoundsTellOfFacade(p: ProductDefinition, s: Stage, cs: seq<DerivedDefinition>, n: nat,
                                              d: Id, f: DerivedDefinition, c: DerivedDefinition)
    requires Valid(p) && Separated(p) && n <= |cs| && AllIn(cs, p.capabilities) && !s.shut
    requires forall i :: 0 <= i < |cs| ==> d in cs[i].required
    requires OneFeeds(p, d, f, c) && TellsExactly(f) && TellsExactly(c)
    requires !Announced(s, Target(Facade, f.id)) && !Announced(s, Target(Capability, c.id))
    ensures !AfterCapabilities(p, s, cs, n).shut && FacadeTold(p, s, AfterCapabilities(p, s, cs, n), f, c)
  {
    if n != 0 {
      RoundsTellOfFacade(p, s, cs, n - 1, d, f, c);
      RoundsTell(p, s, cs, n - 1, c);
      RoundTellsOfFacade(p, s, AfterCapabilities(p, s, cs, n - 1), cs[n - 1], d, f, c, AmongFirst(cs, n - 1, c));
    }
  }

  lemma RoundTellsOfFacade(p: ProductDefinition, s: Stage, before: Stage, b: DerivedDefinition, d: Id,
                           f: DerivedDefinition, c: DerivedDefinition, taken: bool)
    requires Valid(p) && Separated(p) && b in p.capabilities && d in b.required && !before.shut
    requires OneFeeds(p, d, f, c) && TellsExactly(f) && TellsExactly(c)
    requires FacadeTold(p, s, before, f, c) && ToldExactly(p, s, before, c, taken) && !Announced(s, Target(Capability, c.id))
    ensures !AfterCapability(p, before, b).shut && FacadeTold(p, s, AfterCapability(p, before, b), f, c)
  {
    RoundHasMore(p, before, b, Target(Capability, c.id));
    if b.id !in f.required {
      OtherRoundKeepsFacade(p, before, b, f);
    } else if Announced(before, Target(Capability, c.id)) {
      RenewedOnce(p, s, before, c, taken);
    } else {
      FeedingRoundTells(p, before, c, f);
    }
  }

  lemma RoundHasMore(p: ProductDefinition, s: Stage, b: DerivedDefinition, u: Target)
    requires !s.shut
    ensures !AfterCapability(p, s, b).shut && (Announced(s, u) ==> Announced(AfterCapability(p, s, b), u))
  {
    var middle, fs := Evaluated(p, s, Capability, b), Dependents(p.facades, b.id);
    EvaluatedAnnouncesOnly(p, s, Capability, b, u);
    FacadeRoundsAnnounceFacades(p, middle, fs, |fs|, u);
  }

  /** A capability that was announced is up to date and not renewed again. */
  lemma RenewedOnce(p: ProductDefinition, s: Stage, before: Stage, c: DerivedDefinition, taken: bool)
    requires ToldExactly(p, s, before, c, taken) && TellsExactly(c) && !Announced(s, Target(Capability, c.id))
    ensures Announced(before, Target(Capability, c.id)) ==> AfterCapability(p, before, c) == before
  {
    if Announced(before, Target(Capability, c.id)) {
      CurrentIsNotRenewed(p, before.ps, Capability, c);
    }
  }

  /** Main result: if the item feeds at most one capability of the facade, a turn announces the facade exactly
      if it changed its stored value. */
  lemma TurnAnnouncesChangedFacade(p: ProductDefinition, s: Stage, d: Id, f: DerivedDefinition, c: DerivedDefinition)
    requires Valid(p) && Separated(p) && AllTellExactly(p) && !s.shut && s.published == [] && d != INVALID_DATA_ID
    requires OneFeeds(p, d, f, c)
    ensures Announced(Processed(p, s, d), Target(Facade, f.id)) <==> !Same(p, s.ps, Processed(p, s, d).ps, Target(Facade, f.id))
  {
    var told, cs := Published(p, s, Target(Data, d)), Dependents(p.capabilities, d);
    PublishedTargets(p, s, Target(Data, d));
    DependentsAreCapabilities(p, d);
    forall i | 0 <= i < |cs| ensures d in cs[i].required {
      DependentsMembers(p.capabilities, d, cs[i]);
    }
    RoundsTellOfFacade(p, told, cs, |cs|, d, f, c);
  }

  // The order of a turn's announcements.

  ghost predicate Asks(p: ProductDefinition, u: Target, c: Target) {
    c.kind == Capability && exists f :: f in p.facades && f.id == u.id && c.id in f.required
  }

  /** The item stands first, and a facade after a capability that it requires. */
  ghost predicate PlacedWell(p: ProductDefinition, q: seq<PublisherInput>, d: Id, j: nat)
    requires j < |q|
  {
    && q[j].priority == Low
    && (if j == 0 then q[j].target == Target(Data, d) else q[j].target.kind != Data)
    && (q[j].target.kind == Facade ==> exists i :: 0 <= i < j && Asks(p, q[j].target, q[i].target))
  }

  ghost predicate WellOrdered(p: ProductDefinition, q: seq<PublisherInput>, d: Id) {
    q != [] && forall j :: 0 <= j < |q| ==> PlacedWell(p, q, d, j)
  }

  lemma OrderedIsLow(p: ProductDefinition, q: seq<PublisherInput>, d: Id)
    requires WellOrdered(p, q, d)
    ensures AllLow(q)
  {
    forall j | 0 <= j < |q| ensures q[j].priority == Low {
      assert PlacedWell(p, q, d, j);
    }
  }

  lemma AppendKeepsOrder(p: ProductDefinition, q: seq<PublisherInput>, d: Id, e: PublisherInput)
    requires WellOrdered(p, q, d) && e.priority == Low && e.target.kind != Data
    requires e.target.kind == Facade ==> exists i :: 0 <= i < |q| && Asks(p, e.target, q[i].target)
    ensures WellOrdered(p, q + [e], d)
  {
    var r := q + [e];
    forall j | 0 <= j < |r| ensures PlacedWell(p, r, d, j) {
      assert j < |q| ==> PlacedWell(p, q, d, j);
      if r[j].target.kind == Facade {
        var i :| 0 <= i < j && Asks(p, r[j].target, q[i].target);
        assert Asks(p, r[j].target, r[i].target);
      }
    }
  }

  lemma RemovalKeepsOrder(p: ProductDefinition, q: seq<PublisherInput>, d: Id, k: nat)
    requires WellOrdered(p, q, d) && (k < |q| ==> q[k].target.kind == Facade)
    ensures WellOrdered(p, RemoveAt(q, k), d)
    ensures forall c: Target :: c.kind == Capability && c in Targets(q) ==> c in Targets(RemoveAt(q, k))
  {
    if k < |q| {
      var r := RemoveAt(q, k);
      assert PlacedWell(p, q, d, k);
      assert forall j :: 0 <= j < |r| ==> r[j] == q[if j < k then j else j + 1];
      forall j | 0 <= j < |r| ensures PlacedWell(p, r, d, j) {
        var m := if j < k then j else j + 1;
        assert PlacedWell(p, q, d, m);
        if r[j].target.kind == Facade {
          var i :| 0 <= i < m && Asks(p, q[m].target, q[i].target);
          assert i != k && Asks(p, r[j].target, r[if i < k then i else i - 1].target);
        }
      }
      forall c: Target | c.kind == Capability && c in Targets(q) ensures c in Targets(r) {
        var i :| 0 <= i < |q| && q[i].target == c;
        assert r[if i < k then i else i - 1].target == c;
      }
    }
  }

  lemma FacadeKeepsOrder(p: ProductDefinition, q: seq<PublisherInput>, d: Id, u: Target, c: Target)
    requires WellOrdered(p, q, d) && u.kind == Facade && c in Targets(q) && Asks(p, u, c)
    ensures WellOrdered(p, Announce(p, q, u), d) && c in Targets(Announce(p, q, u))
  {
    OrderedIsLow(p, q, d);
    var e := InputFor(p, u);
    var same := FirstIndex(q, HasTargetOf(e, PLAIN.input));
    LowGoesLast(p, q, u);
    InsertLosesNoTarget(q, e);
    var kept := if e.compression == KeepLatest then RemoveAt(q, same) else q;
    assert same < |q| ==> q[same].target.kind == Facade;
    RemovalKeepsOrder(p, q, d, same);
    var i :| 0 <= i < |kept| && kept[i].target == c;
    AppendKeepsOrder(p, kept, d, e);
  }

  lemma CapabilityKeepsOrder(p: ProductDefinition, q: seq<PublisherInput>, d: Id, c: Target)
    requires WellOrdered(p, q, d) && c.kind == Capability && c !in Targets(q)
    ensures WellOrdered(p, Announce(p, q, c), d) && c in Targets(Announce(p, q, c))
  {
    OrderedIsLow(p, q, d);
    var e := InputFor(p, c);
    LowGoesLast(p, q, c);
    InsertLosesNoTarget(q, e);
    forall i | 0 <= i < |q| ensures !HasTargetOf(e, PLAIN.input)(q[i]) {
      assert q[i].target in Targets(q);
    }
    AppendKeepsOrder(p, q, d, e);
  }

  lemma {:induction false} FacadeRoundsKeepOrder(p: ProductDefinition, s: Stage, fs: seq<DerivedDefinition>, n: nat, d: Id, c: Target)
    requires n <= |fs| && !s.shut && WellOrdered(p, s.published, d) && c in Targets(s.published) && c.kind == Capability
    requires forall i :: 0 <= i < |fs| ==> fs[i] in p.facades && c.id in fs[i].required
    ensures var s' := AfterFacades(p, s, fs, n); !s'.shut && WellOrdered(p, s'.published, d) && c in Targets(s'.published)
  {
    if n != 0 {
      FacadeRoundsKeepOrder(p, s, fs, n - 1, d, c);
      var before, f := AfterFacades(p, s, fs, n - 1), fs[n - 1];
      if Renews(p, before.ps, Facade, f) {
        FacadeKeepsOrder(p, before.published, d, Target(Facade, f.id), c);
      }
    }
  }

  lemma RoundKeepsOrder(p: ProductDefinition, s: Stage, d: Id, c: DerivedDefinition)
    requires !s.shut && WellOrdered(p, s.published, d)
    requires Announced(s, Target(Capability, c.id)) ==> AfterCapability(p, s, c) == s
    ensures WellOrdered(p, AfterCapability(p, s, c).published, d)
  {
    var t, fs := Target(Capability, c.id), Dependents(p.facades, c.id);
    if !Announced(s, t) && Renews(p, s.ps, Capability, c) {
      CapabilityKeepsOrder(p, s.published, d, t);
      forall i | 0 <= i < |fs| ensures fs[i] in p.facades && c.id in fs[i].required {
        DependentsMembers(p.facades, c.id, fs[i]);
      }
      FacadeRoundsKeepOrder(p, Evaluated(p, s, Capability, c), fs, |fs|, d, t);
    }
  }

  ghost predicate NoCapabilityYet(s: Stage) {
    forall u: Target :: u.kind == Capability ==> !Announced(s, u)
  }

  lemma {:induction false} RoundsKeepOrder(p: ProductDefinition, s: Stage, cs: seq<DerivedDefinition>, n: nat, d: Id)
    requires Valid(p) && Separated(p) && AllTellExactly(p) && n <= |cs| && AllIn(cs, p.capabilities) && !s.shut
    requires WellOrdered(p, s.published, d) && NoCapabilityYet(s)
    ensures var s' := AfterCapabilities(p, s, cs, n); !s'.shut && WellOrdered(p, s'.published, d)
  {
    if n != 0 {
      RoundsKeepOrder(p, s, cs, n - 1, d);
      RoundsTell(p, s, cs, n - 1, cs[n - 1]);
      NextRoundKeepsOrder(p, s, AfterCapabilities(p, s, cs, n - 1), d, cs[n - 1], AmongFirst(cs, n - 1, cs[n - 1]));
    }
  }

  lemma NextRoundKeepsOrder(p: ProductDefinition, s: Stage, before: Stage, d: Id, c: DerivedDefinition, taken: bool)
    requires NoCapabilityYet(s) && TellsExactly(c) && ToldExactly(p, s, before, c, taken)
    requires !before.shut && WellOrdered(p, before.published, d)
    ensures var s' := AfterCapability(p, before, c); !s'.shut && WellOrdered(p, s'.published, d)
  {
    RenewedOnce(p, s, before, c, taken);
    RoundKeepsOrder(p, before, d, c);
    RoundHasMore(p, before, c, Target(Capability, c.id));
  }

  /** Main result: from an emptied queue, a turn announces the item first, and every facade after a
      capability that it requires, whatever the routes compress. */
  lemma TurnAnnouncesInOrder(p: ProductDefinition, s: Stage, d: Id)
    requires Valid(p) && Separated(p) && AllTellExactly(p) && !s.shut && s.published == [] && d != INVALID_DATA_ID
    ensures WellOrdered(p, Processed(p, s, d).published, d)
  {
    var told, cs := Published(p, s, Target(Data, d)), Dependents(p.capabilities, d);
    InsertedIntoEmpty(InputFor(p, Target(Data, d)));
    DependentsAreCapabilities(p, d);
    RoundsKeepOrder(p, told, cs, |cs|, d);
  }
}
