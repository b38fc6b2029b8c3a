/** The other half of the one-route condition: a facade whose capabilities live on two routes can go
    stale even though every capability has all its inputs on one. */
module FacadeRace {
  import opened Values
  import opened Product
  import opened Storage
  import opened Context
  import opened Partitioning
  import opened Snapshots
  import opened SnapshotAgreement
  import opened Evaluation
  import opened Derivation
  import opened Pipeline
  import opened Consistency
  import opened Interleaving
  import opened OneRouteWork
  import opened Grain
  import opened Schedules
  import opened RouteRace

  /** The first item feeds only `c`, the second only `d`, and these two feed only the facade `f`. */
  ghost predicate Feeds(p: ProductDefinition, f: DerivedDefinition, c: DerivedDefinition, d: DerivedDefinition,
                        first: RIMDataItem, second: RIMDataItem)
  {
    && f in p.facades && c != d
    && Dependents(p.capabilities, first.id) == [c] && Dependents(p.capabilities, second.id) == [d]
    && Dependents(p.facades, c.id) == [f] && Dependents(p.facades, d.id) == [f]
    && Accepted(p, first).Some? && Accepted(p, second).Some?
    && RouteNameOf(p, first.id) != RouteNameOf(p, second.id)
  }

  /** The store once an item was written and the capability it feeds evaluated. */
  function Fed(p: ProductDefinition, ps: Partitions, x: DerivedDefinition, item: RIMDataItem): Partitions
    requires Accepted(p, item).Some?
  {
    Evaluated(p, Stage(AfterStore(p, ps, Accepted(p, item).value), [], false), Capability, x).ps
  }

  /** The values of `f` that the first item implies, and that both imply. */
  function FirstFacade(p: ProductDefinition, f: DerivedDefinition, c: DerivedDefinition, first: RIMDataItem): RIMValue
    requires Accepted(p, first).Some?
  {
    Derive(p, Fed(p, map[], c, first), Facade, f)
  }

  function BothFacade(p: ProductDefinition, f: DerivedDefinition, c: DerivedDefinition, d: DerivedDefinition,
                      first: RIMDataItem, second: RIMDataItem): RIMValue
    requires Accepted(p, first).Some? && Accepted(p, second).Some?
  {
    Derive(p, Fed(p, Fed(p, map[], c, first), d, second), Facade, f)
  }

  // The steps of the two workers.

  lemma OnlyDependent(p: ProductDefinition, id: Id, c: DerivedDefinition)
    requires Dependents(p.capabilities, id) == [c]
    ensures c in p.capabilities && Defined(p, Target(Capability, c.id))
  {
    DependentsMembers(p.capabilities, id, c);
    DefinedByMembership(p, Capability, c);
  }

  /** Told of the change, the first worker evaluates `c` and decides on the first value of `f`. */
  lemma DecidesOnFacade(p: ProductDefinition, s: Solo, id: Id, c: DerivedDefinition, f: DerivedDefinition) returns (decided: Solo)
    requires Workable(p, s.ps) && s.pc == Told(id) && f in p.facades
    requires Dependents(p.capabilities, id) == [c] && Dependents(p.facades, c.id) == [f]
    requires Get(p, s.ps, Target(Capability, c.id)) == None && Get(p, s.ps, Target(Facade, f.id)) == None
    ensures var ps := Evaluated(p, Stage(s.ps, [], false), Capability, c).ps;
            && Leads(p, s, decided) && decided.ps == ps && Tidy(p, ps)
            && decided.pc == Decided(Facade, f, Derive(p, ps, Facade, f), [], [])
  {
    var ended := EvaluatesOnly(p, s, id, c);
    OnlyDependent(p, id, c);
    EvaluatedEffect(p, Stage(s.ps, [], false), Capability, c);
    assert Same(p, s.ps, ended.ps, Target(Facade, f.id));
    decided := DecidesNext(p, ended, f);
    LeadsOn(p, s, ended, decided);
  }

  lemma EvaluatesOnly(p: ProductDefinition, s: Solo, id: Id, c: DerivedDefinition) returns (ended: Solo)
    requires Workable(p, s.ps) && s.pc == Told(id) && Dependents(p.capabilities, id) == [c]
    requires Get(p, s.ps, Target(Capability, c.id)) == None
    ensures Leads(p, s, ended) && ended.pc == Next(Dependents(p.facades, c.id), []) && Tidy(p, ended.ps)
    ensures ended.ps == Evaluated(p, Stage(s.ps, [], false), Capability, c).ps
  {
    OnlyDependent(p, id, c);
    var told := ToldGoesOn(p, s, id);
    var taken := SoloStep(p, told);
    LeadsOneMore(p, s, told);
    EvaluatesAlone(p, taken, Capability, c, [], []);
    ended := Ended(p, taken, Capability, c, [], []);
    LeadsOn(p, s, taken, ended);
    assert Apart(p, Target(Capability, c.id), Target(Capability, c.id));
  }

  lemma DecidesNext(p: ProductDefinition, s: Solo, f: DerivedDefinition) returns (decided: Solo)
    requires Workable(p, s.ps) && s.pc == Next([f], []) && f in p.facades && Get(p, s.ps, Target(Facade, f.id)) == None
    ensures Leads(p, s, decided) && decided == s.(pc := Decided(Facade, f, Derive(p, s.ps, Facade, f), [], []))
  {
    var n := Reads(p, Facade, f);
    LeadsNowhere(p, s);
    LeadsOneMore(p, s, s);
    var taken := SoloStep(p, s);
    var seen := ReadsAlone(p, taken, Facade, f, n, [], []);
    FreshDerives(p, s.ps, Facade, f, seen);
    DefinedByMembership(p, Facade, f);
    assert Apart(p, Target(Facade, f.id), Target(Facade, f.id));
    var read := taken.(pc := Reading(Facade, f, n, seen, [], []));
    LeadsOn(p, s, taken, read);
    LeadsOneMore(p, s, read);
    decided := SoloStep(p, read);
  }

  /** The second worker's whole turn evaluates `d` and touches no other data and no other capability. */
  lemma TakesFacadeTurn(p: ProductDefinition, s: Solo, id: Id, d: DerivedDefinition) returns (rested: Solo)
    requires Workable(p, s.ps) && s.pc == Told(id) && Dependents(p.capabilities, id) == [d]
    ensures Leads(p, s, rested) && rested.pc == Resting && Tidy(p, rested.ps)
    ensures SameKind(p, Evaluated(p, Stage(s.ps, [], false), Capability, d).ps, rested.ps, Capability)
  {
    OnlyDependent(p, id, d);
    var told := ToldGoesOn(p, s, id);
    assert [d] == [d] + [];
    CapabilityAlone(p, told, d, []);
    var stage := Stage(told.ps, told.published, false);
    var after := AfterCapability(p, stage, d);
    var finished := Solo(after.ps, after.published, Next([], []));
    LeadsOn(p, s, told, finished);
    LeadsOneMore(p, s, finished);
    rested := SoloStep(p, finished);
    DependentsAreFacades(p, d.id);
    FacadesKeepOtherKinds(p, Evaluated(p, stage, Capability, d), Dependents(p.facades, d.id));
  }

  /** The first worker writes what it had decided. */
  lemma WritesFacade(p: ProductDefinition, s: Solo, f: DerivedDefinition, v: RIMValue) returns (rested: Solo)
    requires Separated(p) && f in p.facades && s.pc == Decided(Facade, f, v, [], [])
    ensures Leads(p, s, rested) && rested.pc == Resting
    ensures SameKind(p, s.ps, rested.ps, Capability) && Get(p, rested.ps, Target(Facade, f.id)) == Some(v)
  {
    LeadsNowhere(p, s);
    LeadsOneMore(p, s, s);
    var stored := SoloStep(p, s);
    assert stored.pc == Stored(Facade, f, [], []) && stored.ps == Set(p, s.ps, Target(Facade, f.id), v);
    LeadsOneMore(p, s, stored);
    rested := RestsAfterStoring(p, s, stored, f);
    FacadeSet(p, s.ps, f, v);
  }

  lemma RestsAfterStoring(p: ProductDefinition, s: Solo, stored: Solo, f: DerivedDefinition) returns (rested: Solo)
    requires Leads(p, s, stored) && stored.pc == Stored(Facade, f, [], [])
    ensures Leads(p, s, rested) && rested.pc == Resting && rested.ps == stored.ps
  {
    LeadsOneMore(p, s, stored);
    var next := SoloStep(p, stored);
    LeadsOneMore(p, s, next);
    rested := SoloStep(p, next);
  }

  lemma FacadeSet(p: ProductDefinition, ps: Partitions, f: DerivedDefinition, v: RIMValue)
    requires Separated(p) && f in p.facades
    ensures var ps' := Set(p, ps, Target(Facade, f.id), v);
            SameKind(p, ps, ps', Capability) && Get(p, ps', Target(Facade, f.id)) == Some(v)
  {
    var t := Target(Facade, f.id);
    DefinedByMembership(p, Facade, f);
    forall u: Target | u.kind == Capability ensures Same(p, ps, Set(p, ps, t, v), u) {
      SetKeepsOthers(p, ps, t, v, u);
    }
    SetKeepsOthers(p, ps, t, v, t);
  }

  // The race.

  lemma NothingDerivedYet(p: ProductDefinition, item: RIMDataItem, t: Target)
    requires Separated(p) && Accepted(p, item).Some? && t.kind != Data
    ensures Get(p, AfterStore(p, map[], Accepted(p, item).value), t) == None
  {
    NewItemIsWritten(p, map[], item);
    AfterStoreEffect(p, map[], Accepted(p, item).value);
    assert Same(p, map[], AfterStore(p, map[], Accepted(p, item).value), t);
  }

  /** The first half: the first worker has decided on `f`. */
  lemma FacadeDecided(p: ProductDefinition, f: DerivedDefinition, c: DerivedDefinition, d: DerivedDefinition,
                      first: RIMDataItem, second: RIMDataItem) returns (moves: seq<Move>)
    requires Valid(p) && Separated(p) && UsesValidIds(p) && Feeds(p, f, c, d, first, second)
    ensures var w, a := Reach(p, moves), RouteNameOf(p, first.id).value;
            && w.locals == map[a := IDLE.(workPc := Decided(Facade, f, FirstFacade(p, f, c, first), [], []))]
            && w.ps == Fed(p, map[], c, first) && Tidy(p, w.ps)
  {
    moves := StoresFirst(p, c, first);
    NothingDerivedYet(p, first, Target(Facade, f.id));
    var w, a := Reach(p, moves), RouteNameOf(p, first.id).value;
    var decided := DecidesOnFacade(p, Solo(w.ps, w.published, Told(first.id)), first.id, c, f);
    moves := ContinueTo(p, moves, a, decided);
    LastEntryStays(a, IDLE.(workPc := Told(first.id)), IDLE.(workPc := decided.pc));
  }

  /** Then the second item is stored, and the worker of its route told. */
  lemma SecondTold(p: ProductDefinition, f: DerivedDefinition, c: DerivedDefinition, d: DerivedDefinition,
                   first: RIMDataItem, second: RIMDataItem) returns (moves: seq<Move>)
    requires Valid(p) && Separated(p) && UsesValidIds(p) && Feeds(p, f, c, d, first, second)
    ensures var w, a, b := Reach(p, moves), RouteNameOf(p, first.id).value, RouteNameOf(p, second.id).value;
            && w.locals == map[a := IDLE.(workPc := Decided(Facade, f, FirstFacade(p, f, c, first), [], [])),
                               b := IDLE.(workPc := Told(second.id))]
            && w.ps == AfterStore(p, Fed(p, map[], c, first), Accepted(p, second).value) && Tidy(p, w.ps)
  {
    moves := FacadeDecided(p, f, c, d, first, second);
    var w, ps := Reach(p, moves), AfterStore(p, map[], Accepted(p, first).value);
    SecondIsNew(p, first, second);
    OnlyDependent(p, first.id, c);
    EvaluatedEffect(p, Stage(ps, [], false), Capability, c);
    assert Same(p, ps, w.ps, Target(Data, second.id));
    NewItemIsWritten(p, w.ps, second);
    moves := DeliverTo(p, moves, second);
    StoredIsTidy(p, w.ps, Accepted(p, second).value);
  }

  lemma SameCapabilitiesSameFacade(p: ProductDefinition, a: Partitions, b: Partitions, f: DerivedDefinition)
    requires SameKind(p, a, b, Capability)
    ensures Derive(p, a, Facade, f) == Derive(p, b, Facade, f)
  {
    assert forall id :: Same(p, a, b, Target(Capability, id));
    SameInputsSameDerive(p, a, b, Facade, f);
  }

  lemma OtherFacadeIsNotBatch(p: ProductDefinition, ps: Partitions, f: DerivedDefinition)
    requires f in p.facades && Get(p, ps, Target(Facade, f.id)).Some?
    requires Get(p, ps, Target(Facade, f.id)).value != Derive(p, ps, Facade, f)
    ensures !HoldsBatch(p, ps)
  {
    if HoldsBatch(p, ps) {
      assert FacadeIsBatch(p, ps, f);
      InputsAreBatchInputs(p, ps, f.required, |f.required|);
    }
  }

  /** Main result: if the builder of `f` notices the second item, there is an interleaving after which
      all queues are empty and all workers idle, and `f` holds the value that ignores the second item.
      Nothing asks that a capability has inputs on two routes. */
  lemma FacadeGoesStale(p: ProductDefinition, f: DerivedDefinition, c: DerivedDefinition, d: DerivedDefinition,
                        first: RIMDataItem, second: RIMDataItem) returns (moves: seq<Move>)
    requires Valid(p) && Separated(p) && UsesValidIds(p) && Feeds(p, f, c, d, first, second)
    requires FirstFacade(p, f, c, first) != BothFacade(p, f, c, d, first, second)
    ensures var w := Reach(p, moves);
            && (forall route :: LocalOf(w, route) == IDLE)
            && Get(p, w.ps, Target(Facade, f.id)) == Some(FirstFacade(p, f, c, first))
            && Derive(p, w.ps, Facade, f) == BothFacade(p, f, c, d, first, second)
            && !HoldsBatch(p, w.ps)
  {
    var a, b := RouteNameOf(p, first.id).value, RouteNameOf(p, second.id).value;
    moves := SecondTold(p, f, c, d, first, second);
    var w := Reach(p, moves);
    var told := TakesFacadeTurn(p, Solo(w.ps, w.published, Told(second.id)), second.id, d);
    moves := ContinueTo(p, moves, b, told);
    var w' := Reach(p, moves);
    var written := WritesFacade(p, Solo(w'.ps, w'.published, LocalOf(w', a).workPc), f, FirstFacade(p, f, c, first));
    moves := ContinueTo(p, moves, a, written);
    var both := Fed(p, Fed(p, map[], c, first), d, second);
    SameKindTransitive(p, both, told.ps, written.ps, Capability);
    SameCapabilitiesSameFacade(p, both, written.ps, f);
    OtherFacadeIsNotBatch(p, written.ps, f);
  }
}
