/** Why the fine-grained result asks for one route: as soon as a capability has inputs on two routes and
    its builder tells them apart, some interleaving leaves it stale for good. */
module RouteRace {
  import opened Values
  import opened Queues
  import opened Product
  import opened Storage
  import opened Context
  import opened Partitioning
  import opened Snapshots
  import opened SnapshotAgreement
  import opened Evaluation
  import opened Derivation
  import opened Pipeline
  import opened Consistency
  import opened Interleaving
  import opened OneRouteWork
  import opened Grain
  import opened Schedules

  // What a round does, whatever was stored before it.

  /** Evaluated now, `c` gets the value that the data imply, or holds it already. */
  ghost predicate Yields(p: ProductDefinition, ps: Partitions, c: DerivedDefinition) {
    match Get(p, ps, Target(Capability, c.id))
    case None => true
    case Some(v) => v == Derive(p, ps, Capability, c) || c.diff(v, Derive(p, ps, Capability, c))
  }

  lemma YieldingTakesValue(p: ProductDefinition, s: Stage, c: DerivedDefinition)
    requires Separated(p) && Defined(p, Target(Capability, c.id)) && Yields(p, s.ps, c)
    ensures Get(p, Evaluated(p, s, Capability, c).ps, Target(Capability, c.id)) == Some(Derive(p, s.ps, Capability, c))
  {
    var t := Target(Capability, c.id);
    SetKeepsOthers(p, s.ps, t, Derive(p, s.ps, Capability, c), t);
    assert Apart(p, t, t);
  }

  lemma CapabilityTouches(p: ProductDefinition, s: Stage, c: DerivedDefinition, d: DerivedDefinition)
    requires Valid(p) && Separated(p) && c in p.capabilities && d in p.capabilities
    ensures SameKind(p, s.ps, AfterCapability(p, s, c).ps, Data)
    ensures c != d ==> Same(p, s.ps, AfterCapability(p, s, c).ps, Target(Capability, d.id))
    ensures c == d && Yields(p, s.ps, c) ==>
            Get(p, AfterCapability(p, s, c).ps, Target(Capability, c.id)) == Some(Derive(p, s.ps, Capability, c))
  {
    DefinedByMembership(p, Capability, c);
    EvaluatedEffect(p, s, Capability, c);
    if Yields(p, s.ps, c) {
      YieldingTakesValue(p, s, c);
    }
    var middle, fs := Evaluated(p, s, Capability, c), Dependents(p.facades, c.id);
    DependentsAreFacades(p, c.id);
    FacadesKeepOtherKinds(p, middle, fs);
    if c.id == d.id {
      SameIdSameDefinition(p, Capability, c, d);
    }
    SameKindTransitive(p, s.ps, middle.ps, AfterFacades(p, middle, fs, |fs|).ps, Data);
    assert Same(p, middle.ps, AfterFacades(p, middle, fs, |fs|).ps, Target(Capability, d.id));
  }

  lemma {:induction false} CapabilitiesTouch(p: ProductDefinition, s: Stage, cs: seq<DerivedDefinition>, n: nat, d: DerivedDefinition)
    requires Valid(p) && Separated(p) && n <= |cs| && AllIn(cs, p.capabilities) && d in p.capabilities
    ensures SameKind(p, s.ps, AfterCapabilities(p, s, cs, n).ps, Data)
    ensures !AmongFirst(cs, n, d) ==> Same(p, s.ps, AfterCapabilities(p, s, cs, n).ps, Target(Capability, d.id))
    ensures AmongFirst(cs, n, d) && Yields(p, s.ps, d) ==>
            Get(p, AfterCapabilities(p, s, cs, n).ps, Target(Capability, d.id)) == Some(Derive(p, s.ps, Capability, d))
  {
    if n != 0 {
      CapabilitiesTouch(p, s, cs, n - 1, d);
      var before := AfterCapabilities(p, s, cs, n - 1);
      SameDataSameDerive(p, s.ps, before.ps, d);
      CapabilityTouches(p, before, cs[n - 1], d);
      SameKindTransitive(p, s.ps, before.ps, AfterCapabilities(p, s, cs, n).ps, Data);
    }
  }

  lemma SameDataSameDerive(p: ProductDefinition, a: Partitions, b: Partitions, c: DerivedDefinition)
    requires SameKind(p, a, b, Data)
    ensures Derive(p, a, Capability, c) == Derive(p, b, Capability, c)
  {
    assert forall id :: Same(p, a, b, Target(Data, id));
    SameInputsSameDerive(p, a, b, Capability, c);
  }

  // The worker that will write late.

  ghost predicate Holds(p: ProductDefinition, ps: Partitions, c: DerivedDefinition, v: RIMValue) {
    Get(p, ps, Target(Capability, c.id)) == Some(v)
  }

  /** The first `n` rounds of a turn, seen from a capability that they may take up. */
  lemma RoundsAlone(p: ProductDefinition, s: Solo, cs: seq<DerivedDefinition>, n: nat, c: DerivedDefinition) returns (here: Solo)
    requires Workable(p, s.ps) && s.pc == Next([], cs) && n <= |cs| && AllIn(cs, p.capabilities)
    requires c in p.capabilities
    ensures Leads(p, s, here) && here.pc == Next([], cs[n..])
    ensures Tidy(p, here.ps) && SameKind(p, s.ps, here.ps, Data)
    ensures !AmongFirst(cs, n, c) ==> Same(p, s.ps, here.ps, Target(Capability, c.id))
    ensures AmongFirst(cs, n, c) && Yields(p, s.ps, c) ==> Holds(p, here.ps, c, Derive(p, s.ps, Capability, c))
  {
    CapabilitiesAlone(p, s, cs, n);
    var stage := Stage(s.ps, s.published, false);
    CapabilitiesTouch(p, stage, cs, n, c);
    here := Solo(AfterCapabilities(p, stage, cs, n).ps, AfterCapabilities(p, stage, cs, n).published, Next([], cs[n..]));
  }

  lemma ToldGoesOn(p: ProductDefinition, s: Solo, d: Id) returns (told: Solo)
    requires s.pc == Told(d)
    ensures Leads(p, s, told) && told.ps == s.ps && told.pc == Next([], Dependents(p.capabilities, d))
  {
    told := SoloStep(p, s);
    LeadsNowhere(p, s);
    LeadsOneMore(p, s, s);
  }

  /** Told of a change, the worker comes to its last round with `c`, which holds nothing or the value
      that the data imply. */
  lemma ComesToRound(p: ProductDefinition, s: Solo, d: Id, c: DerivedDefinition, j: nat) returns (here: Solo)
    requires Workable(p, s.ps) && s.pc == Told(d) && c in p.capabilities
    requires var cs := Dependents(p.capabilities, d); j < |cs| && cs[j] == c
    requires Get(p, s.ps, Target(Capability, c.id)) == None
    ensures Leads(p, s, here) && here.pc == Next([], [c] + Dependents(p.capabilities, d)[j + 1..])
    ensures Tidy(p, here.ps) && SameKind(p, s.ps, here.ps, Data)
    ensures AtMost(p, here.ps, c, Derive(p, s.ps, Capability, c))
    ensures !AmongFirst(Dependents(p.capabilities, d), j, c) ==> Get(p, here.ps, Target(Capability, c.id)) == None
  {
    var cs := Dependents(p.capabilities, d);
    DependentsAreCapabilities(p, d);
    var told := ToldGoesOn(p, s, d);
    here := RoundsAlone(p, told, cs, j, c);
    LeadsOn(p, s, told, here);
    FromOn(cs, j);
  }

  /** `c` holds nothing or `v`. */
  ghost predicate AtMost(p: ProductDefinition, ps: Partitions, c: DerivedDefinition, v: RIMValue) {
    var stored := Get(p, ps, Target(Capability, c.id));
    stored.Some? ==> stored.value == v
  }

  lemma FromOn(xs: seq<DerivedDefinition>, j: nat)
    requires j < |xs|
    ensures xs[j..] == [xs[j]] + xs[j + 1..]
  {
  }

  /** The worker has read its snapshot of `c`, which shows `v`, or has decided to write `v`. */
  ghost predicate Poised(p: ProductDefinition, pc: WorkPc, c: DerivedDefinition, v: RIMValue, todo: seq<DerivedDefinition>) {
    match pc
    case Reading(kind, x, k, seen, fs, rest) =>
      kind == Capability && x == c && k == Reads(p, kind, x) && fs == [] && rest == todo && DeriveSeen(c, seen) == v
    case Decided(_, _, _, _, _) => pc == Decided(Capability, c, v, [], todo)
    case _ => false
  }

  /** And so to the point where it has read its snapshot for the last time. */
  lemma ReadsOn(p: ProductDefinition, s: Solo, c: DerivedDefinition, todo: seq<DerivedDefinition>) returns (read: Solo)
    requires Workable(p, s.ps) && s.pc == Next([], [c] + todo) && c in p.capabilities
    ensures Leads(p, s, read) && read == s.(pc := read.pc) && read.pc.Reading?
    ensures Poised(p, read.pc, c, Derive(p, s.ps, Capability, c), todo)
  {
    assert ([c] + todo)[1..] == todo;
    LeadsNowhere(p, s);
    LeadsOneMore(p, s, s);
    var taken := SoloStep(p, s);
    var seen := ReadsAlone(p, taken, Capability, c, Reads(p, Capability, c), [], todo);
    FreshDerives(p, s.ps, Capability, c, seen);
    read := taken.(pc := Reading(Capability, c, Reads(p, Capability, c), seen, [], todo));
    LeadsOn(p, s, taken, read);
  }

  /** `c` holds nothing, or something its diff tells from `v`. */
  ghost predicate Accepts(p: ProductDefinition, ps: Partitions, c: DerivedDefinition, v: RIMValue) {
    var stored := Get(p, ps, Target(Capability, c.id));
    stored.None? || c.diff(stored.value, v)
  }

  lemma DecidesOn(p: ProductDefinition, s: Solo, c: DerivedDefinition, v: RIMValue, todo: seq<DerivedDefinition>)
    returns (decided: Solo)
    requires Separated(p) && Poised(p, s.pc, c, v, todo) && c in p.capabilities
    requires s.pc.Decided? || Accepts(p, s.ps, c, v)
    ensures Leads(p, s, decided) && decided == s.(pc := Decided(Capability, c, v, [], todo))
  {
    LeadsNowhere(p, s);
    if s.pc.Decided? {
      decided := s;
    } else {
      LeadsOneMore(p, s, s);
      DefinedByMembership(p, Capability, c);
      assert Apart(p, Target(Capability, c.id), Target(Capability, c.id));
      decided := SoloStep(p, s);
    }
  }

  /** So one worker is held: before its decision, or after it if `c` held nothing. */
  lemma RunsUntilPoised(p: ProductDefinition, s: Solo, d: Id, c: DerivedDefinition, j: nat) returns (poised: Solo)
    requires Workable(p, s.ps) && s.pc == Told(d) && c in p.capabilities
    requires var cs := Dependents(p.capabilities, d); j < |cs| && cs[j] == c
    requires Get(p, s.ps, Target(Capability, c.id)) == None
    ensures Leads(p, s, poised) && Tidy(p, poised.ps) && SameKind(p, s.ps, poised.ps, Data)
    ensures var v := Derive(p, s.ps, Capability, c);
            AtMost(p, poised.ps, c, v) && Poised(p, poised.pc, c, v, Dependents(p.capabilities, d)[j + 1..])
    ensures !AmongFirst(Dependents(p.capabilities, d), j, c) ==> poised.pc.Decided?
  {
    var v, todo := Derive(p, s.ps, Capability, c), Dependents(p.capabilities, d)[j + 1..];
    var here := ComesToRound(p, s, d, c, j);
    SameDataSameDerive(p, s.ps, here.ps, c);
    poised := ReadsOn(p, here, c, todo);
    LeadsOn(p, s, here, poised);
    if Get(p, here.ps, Target(Capability, c.id)) == None {
      var decided := DecidesOn(p, poised, c, v, todo);
      LeadsOn(p, s, poised, decided);
      poised := decided;
    }
  }

  lemma WritesAlone(p: ProductDefinition, s: Solo, c: DerivedDefinition, v: RIMValue, todo: seq<DerivedDefinition>)
    returns (written: Solo)
    requires Workable(p, s.ps) && s.pc == Decided(Capability, c, v, [], todo) && c in p.capabilities
    ensures Leads(p, s, written) && written.pc == Next(Dependents(p.facades, c.id), todo)
    ensures Tidy(p, written.ps) && SameKind(p, s.ps, written.ps, Data) && Get(p, written.ps, Target(Capability, c.id)) == Some(v)
  {
    LeadsNowhere(p, s);
    LeadsOneMore(p, s, s);
    LeadsOneMore(p, s, SoloStep(p, s));
    written := SoloStep(p, SoloStep(p, s));
    DefinedByMembership(p, Capability, c);
    SetKeepsTidy(p, s.ps, Target(Capability, c.id), v);
    forall u: Target ensures u.kind == Data ==> Same(p, s.ps, written.ps, u) {
      SetKeepsOthers(p, s.ps, Target(Capability, c.id), v, u);
    }
    SetKeepsOthers(p, s.ps, Target(Capability, c.id), v, Target(Capability, c.id));
  }

  /** Once decided, it writes that value, whatever was stored since, and does not come back to `c`. */
  lemma WritesDecision(p: ProductDefinition, s: Solo, c: DerivedDefinition, v: RIMValue, todo: seq<DerivedDefinition>)
    returns (rested: Solo)
    requires Workable(p, s.ps) && s.pc == Decided(Capability, c, v, [], todo)
    requires c in p.capabilities && AllIn(todo, p.capabilities) && !AmongFirst(todo, |todo|, c)
    ensures Leads(p, s, rested) && rested.pc == Resting
    ensures SameKind(p, s.ps, rested.ps, Data) && Get(p, rested.ps, Target(Capability, c.id)) == Some(v)
  {
    var written := WritesAlone(p, s, c, v, todo);
    var facades := FinishesFacades(p, written, c, todo);
    LeadsOn(p, s, written, facades);
    assert Same(p, written.ps, facades.ps, Target(Capability, c.id));
    rested := FinishesRounds(p, facades, todo, c);
    LeadsOn(p, s, facades, rested);
    SameKindTransitive(p, s.ps, written.ps, facades.ps, Data);
    SameKindTransitive(p, s.ps, facades.ps, rested.ps, Data);
  }

  lemma WritesOldValue(p: ProductDefinition, s: Solo, c: DerivedDefinition, v: RIMValue, todo: seq<DerivedDefinition>)
    returns (rested: Solo)
    requires Workable(p, s.ps) && Poised(p, s.pc, c, v, todo) && (s.pc.Decided? || Accepts(p, s.ps, c, v))
    requires c in p.capabilities && AllIn(todo, p.capabilities) && !AmongFirst(todo, |todo|, c)
    ensures Leads(p, s, rested) && rested.pc == Resting
    ensures SameKind(p, s.ps, rested.ps, Data) && Get(p, rested.ps, Target(Capability, c.id)) == Some(v)
  {
    var decided := DecidesOn(p, s, c, v, todo);
    rested := WritesDecision(p, decided, c, v, todo);
    LeadsOn(p, s, decided, rested);
  }

  lemma FinishesRounds(p: ProductDefinition, s: Solo, todo: seq<DerivedDefinition>, c: DerivedDefinition) returns (rested: Solo)
    requires Workable(p, s.ps) && s.pc == Next([], todo) && AllIn(todo, p.capabilities) && c in p.capabilities
    ensures Leads(p, s, rested) && rested.pc == Resting && Tidy(p, rested.ps) && SameKind(p, s.ps, rested.ps, Data)
    ensures !AmongFirst(todo, |todo|, c) ==> Same(p, s.ps, rested.ps, Target(Capability, c.id))
    ensures AmongFirst(todo, |todo|, c) && Yields(p, s.ps, c) ==> Holds(p, rested.ps, c, Derive(p, s.ps, Capability, c))
  {
    var last := RoundsAlone(p, s, todo, |todo|, c);
    assert todo[|todo|..] == [];
    LeadsOneMore(p, s, last);
    rested := SoloStep(p, last);
  }

  lemma FinishesFacades(p: ProductDefinition, s: Solo, c: DerivedDefinition, todo: seq<DerivedDefinition>) returns (finished: Solo)
    requires Workable(p, s.ps) && s.pc == Next(Dependents(p.facades, c.id), todo)
    ensures Leads(p, s, finished) && finished.pc == Next([], todo) && Tidy(p, finished.ps)
    ensures SameKind(p, s.ps, finished.ps, Data) && SameKind(p, s.ps, finished.ps, Capability)
  {
    var fs := Dependents(p.facades, c.id);
    DependentsAreFacades(p, c.id);
    FacadesAlone(p, s, fs, |fs|, todo);
    FacadesKeepOtherKinds(p, Stage(s.ps, s.published, false), fs);
    var stage := AfterFacades(p, Stage(s.ps, s.published, false), fs, |fs|);
    assert fs[|fs|..] == [];
    finished := Solo(stage.ps, stage.published, Next([], todo));
  }

  /** The other worker's whole turn. */
  lemma TakesItsTurn(p: ProductDefinition, s: Solo, d: Id, c: DerivedDefinition) returns (rested: Solo)
    requires Workable(p, s.ps) && s.pc == Told(d) && c in p.capabilities
    ensures Leads(p, s, rested) && rested.pc == Resting && Tidy(p, rested.ps) && SameKind(p, s.ps, rested.ps, Data)
    ensures d in c.required && Yields(p, s.ps, c) ==> Holds(p, rested.ps, c, Derive(p, s.ps, Capability, c))
  {
    DependentsAreCapabilities(p, d);
    DependentsMembers(p.capabilities, d, c);
    AmongFirstIsMember(Dependents(p.capabilities, d), |Dependents(p.capabilities, d)|, c);
    var told := ToldGoesOn(p, s, d);
    rested := FinishesRounds(p, told, Dependents(p.capabilities, d), c);
    LeadsOn(p, s, told, rested);
  }

  // From workers alone to the world.

  lemma ArrivesAlone(p: ProductDefinition, w: World, item: RIMDataItem)
    requires Accepted(p, item).Some? && LocalOf(w, RouteNameOf(p, item.id).value) == IDLE
    ensures var route := RouteNameOf(p, item.id).value;
            Moved(p, w, Arrive(item)) == w.(locals := w.locals[route := IDLE.(storeQueue := [Accepted(p, item).value])])
  {
    InsertedAlone(p, RouteNameOf(p, item.id).value, Accepted(p, item).value);
  }

  lemma StoredAlone(p: ProductDefinition, w: World, route: string, item: RIMDataItem)
    requires Writes(p, w.ps, item)
    ensures StoreMoves(p, w.(locals := w.locals[route := IDLE.(storeQueue := [item])]), route, 4) ==
            World(AfterStore(p, w.ps, item), w.locals[route := IDLE.(capabilityQueue := [CapabilityInput(item.id)])], w.published)
  {
    var w1 := w.(locals := w.locals[route := IDLE.(storeQueue := [item])]);
    StoreTurnAloneIsTurn(p, w1, route);
    InsertedAlone(p, route, item);
    var l := IDLE.(capabilityQueue := [CapabilityInput(item.id)]);
    assert [item][1..] == [];
    assert w1.locals[route := l] == w.locals[route := l];
  }

  lemma ToldAlone(p: ProductDefinition, w: World, route: string, d: Id)
    requires d != INVALID_DATA_ID
    ensures Moved(p, w.(locals := w.locals[route := IDLE.(capabilityQueue := [CapabilityInput(d)])]), WorkMove(route)) ==
            w.(locals := w.locals[route := IDLE.(workPc := Told(d))])
  {
    var w2 := w.(locals := w.locals[route := IDLE.(capabilityQueue := [CapabilityInput(d)])]);
    assert [CapabilityInput(d)][1..] == [];
    assert w2.locals[route := IDLE.(workPc := Told(d))] == w.locals[route := IDLE.(workPc := Told(d))];
  }

  /** An item arrives on an idle route, is stored, pushed, and its worker told. */
  lemma DeliverTo(p: ProductDefinition, moves: seq<Move>, item: RIMDataItem) returns (longer: seq<Move>)
    requires UsesValidIds(p) && Accepted(p, item).Some?
    requires var w := Reach(p, moves);
             LocalOf(w, RouteNameOf(p, item.id).value) == IDLE && Writes(p, w.ps, Accepted(p, item).value)
    ensures var w, route := Reach(p, moves), RouteNameOf(p, item.id).value;
            Reach(p, longer) ==
            World(AfterStore(p, w.ps, Accepted(p, item).value), w.locals[route := IDLE.(workPc := Told(item.id))], w.published)
  {
    var w, route, accepted := Reach(p, moves), RouteNameOf(p, item.id).value, Accepted(p, item).value;
    longer := Continue(p, moves, Arrive(item));
    ArrivesAlone(p, w, item);
    longer := ContinueStore(p, longer, route, 4);
    StoredAlone(p, w, route, accepted);
    longer := Continue(p, longer, WorkMove(route));
    ToldAlone(p, w.(ps := AfterStore(p, w.ps, accepted)), route, item.id);
  }

  lemma InsertedAlone(p: ProductDefinition, route: string, item: RIMDataItem)
    ensures Inserted(StorePolicy(p, route), [], item) == [item]
    ensures Inserted(CapabilityPolicy(p, route), [], CapabilityInput(item.id)) == [CapabilityInput(item.id)]
  {
  }

  // The race.

  /** The values of `c` that the two items imply: from the first alone, and from both. */
  function FirstValue(p: ProductDefinition, c: DerivedDefinition, first: RIMDataItem): RIMValue
    requires Accepted(p, first).Some?
  {
    Derive(p, AfterStore(p, map[], Accepted(p, first).value), Capability, c)
  }

  function BothValue(p: ProductDefinition, c: DerivedDefinition, first: RIMDataItem, second: RIMDataItem): RIMValue
    requires Accepted(p, first).Some? && Accepted(p, second).Some?
  {
    Derive(p, AfterStore(p, AfterStore(p, map[], Accepted(p, first).value), Accepted(p, second).value), Capability, c)
  }

  /** `c` requires two items of different routes and its builder notices the second.  If it requires
      the first more than once, its diff tells the two values apart. */
  ghost predicate Racy(p: ProductDefinition, c: DerivedDefinition, first: RIMDataItem, second: RIMDataItem) {
    && c in p.capabilities && first.id in c.required && second.id in c.required
    && Accepted(p, first).Some? && Accepted(p, second).Some?
    && RouteNameOf(p, first.id) != RouteNameOf(p, second.id)
    && FirstValue(p, c, first) != BothValue(p, c, first, second)
    && (Once(c, first.id) || TellsApart(c, FirstValue(p, c, first), BothValue(p, c, first, second)))
  }

  predicate Once(c: DerivedDefinition, id: Id) {
    Occurrences(c.required, |c.required|, id) == 1
  }

  predicate TellsApart(c: DerivedDefinition, v: RIMValue, v': RIMValue) {
    c.diff(v, v') && c.diff(v', v)
  }

  lemma {:induction false} LastAmong(xs: seq<DerivedDefinition>, c: DerivedDefinition) returns (j: nat)
    requires c in xs
    ensures j < |xs| && xs[j] == c && c !in xs[j + 1..]
  {
    var n := |xs| - 1;
    if xs[n] == c {
      j := n;
    } else {
      assert c in xs[..n];
      j := LastAmong(xs[..n], c);
      assert xs[j + 1..] == xs[..n][j + 1..] + [xs[n]];
    }
  }

  lemma OnceNotBefore(xs: seq<DerivedDefinition>, j: nat, c: DerivedDefinition)
    requires multiset(xs)[c] == 1 && j < |xs| && xs[j] == c
    ensures !AmongFirst(xs, j, c)
  {
    AmongFirstIsMember(xs, j, c);
    assert xs == xs[..j] + [c] + xs[j + 1..];
    assert multiset(xs[..j])[c] == 0;
    assert forall i :: 0 <= i < j ==> xs[i] == xs[..j][i] && xs[..j][i] in multiset(xs[..j]);
  }

  lemma NewItemIsWritten(p: ProductDefinition, ps: Partitions, item: RIMDataItem)
    requires Separated(p) && Accepted(p, item).Some? && Get(p, ps, Target(Data, item.id)) == None
    ensures Writes(p, ps, Accepted(p, item).value)
  {
    assert Apart(p, Target(Data, item.id), Target(Data, item.id));
  }

  /** Storing the same item over the same data gives the same data. */
  lemma StoredAlike(p: ProductDefinition, a: Partitions, b: Partitions, item: RIMDataItem)
    requires Separated(p) && Writes(p, a, item) && SameKind(p, a, b, Data)
    ensures Writes(p, b, item) && SameKind(p, AfterStore(p, a, item), AfterStore(p, b, item), Data)
  {
    var t := Target(Data, item.id);
    assert Same(p, a, b, t);
    var v := StoredValue(FindDataItem(p, item.id).value, Get(p, a, t), item.value);
    forall u: Target | u.kind == Data ensures Same(p, AfterStore(p, a, item), AfterStore(p, b, item), u) {
      assert Same(p, a, b, u);
      SetKeepsOthers(p, a, t, v, u);
      SetKeepsOthers(p, b, t, v, u);
    }
  }

  lemma StoresFirst(p: ProductDefinition, c: DerivedDefinition, first: RIMDataItem) returns (moves: seq<Move>)
    requires Separated(p) && UsesValidIds(p) && Accepted(p, first).Some?
    ensures var ps := AfterStore(p, map[], Accepted(p, first).value);
            && Reach(p, moves) == World(ps, map[RouteNameOf(p, first.id).value := IDLE.(workPc := Told(first.id))], [])
            && Tidy(p, ps) && Get(p, ps, Target(Capability, c.id)) == None
  {
    EmptyIsTidy(p);
    NewItemIsWritten(p, map[], first);
    moves := DeliverTo(p, [], first);
    StoredIsTidy(p, map[], Accepted(p, first).value);
    AfterStoreEffect(p, map[], Accepted(p, first).value);
    assert Same(p, map[], AfterStore(p, map[], Accepted(p, first).value), Target(Capability, c.id));
  }

  lemma LastEntryStays(a: string, first: Local, last: Local)
    ensures map[a := first][a := last] == map[a := last]
  {
  }

  /** The first quarter: the worker of the first route is poised to write. */
  lemma FirstQuarter(p: ProductDefinition, c: DerivedDefinition, first: RIMDataItem, second: RIMDataItem)
    returns (moves: seq<Move>, pc: WorkPc, todo: seq<DerivedDefinition>)
    requires Valid(p) && Separated(p) && UsesValidIds(p) && Racy(p, c, first, second)
    ensures AllIn(todo, p.capabilities) && !AmongFirst(todo, |todo|, c)
    ensures var w, a, v := Reach(p, moves), RouteNameOf(p, first.id).value, FirstValue(p, c, first);
            && w.locals == map[a := IDLE.(workPc := pc)] && Poised(p, pc, c, v, todo)
            && (pc.Decided? || TellsApart(c, v, BothValue(p, c, first, second)))
            && Tidy(p, w.ps) && SameKind(p, AfterStore(p, map[], Accepted(p, first).value), w.ps, Data) && AtMost(p, w.ps, c, v)
  {
    moves := StoresFirst(p, c, first);
    var w := Reach(p, moves);
    var j := LastDependent(p, c, first.id);
    todo := Dependents(p.capabilities, first.id)[j + 1..];
    var a := RouteNameOf(p, first.id).value;
    var poised := RunsUntilPoised(p, Solo(w.ps, w.published, Told(first.id)), first.id, c, j);
    pc := poised.pc;
    moves := ContinueTo(p, moves, a, poised);
    LastEntryStays(a, IDLE.(workPc := Told(first.id)), IDLE.(workPc := pc));
  }

  lemma LastDependent(p: ProductDefinition, c: DerivedDefinition, id: Id) returns (j: nat)
    requires Valid(p) && c in p.capabilities && id in c.required
    ensures var cs := Dependents(p.capabilities, id);
            && j < |cs| && cs[j] == c && AllIn(cs[j + 1..], p.capabilities) && !AmongFirst(cs[j + 1..], |cs[j + 1..]|, c)
            && (Once(c, id) ==> !AmongFirst(cs, j, c))
  {
    var cs := Dependents(p.capabilities, id);
    DependentsMembers(p.capabilities, id, c);
    DependentsAreCapabilities(p, id);
    j := LastAmong(cs, c);
    AmongFirstIsMember(cs[j + 1..], |cs[j + 1..]|, c);
    if Once(c, id) {
      assert Meets(p, CapabilityIdsDiffer);
      var m :| 0 <= m < |p.capabilities| && p.capabilities[m] == c;
      DependentsCount(p.capabilities, |p.capabilities|, 0, id, m);
      OnceNotBefore(cs, j, c);
    }
  }

  /** The first half: then the second item is stored, and the worker of its route told. */
  lemma FirstHalf(p: ProductDefinition, c: DerivedDefinition, first: RIMDataItem, second: RIMDataItem)
    returns (moves: seq<Move>, pc: WorkPc, todo: seq<DerivedDefinition>)
    requires Valid(p) && Separated(p) && UsesValidIds(p) && Racy(p, c, first, second)
    ensures AllIn(todo, p.capabilities) && !AmongFirst(todo, |todo|, c)
    ensures var w, a, b := Reach(p, moves), RouteNameOf(p, first.id).value, RouteNameOf(p, second.id).value;
            var v, v' := FirstValue(p, c, first), BothValue(p, c, first, second);
            && w.locals == map[a := IDLE.(workPc := pc), b := IDLE.(workPc := Told(second.id))]
            && Poised(p, pc, c, v, todo) && (pc.Decided? || TellsApart(c, v, v'))
            && Tidy(p, w.ps) && Derive(p, w.ps, Capability, c) == v' && AtMost(p, w.ps, c, v)
  {
    moves, pc, todo := FirstQuarter(p, c, first, second);
    var w, ps, item := Reach(p, moves), AfterStore(p, map[], Accepted(p, first).value), Accepted(p, second).value;
    SecondIsNew(p, first, second);
    assert Same(p, ps, w.ps, Target(Data, second.id));
    NewItemIsWritten(p, ps, second);
    NewItemIsWritten(p, w.ps, second);
    moves := DeliverTo(p, moves, second);
    StoredIsTidy(p, w.ps, item);
    AfterStoreEffect(p, w.ps, item);
    assert Same(p, w.ps, AfterStore(p, w.ps, item), Target(Capability, c.id));
    StoredAlike(p, ps, w.ps, item);
    SameDataSameDerive(p, AfterStore(p, ps, item), Reach(p, moves).ps, c);
  }

  lemma SecondIsNew(p: ProductDefinition, first: RIMDataItem, second: RIMDataItem)
    requires Separated(p) && Accepted(p, first).Some? && first.id != second.id
    ensures Get(p, AfterStore(p, map[], Accepted(p, first).value), Target(Data, second.id)) == None
  {
    NewItemIsWritten(p, map[], first);
    AfterStoreEffect(p, map[], Accepted(p, first).value);
    assert Same(p, map[], AfterStore(p, map[], Accepted(p, first).value), Target(Data, second.id));
  }

  lemma StoredIsTidy(p: ProductDefinition, ps: Partitions, item: RIMDataItem)
    requires Separated(p) && Tidy(p, ps) && Writes(p, ps, item)
    ensures Tidy(p, AfterStore(p, ps, item))
  {
    var t := Target(Data, item.id);
    SetKeepsTidy(p, ps, t, StoredValue(FindDataItem(p, item.id).value, Get(p, ps, t), item.value));
  }

  /** The third quarter: the worker of the second route takes its whole turn. */
  lemma ThirdQuarter(p: ProductDefinition, before: seq<Move>, a: string, la: Local, b: string, d: Id, c: DerivedDefinition)
    returns (moves: seq<Move>)
    requires var w := Reach(p, before); Workable(p, w.ps) && w.locals == map[a := la, b := IDLE.(workPc := Told(d))]
    requires a != b && c in p.capabilities && d in c.required
    ensures var w, w' := Reach(p, before), Reach(p, moves);
            && Tidy(p, w'.ps) && w'.locals == map[a := la, b := IDLE] && SameKind(p, w.ps, w'.ps, Data)
            && (Yields(p, w.ps, c) ==> Holds(p, w'.ps, c, Derive(p, w.ps, Capability, c)))
  {
    var w := Reach(p, before);
    var rested := TakesItsTurn(p, Solo(w.ps, w.published, Told(d)), d, c);
    moves := ContinueTo(p, before, b, rested);
  }

  /** The last quarter: the worker of the first route writes what it had seen. */
  lemma LastQuarter(p: ProductDefinition, before: seq<Move>, a: string, b: string, pc: WorkPc,
                    c: DerivedDefinition, v: RIMValue, todo: seq<DerivedDefinition>)
    returns (moves: seq<Move>)
    requires var w := Reach(p, before);
             && Workable(p, w.ps) && w.locals == map[a := IDLE.(workPc := pc), b := IDLE]
             && (pc.Decided? || Accepts(p, w.ps, c, v))
    requires a != b && c in p.capabilities && Poised(p, pc, c, v, todo)
    requires AllIn(todo, p.capabilities) && !AmongFirst(todo, |todo|, c)
    ensures var w, w' := Reach(p, before), Reach(p, moves);
            && w'.locals == map[a := IDLE, b := IDLE] && SameKind(p, w.ps, w'.ps, Data) && Holds(p, w'.ps, c, v)
  {
    var w := Reach(p, before);
    var rested := WritesOldValue(p, Solo(w.ps, w.published, pc), c, v, todo);
    moves := ContinueTo(p, before, a, rested);
  }

  /** The second half, from any state in which one worker is poised to write an old value. */
  lemma SecondHalf(p: ProductDefinition, before: seq<Move>, a: string, b: string, d: Id, pc: WorkPc,
                   c: DerivedDefinition, v: RIMValue, v': RIMValue, todo: seq<DerivedDefinition>)
    returns (moves: seq<Move>)
    requires var w := Reach(p, before);
             && Workable(p, w.ps) && w.locals == map[a := IDLE.(workPc := pc), b := IDLE.(workPc := Told(d))]
             && Derive(p, w.ps, Capability, c) == v' && AtMost(p, w.ps, c, v)
    requires a != b && c in p.capabilities && d in c.required
    requires Poised(p, pc, c, v, todo) && (pc.Decided? || TellsApart(c, v, v'))
    requires AllIn(todo, p.capabilities) && !AmongFirst(todo, |todo|, c)
    ensures var w, w' := Reach(p, before), Reach(p, moves);
            w'.locals == map[a := IDLE, b := IDLE] && SameKind(p, w.ps, w'.ps, Data) && Holds(p, w'.ps, c, v)
  {
    var half := Reach(p, before).ps;
    moves := ThirdQuarter(p, before, a, IDLE.(workPc := pc), b, d, c);
    var third := Reach(p, moves).ps;
    moves := LastQuarter(p, moves, a, b, pc, c, v, todo);
    SameKindTransitive(p, half, third, Reach(p, moves).ps, Data);
  }

  /** Main result: for every product with such a capability there is an interleaving after which all
      queues are empty and all workers idle, and the capability holds the value that ignores the second
      item.  So the one-route condition cannot be dropped. */
  lemma TwoRoutesGoStale(p: ProductDefinition, c: DerivedDefinition, first: RIMDataItem, second: RIMDataItem)
    returns (moves: seq<Move>)
    requires Valid(p) && Separated(p) && UsesValidIds(p) && Racy(p, c, first, second)
    ensures var w := Reach(p, moves);
            && (forall route :: LocalOf(w, route) == IDLE)
            && Get(p, w.ps, Target(Capability, c.id)) == Some(FirstValue(p, c, first))
            && Derive(p, w.ps, Capability, c) == BothValue(p, c, first, second)
            && !HoldsBatch(p, w.ps)
  {
    var a, b := RouteNameOf(p, first.id).value, RouteNameOf(p, second.id).value;
    var v, v' := FirstValue(p, c, first), BothValue(p, c, first, second);
    var pc, todo;
    moves, pc, todo := FirstHalf(p, c, first, second);
    var half := Reach(p, moves).ps;
    moves := SecondHalf(p, moves, a, b, second.id, pc, c, v, v', todo);
    SameDataSameDerive(p, half, Reach(p, moves).ps, c);
    OtherValueIsNotBatch(p, Reach(p, moves).ps, c, v);
  }

  lemma OtherValueIsNotBatch(p: ProductDefinition, ps: Partitions, c: DerivedDefinition, v: RIMValue)
    requires c in p.capabilities && Holds(p, ps, c, v) && v != Derive(p, ps, Capability, c)
    ensures !HoldsBatch(p, ps)
  {
    assert !CapabilityIsBatch(p, ps, c);
  }
}
