/** The two grains agree: a worker that nobody interrupts does in single steps what its whole turn
    does, and the maps that stand for half-read snapshots show what the real lists would. */
module Grain {
  import opened Values
  import opened Queues
  import opened Product
  import opened Storage
  import opened Context
  import opened Partitioning
  import opened Snapshots
  import opened SnapshotAgreement
  import opened Evaluation
  import opened Derivation
  import opened Pipeline
  import opened Consistency
  import opened Interleaving
  import opened OneRoute
  import opened OneRouteWork

  // Half-read snapshots.

  /** The list `s` shows exactly the values in `seen`. */
  ghost predicate Shows(s: RIMSnapshot, seen: Partition) {
    forall id :: FindIn(s, id) == ValueIn(seen, id)
  }

  lemma {:induction false} FindInBoth(s: RIMSnapshot, t: RIMSnapshot, id: Id)
    ensures FindIn(s + t, id) == if FindIn(s, id).Some? then FindIn(s, id) else FindIn(t, id)
  {
    if t == [] {
      assert s + t == s;
    } else {
      var before, last := t[..|t| - 1], t[|t| - 1];
      assert t == before + [last] && s + t == (s + before) + [last];
      FindInBoth(s, before, id);
      FindInAppend(s + before, last, id);
      FindInAppend(before, last, id);
    }
  }

  lemma FindEnumerated(items: seq<RIMDataItem>, partition: Partition, id: Id)
    requires Enumerates(items, partition)
    ensures FindIn(items, id) == ValueIn(partition, id)
  {
    var k := IndexWith(items, ItemId, id);
    if id in partition {
      var i :| 0 <= i < |items| && items[i].id == id;
      assert ItemId(items[i]) == id;
    }
  }

  /** What the k-th read appends to the list: the items of a partition in some order, or the stored
      value of one capability. */
  ghost predicate Appends(p: ProductDefinition, ps: Partitions, kind: TargetType, x: DerivedDefinition, k: nat, items: seq<RIMDataItem>)
    requires k < Reads(p, kind, x)
  {
    if kind == Facade then
      items == match Get(p, ps, Target(Capability, x.required[k])) case None => [] case Some(v) => [RIMDataItem(x.required[k], v)]
    else Enumerates(items, PartitionOf(ps, RequiredDomains(p, x.id)[k]))
  }

  /** Each read of the list shows what the map of that read holds. */
  lemma ReadShows(p: ProductDefinition, ps: Partitions, kind: TargetType, x: DerivedDefinition, k: nat,
                  s: RIMSnapshot, seen: Partition, items: seq<RIMDataItem>)
    requires k < Reads(p, kind, x) && Shows(s, seen) && Appends(p, ps, kind, x, k, items)
    ensures Shows(s + items, ReadOne(p, ps, kind, x, k, seen))
  {
    forall id ensures FindIn(s + items, id) == ValueIn(ReadOne(p, ps, kind, x, k, seen), id) {
      FindInBoth(s, items, id);
      assert FindIn(s, id) == ValueIn(seen, id);
      if kind == Facade {
        FindInFew(items, id);
      } else {
        FindEnumerated(items, PartitionOf(ps, RequiredDomains(p, x.id)[k]), id);
      }
    }
  }

  lemma FindInFew(items: seq<RIMDataItem>, id: Id)
    requires |items| <= 1
    ensures FindIn(items, id) == if items != [] && items[0].id == id then Some(items[0].value) else None
  {
    if items != [] {
      assert ItemId(items[0]) == items[0].id;
    }
  }

  lemma {:induction false} SeenSnapshotView(ids: seq<Id>, n: nat, seen: Partition, id: Id)
    requires n <= |ids|
    ensures FindIn(SeenSnapshot(ids, n, seen), id) == if id in ids[..n] then ValueIn(seen, id) else None
  {
    if n != 0 {
      SeenSnapshotView(ids, n - 1, seen, id);
      assert ids[..n] == ids[..n - 1] + [ids[n - 1]];
      match ValueIn(seen, ids[n - 1])
      case None =>
      case Some(v) => FindInAppend(SeenSnapshot(ids, n - 1, seen), RIMDataItem(ids[n - 1], v), id);
    }
  }

  /** Main result: however the store changed while a snapshot was read, a builder that looks only at
      its declared inputs makes the same value from the list as from the map. */
  lemma ListAndMapBuildAlike(x: DerivedDefinition, s: RIMSnapshot, seen: Partition)
    requires Framed(x) && Shows(s, seen)
    ensures x.build(s) == DeriveSeen(x, seen)
  {
    var t := SeenSnapshot(x.required, |x.required|, seen);
    forall id | id in x.required ensures FindIn(s, id) == FindIn(t, id) {
      SeenSnapshotView(x.required, |x.required|, seen, id);
      assert FindIn(s, id) == ValueIn(seen, id);
    }
    assert SameView(s, t, x.required);
  }

  // A capability worker that is left alone.

  /** What its steps read and write. */
  datatype Solo = Solo(ps: Partitions, published: seq<PublisherInput>, pc: WorkPc)

  function LocalAt(pc: WorkPc): Local { Local([], StoreIdle, [], pc) }

  function SoloStep(p: ProductDefinition, s: Solo): Solo {
    Solo(WorkWrite(p, s.ps, LocalAt(s.pc)), WorkAnnounce(p, s.published, LocalAt(s.pc)), WorkStep(p, s.ps, LocalAt(s.pc)).workPc)
  }

  /** A worker's move in the world, unless it takes a new item, is its step alone, and leaves
      everything else as it was. */
  lemma MoveIsSoloStep(p: ProductDefinition, w: World, route: string)
    requires LocalOf(w, route).workPc != Resting || LocalOf(w, route).capabilityQueue == []
    ensures var l, s := LocalOf(w, route), SoloStep(p, Solo(w.ps, w.published, LocalOf(w, route).workPc));
            Moved(p, w, WorkMove(route)) == World(s.ps, w.locals[route := l.(workPc := s.pc)], s.published)
  {
  }

  function Iterated<S>(step: S -> S, s: S, n: nat): S {
    if n == 0 then s else step(Iterated(step, s, n - 1))
  }

  lemma {:induction false} IteratedAdds<S>(step: S -> S, s: S, m: nat, n: nat)
    ensures Iterated(step, s, m + n) == Iterated(step, Iterated(step, s, m), n)
  {
    if n > 0 {
      IteratedAdds(step, s, m, n - 1);
    }
  }

  function SoloRun(p: ProductDefinition, s: Solo, n: nat): Solo {
    Iterated(x => SoloStep(p, x), s, n)
  }

  ghost predicate Leads(p: ProductDefinition, s: Solo, s': Solo) {
    exists n: nat :: SoloRun(p, s, n) == s'
  }

  lemma LeadsNowhere(p: ProductDefinition, s: Solo)
    ensures Leads(p, s, s)
  {
    assert SoloRun(p, s, 0) == s;
  }

  lemma LeadsOneMore(p: ProductDefinition, s: Solo, s': Solo)
    requires Leads(p, s, s')
    ensures Leads(p, s, SoloStep(p, s'))
  {
    var n: nat :| SoloRun(p, s, n) == s';
    assert SoloRun(p, s, n + 1) == SoloStep(p, s');
  }

  lemma LeadsOn(p: ProductDefinition, a: Solo, b: Solo, c: Solo)
    requires Leads(p, a, b) && Leads(p, b, c)
    ensures Leads(p, a, c)
  {
    var m: nat :| SoloRun(p, a, m) == b;
    var n: nat :| SoloRun(p, b, n) == c;
    IteratedAdds(x => SoloStep(p, x), a, m, n);
    assert SoloRun(p, a, m + n) == c;
  }

  ghost predicate Workable(p: ProductDefinition, ps: Partitions) {
    Valid(p) && Separated(p) && Tidy(p, ps)
  }

  lemma ReadStep(p: ProductDefinition, s: Solo, kind: TargetType, x: DerivedDefinition, k: nat, seen: Partition,
                 fs: seq<DerivedDefinition>, todo: seq<DerivedDefinition>)
    requires k < Reads(p, kind, x)
    ensures SoloStep(p, s.(pc := Reading(kind, x, k, seen, fs, todo))) ==
            s.(pc := Reading(kind, x, k + 1, ReadOne(p, s.ps, kind, x, k, seen), fs, todo))
  {
  }

  lemma FreshNext(p: ProductDefinition, ps: Partitions, kind: TargetType, x: DerivedDefinition, k: nat, seen: Partition)
    requires Workable(p, ps) && kind != Data && x in Definitions(p, kind) && k < Reads(p, kind, x)
    requires Fresh(p, ps, kind, x, k, seen) && SeenOnlyRead(p, kind, x, k, seen)
    ensures var seen' := ReadOne(p, ps, kind, x, k, seen);
            Fresh(p, ps, kind, x, k + 1, seen') && SeenOnlyRead(p, kind, x, k + 1, seen')
  {
    SeenOnlyReadNext(p, ps, kind, x, k, seen);
    if kind == Facade {
      FreshNextFacade(p, ps, x, k, seen);
    } else {
      FreshNextCapability(p, ps, x, k, seen);
    }
  }

  /** After `k` reads the worker holds what the store shows in them. */
  ghost predicate HasRead(p: ProductDefinition, s: Solo, kind: TargetType, x: DerivedDefinition, k: nat, seen: Partition,
                          fs: seq<DerivedDefinition>, todo: seq<DerivedDefinition>)
    requires k <= Reads(p, kind, x)
  {
    && Leads(p, s, s.(pc := Reading(kind, x, k, seen, fs, todo)))
    && Fresh(p, s.ps, kind, x, k, seen) && SeenOnlyRead(p, kind, x, k, seen)
  }

  lemma ReadOneMore(p: ProductDefinition, s: Solo, kind: TargetType, x: DerivedDefinition, k: nat, seen: Partition,
                    fs: seq<DerivedDefinition>, todo: seq<DerivedDefinition>)
    requires Workable(p, s.ps) && kind != Data && x in Definitions(p, kind) && k < Reads(p, kind, x)
    requires HasRead(p, s, kind, x, k, seen, fs, todo)
    ensures HasRead(p, s, kind, x, k + 1, ReadOne(p, s.ps, kind, x, k, seen), fs, todo)
  {
    LeadsOneMore(p, s, s.(pc := Reading(kind, x, k, seen, fs, todo)));
    ReadStep(p, s, kind, x, k, seen, fs, todo);
    FreshNext(p, s.ps, kind, x, k, seen);
  }

  lemma {:induction false} ReadsAlone(p: ProductDefinition, s: Solo, kind: TargetType, x: DerivedDefinition, k: nat,
                                      fs: seq<DerivedDefinition>, todo: seq<DerivedDefinition>) returns (seen: Partition)
    requires Workable(p, s.ps) && kind != Data && x in Definitions(p, kind) && k <= Reads(p, kind, x)
    requires s.pc == Reading(kind, x, 0, map[], fs, todo)
    ensures HasRead(p, s, kind, x, k, seen, fs, todo)
  {
    if k == 0 {
      seen := map[];
      LeadsNowhere(p, s);
      assert s.(pc := Reading(kind, x, k, seen, fs, todo)) == s;
      forall id ensures FreshAt(p, s.ps, kind, x, 0, map[], id) {
      }
    } else {
      var before := ReadsAlone(p, s, kind, x, k - 1, fs, todo);
      ReadOneMore(p, s, kind, x, k - 1, before, fs, todo);
      seen := ReadOne(p, s.ps, kind, x, k - 1, before);
    }
  }

  /** Where one evaluation ends. */
  function Ended(p: ProductDefinition, s: Solo, kind: TargetType, x: DerivedDefinition,
                 fs: seq<DerivedDefinition>, todo: seq<DerivedDefinition>): Solo {
    var stage := Evaluated(p, Stage(s.ps, s.published, false), kind, x);
    Solo(stage.ps, stage.published,
         Next(if kind == Capability && Renews(p, s.ps, kind, x) then Dependents(p.facades, x.id) else fs, todo))
  }

  lemma EvaluatesAlone(p: ProductDefinition, s: Solo, kind: TargetType, x: DerivedDefinition,
                       fs: seq<DerivedDefinition>, todo: seq<DerivedDefinition>)
    requires Workable(p, s.ps) && kind != Data && x in Definitions(p, kind)
    requires s.pc == Reading(kind, x, 0, map[], fs, todo)
    ensures Leads(p, s, Ended(p, s, kind, x, fs, todo))
    ensures Tidy(p, Ended(p, s, kind, x, fs, todo).ps)
  {
    var k := Reads(p, kind, x);
    var seen := ReadsAlone(p, s, kind, x, k, fs, todo);
    FreshDerives(p, s.ps, kind, x, seen);
    DefinedByMembership(p, kind, x);
    var read := s.(pc := Reading(kind, x, k, seen, fs, todo));
    LeadsOneMore(p, s, read);
    if Renews(p, s.ps, kind, x) {
      DecidedGoesOn(p, s, SoloStep(p, read), kind, x, fs, todo);
      SetKeepsTidy(p, s.ps, Target(kind, x.id), Derive(p, s.ps, kind, x));
    }
  }

  lemma DecidedGoesOn(p: ProductDefinition, s: Solo, decided: Solo, kind: TargetType, x: DerivedDefinition,
                      fs: seq<DerivedDefinition>, todo: seq<DerivedDefinition>)
    requires Renews(p, s.ps, kind, x) && Leads(p, s, decided)
    requires decided == s.(pc := Decided(kind, x, Derive(p, s.ps, kind, x), fs, todo))
    ensures Leads(p, s, Ended(p, s, kind, x, fs, todo))
  {
    LeadsOneMore(p, s, decided);
    LeadsOneMore(p, s, SoloStep(p, decided));
  }

  /** From `s` the steps lead to the values and publications of the stage. */
  ghost predicate LeadsTo(p: ProductDefinition, s: Solo, stage: Stage, pc: WorkPc) {
    !stage.shut && Tidy(p, stage.ps) && Leads(p, s, Solo(stage.ps, stage.published, pc))
  }

  lemma LeadsFrom(p: ProductDefinition, s: Solo, here: Stage, pc: WorkPc, there: Stage, pc': WorkPc)
    requires LeadsTo(p, s, here, pc) && LeadsTo(p, Solo(here.ps, here.published, pc), there, pc')
    ensures LeadsTo(p, s, there, pc')
  {
    LeadsOn(p, s, Solo(here.ps, here.published, pc), Solo(there.ps, there.published, pc'));
  }

  /** One facade of the inner round. */
  lemma FacadeAlone(p: ProductDefinition, s: Solo, f: DerivedDefinition, fs: seq<DerivedDefinition>, todo: seq<DerivedDefinition>)
    requires Workable(p, s.ps) && f in p.facades && s.pc == Next([f] + fs, todo)
    ensures LeadsTo(p, s, Evaluated(p, Stage(s.ps, s.published, false), Facade, f), Next(fs, todo))
  {
    var taken := SoloStep(p, s);
    assert ([f] + fs)[1..] == fs;
    LeadsNowhere(p, s);
    LeadsOneMore(p, s, s);
    EvaluatesAlone(p, taken, Facade, f, fs, todo);
    LeadsOn(p, s, taken, Ended(p, taken, Facade, f, fs, todo));
  }

  /** The inner round, after its first `n` facades. */
  lemma {:induction false} FacadesAlone(p: ProductDefinition, s: Solo, fs: seq<DerivedDefinition>, n: nat, todo: seq<DerivedDefinition>)
    requires Workable(p, s.ps) && n <= |fs| && AllIn(fs, p.facades) && s.pc == Next(fs, todo)
    ensures LeadsTo(p, s, AfterFacades(p, Stage(s.ps, s.published, false), fs, n), Next(fs[n..], todo))
  {
    if n == 0 {
      LeadsNowhere(p, s);
      assert fs[0..] == fs;
    } else {
      FacadesAlone(p, s, fs, n - 1, todo);
      assert fs[n - 1..] == [fs[n - 1]] + fs[n..];
      NextFacadeAlone(p, s, AfterFacades(p, Stage(s.ps, s.published, false), fs, n - 1), fs[n - 1], fs[n..], todo);
    }
  }

  lemma NextFacadeAlone(p: ProductDefinition, s: Solo, stage: Stage, f: DerivedDefinition,
                        fs: seq<DerivedDefinition>, todo: seq<DerivedDefinition>)
    requires Valid(p) && Separated(p) && f in p.facades && LeadsTo(p, s, stage, Next([f] + fs, todo))
    ensures LeadsTo(p, s, Evaluated(p, stage, Facade, f), Next(fs, todo))
  {
    FacadeAlone(p, Solo(stage.ps, stage.published, Next([f] + fs, todo)), f, fs, todo);
    assert stage == Stage(stage.ps, stage.published, false);
    LeadsFrom(p, s, stage, Next([f] + fs, todo), Evaluated(p, stage, Facade, f), Next(fs, todo));
  }

  /** One round of the outer loop. */
  lemma CapabilityAlone(p: ProductDefinition, s: Solo, c: DerivedDefinition, todo: seq<DerivedDefinition>)
    requires Workable(p, s.ps) && c in p.capabilities && s.pc == Next([], [c] + todo)
    ensures LeadsTo(p, s, AfterCapability(p, Stage(s.ps, s.published, false), c), Next([], todo))
  {
    var taken := SoloStep(p, s);
    assert ([c] + todo)[1..] == todo;
    LeadsNowhere(p, s);
    LeadsOneMore(p, s, s);
    EvaluatesAlone(p, taken, Capability, c, [], todo);
    var ended := Ended(p, taken, Capability, c, [], todo);
    LeadsOn(p, s, taken, ended);
    if Renews(p, s.ps, Capability, c) {
      var fs := Dependents(p.facades, c.id);
      DependentsAreFacades(p, c.id);
      FacadesAlone(p, ended, fs, |fs|, todo);
      assert fs[|fs|..] == [];
      var stage := AfterFacades(p, Stage(ended.ps, ended.published, false), fs, |fs|);
      LeadsOn(p, s, ended, Solo(stage.ps, stage.published, Next([], todo)));
    }
  }

  lemma {:induction false} CapabilitiesAlone(p: ProductDefinition, s: Solo, cs: seq<DerivedDefinition>, n: nat)
    requires Workable(p, s.ps) && n <= |cs| && AllIn(cs, p.capabilities) && s.pc == Next([], cs)
    ensures LeadsTo(p, s, AfterCapabilities(p, Stage(s.ps, s.published, false), cs, n), Next([], cs[n..]))
  {
    if n == 0 {
      LeadsNowhere(p, s);
      assert cs[0..] == cs;
    } else {
      CapabilitiesAlone(p, s, cs, n - 1);
      assert cs[n - 1..] == [cs[n - 1]] + cs[n..];
      NextCapabilityAlone(p, s, AfterCapabilities(p, Stage(s.ps, s.published, false), cs, n - 1), cs[n - 1], cs[n..]);
    }
  }

  lemma NextCapabilityAlone(p: ProductDefinition, s: Solo, stage: Stage, c: DerivedDefinition, todo: seq<DerivedDefinition>)
    requires Valid(p) && Separated(p) && c in p.capabilities && LeadsTo(p, s, stage, Next([], [c] + todo))
    ensures LeadsTo(p, s, AfterCapability(p, stage, c), Next([], todo))
  {
    CapabilityAlone(p, Solo(stage.ps, stage.published, Next([], [c] + todo)), c, todo);
    assert stage == Stage(stage.ps, stage.published, false);
    LeadsFrom(p, s, stage, Next([], [c] + todo), AfterCapability(p, stage, c), Next([], todo));
  }

  /** Main result: left alone, a worker that was told of a change comes to rest with the store and
      the publications of the whole turn. */
  lemma TurnAloneIsProcessed(p: ProductDefinition, ps: Partitions, published: seq<PublisherInput>, d: Id)
    requires Workable(p, ps) && d != INVALID_DATA_ID
    ensures var stage := Processed(p, Stage(ps, published, false), d);
            Leads(p, Solo(ps, published, Told(d)), Solo(stage.ps, stage.published, Resting))
  {
    var s, cs := Solo(ps, published, Told(d)), Dependents(p.capabilities, d);
    LeadsNowhere(p, s);
    LeadsOneMore(p, s, s);
    var told := SoloStep(p, s);
    DependentsAreCapabilities(p, d);
    CapabilitiesAlone(p, told, cs, |cs|);
    var stage := AfterCapabilities(p, Stage(told.ps, told.published, false), cs, |cs|);
    assert cs[|cs|..] == [];
    var finished := Solo(stage.ps, stage.published, Next([], []));
    LeadsOn(p, s, told, finished);
    LeadsOneMore(p, s, finished);
  }

  // A store worker that is left alone.

  function StoreMoves(p: ProductDefinition, w: World, route: string, n: nat): World {
    if n == 0 then w else Moved(p, StoreMoves(p, w, route, n - 1), StoreMove(route))
  }

  /** Main result: left alone, a store worker with an item waiting is idle again after two or four
      steps, and has done what the turn of module Pipeline does. */
  lemma StoreTurnAloneIsTurn(p: ProductDefinition, w: World, route: string)
    requires var l := LocalOf(w, route); l.storePc == StoreIdle && l.storeQueue != []
    ensures var l, item := LocalOf(w, route), LocalOf(w, route).storeQueue[0];
            var rest := l.(storeQueue := l.storeQueue[1..]);
            StoreMoves(p, w, route, if Writes(p, w.ps, item) then 4 else 2) ==
            w.(ps := AfterStore(p, w.ps, item),
               locals := w.locals[route :=
                 if Writes(p, w.ps, item)
                 then rest.(capabilityQueue := Inserted(CapabilityPolicy(p, route), l.capabilityQueue, CapabilityInput(item.id)))
                 else rest])
  {
    var l := LocalOf(w, route);
    var item, rest := l.storeQueue[0], l.(storeQueue := l.storeQueue[1..]);
    assert StoreMoves(p, w, route, 1) == w.(locals := w.locals[route := rest.(storePc := StorePopped(item))]);
    StoreMovesAgain(p, w, route, 1, w.ps, rest.(storePc := StorePopped(item)));
    if Writes(p, w.ps, item) {
      var v := StoredValue(FindDataItem(p, item.id).value, Get(p, w.ps, Target(Data, item.id)), item.value);
      StoreMovesAgain(p, w, route, 2, w.ps, rest.(storePc := StoreDecided(item.id, v)));
      StoreMovesAgain(p, w, route, 3, AfterStore(p, w.ps, item), rest.(storePc := StoreWritten(item.id)));
    }
  }

  /** One more step from a state that differs from the first only in the store and on the route. */
  lemma StoreMovesAgain(p: ProductDefinition, w: World, route: string, n: nat, ps: Partitions, l: Local)
    requires StoreMoves(p, w, route, n) == w.(ps := ps, locals := w.locals[route := l])
    ensures StoreMoves(p, w, route, n + 1) ==
            w.(ps := StoreWrite(p, ps, l), locals := w.locals[route := StoreStep(p, route, ps, l)])
  {
    assert w.locals[route := l][route := StoreStep(p, route, ps, l)] == w.locals[route := StoreStep(p, route, ps, l)];
  }
}
