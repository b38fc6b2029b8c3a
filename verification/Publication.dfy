/** No change goes unannounced: a value that changed since its target was last taken from the
    publisher's queue has its target in that queue, or its id on the way there. */
module Publication {
  import opened Values
  import opened Queues
  import opened PublisherQueue
  import opened Product
  import opened Context
  import opened Partitioning
  import opened Snapshots
  import opened Evaluation
  import opened Derivation
  import opened Pipeline
  import opened Consistency

  /** From `s` to `s'` every changed value was announced, and no announcement was lost. */
  ghost predicate Announces(p: ProductDefinition, s: Stage, s': Stage) {
    && Targets(s.published) <= Targets(s'.published)
    && s'.shut == s.shut
    && forall u :: Same(p, s.ps, s'.ps, u) || u in Targets(s'.published)
  }

  lemma AnnouncesTransitive(p: ProductDefinition, a: Stage, b: Stage, c: Stage)
    requires Announces(p, a, b) && Announces(p, b, c)
    ensures Announces(p, a, c)
  {
    forall u ensures Same(p, a.ps, c.ps, u) || u in Targets(c.published) {
      assert Same(p, a.ps, b.ps, u) || u in Targets(b.published);
      assert Same(p, b.ps, c.ps, u) || u in Targets(c.published);
    }
  }

  lemma PublishedTargets(p: ProductDefinition, s: Stage, t: Target)
    requires !s.shut
    ensures Targets(Published(p, s, t).published) == Targets(s.published) + {t}
    ensures Announces(p, s, Published(p, s, t))
  {
    InsertLosesNoTarget(s.published, InputFor(p, t));
  }

  lemma EvaluatedAnnounces(p: ProductDefinition, s: Stage, kind: TargetType, x: DerivedDefinition)
    requires Separated(p) && !s.shut && kind != Data && Defined(p, Target(kind, x.id))
    ensures Announces(p, s, Evaluated(p, s, kind, x))
  {
    EvaluatedEffect(p, s, kind, x);
    var t := Target(kind, x.id);
    if Renews(p, s.ps, kind, x) {
      PublishedTargets(p, s.(ps := Set(p, s.ps, t, Derive(p, s.ps, kind, x))), t);
    }
  }

  lemma {:induction false} FacadesAnnounce(p: ProductDefinition, s: Stage, fs: seq<DerivedDefinition>, n: nat)
    requires Separated(p) && !s.shut && n <= |fs| && AllIn(fs, p.facades)
    ensures Announces(p, s, AfterFacades(p, s, fs, n))
  {
    if n != 0 {
      FacadesAnnounce(p, s, fs, n - 1);
      var before := AfterFacades(p, s, fs, n - 1);
      DefinedByMembership(p, Facade, fs[n - 1]);
      EvaluatedAnnounces(p, before, Facade, fs[n - 1]);
      AnnouncesTransitive(p, s, before, AfterFacades(p, s, fs, n));
    }
  }

  lemma CapabilityAnnounces(p: ProductDefinition, s: Stage, c: DerivedDefinition)
    requires Separated(p) && !s.shut && c in p.capabilities
    ensures Announces(p, s, AfterCapability(p, s, c))
  {
    if Renews(p, s.ps, Capability, c) {
      DefinedByMembership(p, Capability, c);
      EvaluatedAnnounces(p, s, Capability, c);
      var middle := Evaluated(p, s, Capability, c);
      var fs := Dependents(p.facades, c.id);
      DependentsAreFacades(p, c.id);
      FacadesAnnounce(p, middle, fs, |fs|);
      AnnouncesTransitive(p, s, middle, AfterFacades(p, middle, fs, |fs|));
    }
  }

  lemma {:induction false} CapabilitiesAnnounce(p: ProductDefinition, s: Stage, cs: seq<DerivedDefinition>, n: nat)
    requires Separated(p) && !s.shut && n <= |cs| && AllIn(cs, p.capabilities)
    ensures Announces(p, s, AfterCapabilities(p, s, cs, n))
  {
    if n != 0 {
      CapabilitiesAnnounce(p, s, cs, n - 1);
      var before := AfterCapabilities(p, s, cs, n - 1);
      CapabilityAnnounces(p, before, cs[n - 1]);
      AnnouncesTransitive(p, s, before, AfterCapabilities(p, s, cs, n));
    }
  }

  /** One Process announces everything it changes, and the data item that it was told about. */
  lemma ProcessedAnnounces(p: ProductDefinition, s: Stage, d: Id)
    requires Separated(p) && !s.shut && d != INVALID_DATA_ID
    ensures Announces(p, s, Processed(p, s, d))
    ensures Target(Data, d) in Targets(Processed(p, s, d).published)
  {
    var told := Published(p, s, Target(Data, d));
    PublishedTargets(p, s, Target(Data, d));
    var cs := Dependents(p.capabilities, d);
    DependentsAreCapabilities(p, d);
    CapabilitiesAnnounce(p, told, cs, |cs|);
    AnnouncesTransitive(p, s, told, Processed(p, s, d));
  }

  // A queue that was shut down.

  lemma {:induction false} ShutFacadesAddNothing(p: ProductDefinition, s: Stage, fs: seq<DerivedDefinition>, n: nat)
    requires s.shut && n <= |fs|
    ensures AfterFacades(p, s, fs, n).shut && AfterFacades(p, s, fs, n).published == s.published
  {
    if n != 0 {
      ShutFacadesAddNothing(p, s, fs, n - 1);
    }
  }

  lemma {:induction false} ShutCapabilitiesAddNothing(p: ProductDefinition, s: Stage, cs: seq<DerivedDefinition>, n: nat)
    requires s.shut && n <= |cs|
    ensures AfterCapabilities(p, s, cs, n).shut && AfterCapabilities(p, s, cs, n).published == s.published
  {
    if n != 0 {
      ShutCapabilitiesAddNothing(p, s, cs, n - 1);
      var before, fs := AfterCapabilities(p, s, cs, n - 1), Dependents(p.facades, cs[n - 1].id);
      ShutFacadesAddNothing(p, Evaluated(p, before, Capability, cs[n - 1]), fs, |fs|);
    }
  }

  lemma ShutTurnAddsNothing(p: ProductDefinition, s: Stage, d: Id)
    requires s.shut
    ensures Processed(p, s, d).shut && Processed(p, s, d).published == s.published
  {
    if d != INVALID_DATA_ID {
      var cs := Dependents(p.capabilities, d);
      ShutCapabilitiesAddNothing(p, s, cs, |cs|);
    }
  }

  /** Main result: from the moment the publisher's queue is shut down it only empties: what it holds
      later is what is left of what it held. */
  lemma {:induction false} ShutQueueOnlyEmpties(p: ProductDefinition, s: State, later: seq<Op>) returns (taken: nat)
    requires s.shut
    ensures var s' := Run(p, s, later); s'.shut && taken <= |s.published| && s'.published == s.published[taken..]
  {
    if later == [] {
      taken := 0;
    } else {
      var n := |later| - 1;
      taken := ShutQueueOnlyEmpties(p, s, later[..n]);
      var before := Run(p, s, later[..n]);
      match later[n]
      case CapabilityTurn(route) =>
        var q := QueueOf(before.capabilityQueues, route);
        if q != [] {
          ShutTurnAddsNothing(p, StageOf(before), q[0].changedDataId);
        }
      case PublishTurn =>
        if before.published != [] {
          taken := taken + 1;
        }
      case _ =>
    }
  }

  // Over runs.

  /** The target waits to be published; a data item may still wait to be processed first. */
  ghost predicate OnItsWay(s: State, t: Target) {
    t in Targets(s.published) || (t.kind == Data && Pending(s, t.id))
  }

  ghost predicate Pops(s: State, op: Op, t: Target) {
    op.PublishTurn? && s.published != [] && s.published[0].target == t
  }

  lemma PoppedTargets(q: seq<PublisherInput>, t: Target)
    requires q != [] && t in Targets(q) && q[0].target != t
    ensures t in Targets(q[1..])
  {
    var i :| 0 <= i < |q| && q[i].target == t;
    assert q[1..][i - 1].target == t;
  }

  lemma StoreTurnAnnounces(p: ProductDefinition, s: State, route: string, t: Target)
    requires Separated(p)
    ensures var s' := AfterStoreTurn(p, s, route);
            && (Same(p, s.ps, s'.ps, t) || OnItsWay(s', t))
            && (OnItsWay(s, t) ==> OnItsWay(s', t))
  {
    var s' := AfterStoreTurn(p, s, route);
    var q := QueueOf(s.storeQueues, route);
    if q != [] && Writes(p, s.ps, q[0]) {
      AfterStoreEffect(p, s.ps, q[0]);
      StoreTurnWaits(p, s, route, route, q[0].id);
      assert Pending(s', q[0].id);
    }
    if t.kind == Data && Pending(s, t.id) {
      var route' :| WaitingOn(s, route', t.id);
      StoreTurnWaits(p, s, route, route', t.id);
      assert Pending(s', t.id);
    }
  }

  lemma CapabilityTurnAnnounces(p: ProductDefinition, s: State, route: string, t: Target)
    requires Separated(p) && UsesValidIds(p) && Consistent(p, s) && !s.shut
    ensures var s' := AfterCapabilityTurn(p, s, route);
            && (Same(p, s.ps, s'.ps, t) || OnItsWay(s', t))
            && (OnItsWay(s, t) ==> OnItsWay(s', t))
  {
    var s' := AfterCapabilityTurn(p, s, route);
    var q := QueueOf(s.capabilityQueues, route);
    if q != [] {
      var d := q[0].changedDataId;
      HeadIsStored(p, s, route);
      ProcessedAnnounces(p, StageOf(s), d);
      assert Same(p, s.ps, s'.ps, t) || t in Targets(s'.published);
      if t.kind == Data && t.id != d && Pending(s, t.id) {
        var route' :| WaitingOn(s, route', t.id);
        CapabilityTurnWaits(p, s, route, route', t.id);
        assert Pending(s', t.id);
      }
    }
  }

  lemma StepAnnounces(p: ProductDefinition, s: State, op: Op, t: Target)
    requires Separated(p) && UsesValidIds(p) && Consistent(p, s) && !s.shut && !Pops(s, op, t)
    ensures var s' := Step(p, s, op);
            && (Same(p, s.ps, s'.ps, t) || OnItsWay(s', t))
            && (OnItsWay(s, t) ==> OnItsWay(s', t))
  {
    match op
    case StoreTurn(route) => StoreTurnAnnounces(p, s, route, t);
    case CapabilityTurn(route) => CapabilityTurnAnnounces(p, s, route, t);
    case PublishTurn =>
      if s.published != [] && t in Targets(s.published) {
        PoppedTargets(s.published, t);
      }
      KeepsPending(s, Step(p, s, op), t.id);
    case Dispatch(_) => KeepsPending(s, Step(p, s, op), t.id);
    case ShutPublisher => KeepsPending(s, Step(p, s, op), t.id);
  }

  lemma KeepsPending(s: State, s': State, d: Id)
    requires s'.capabilityQueues == s.capabilityQueues
    ensures Pending(s, d) ==> Pending(s', d)
  {
    if Pending(s, d) {
      var route :| WaitingOn(s, route, d);
      assert WaitingOn(s', route, d);
    }
  }

  /** In the steps of `later`, taken after `s`, the publisher is open and never takes `t`. */
  ghost predicate Untaken(p: ProductDefinition, s: State, later: seq<Op>, t: Target) {
    forall i :: 0 <= i < |later| ==>
      !Run(p, s, later[..i]).shut && !Pops(Run(p, s, later[..i]), later[i], t)
  }

  lemma {:induction false} RunConcatenates(p: ProductDefinition, s: State, a: seq<Op>, b: seq<Op>)
    ensures Run(p, s, a + b) == Run(p, Run(p, s, a), b)
  {
    if b == [] {
      assert a + b == a;
    } else {
      var n := |b| - 1;
      RunConcatenates(p, s, a, b[..n]);
      assert (a + b)[..|a + b| - 1] == a + b[..n];
    }
  }

  /** Main result: take any two moments of a run between which the publisher stayed open and never
      took the target t.  If t's stored value differs between them, t is on its way at the second;
      and if t was on its way at the first, it still is. */
  lemma {:induction false} NoLostPublication(p: ProductDefinition, earlier: seq<Op>, later: seq<Op>, t: Target)
    requires Valid(p) && Separated(p) && UsesValidIds(p)
    requires Untaken(p, Run(p, INITIAL, earlier), later, t)
    ensures var s, s' := Run(p, INITIAL, earlier), Run(p, INITIAL, earlier + later);
            && (Same(p, s.ps, s'.ps, t) || OnItsWay(s', t))
            && (OnItsWay(s, t) ==> OnItsWay(s', t))
  {
    RunConcatenates(p, INITIAL, earlier, later);
    if later != [] {
      var n := |later| - 1;
      var s := Run(p, INITIAL, earlier);
      assert forall i :: 0 <= i < n ==> later[..n][..i] == later[..i];
      NoLostPublication(p, earlier, later[..n], t);
      RunConcatenates(p, INITIAL, earlier, later[..n]);
      AlwaysConsistent(p, earlier + later[..n]);
      StepAnnounces(p, Run(p, s, later[..n]), later[n], t);
    } else {
      assert earlier + later == earlier;
    }
  }
}
