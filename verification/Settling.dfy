/** What the workers do not do: a value that is already there is neither stored again, nor pushed, nor
    published. */
module Settling {
  import opened Values
  import opened Queues
  import opened PublisherQueue
  import opened Product
  import opened Storage
  import opened Context
  import opened Partitioning
  import opened Snapshots
  import opened Evaluation
  import opened Derivation
  import opened Pipeline
  import opened Consistency

  // Diffs that call equal values the same.

  /** The three types whose values the identity diff always calls different. */
  predicate AlwaysDiffers(v: RIMValue) {
    v.StructValue? || v.ArrayValue? || v.ObjectValue?
  }

  /** The identity diff reports exactly the values that differ, and every struct, array and object. */
  lemma IdentityDiffExactly(a: RIMValue, b: RIMValue)
    ensures IdentityDiff(a, b) <==> a != b || AlwaysDiffers(a)
  {
  }

  /** The diff of `x` never reports a value that `x` builds as different from itself. */
  ghost predicate KnowsItsOwn(x: DerivedDefinition) {
    forall s :: !x.diff(x.build(s), x.build(s))
  }

  ghost predicate AllKnowTheirOwn(p: ProductDefinition) {
    forall c :: c in p.capabilities ==> KnowsItsOwn(c)
  }

  // The store worker.

  /** For an item that is stored as it comes and compared by the identity diff, the worker writes
      exactly when another value is stored, or none, or the value is a struct, an array or an object. */
  lemma WritesExactly(p: ProductDefinition, ps: Partitions, item: RIMDataItem, definition: DataItemDefinition)
    requires Valid(p) && Separated(p) && definition in p.dataItems && definition.id == item.id
    requires definition.diff == Some(IdentityDiff) && (forall a, b :: definition.store(a, b) == b)
    requires item.value.Type() == definition.storeValueType
    ensures Writes(p, ps, item) <==> Get(p, ps, Target(Data, item.id)) != Some(item.value) || AlwaysDiffers(item.value)
  {
    var t := Target(Data, item.id);
    assert Meets(p, DataIdsDiffer);
    DistinctFindsItself(p.dataItems, DataItemId, definition);
    assert Apart(p, t, t);
    var current := Get(p, ps, t);
    assert StoredValue(definition, current, item.value) == item.value;
    if current.Some? {
      FastPathIsExact(current.value, item.value);
      IdentityDiffExactly(current.value, item.value);
    }
  }

  /** Main result: dispatched again, the value that is stored is popped and leaves no trace: the store
      and every capability queue stay as they were. */
  lemma SameValueIsOnlyPopped(p: ProductDefinition, s: State, route: string, definition: DataItemDefinition)
    requires Valid(p) && Separated(p) && QueueOf(s.storeQueues, route) != []
    requires definition in p.dataItems && definition.id == QueueOf(s.storeQueues, route)[0].id
    requires definition.diff == Some(IdentityDiff) && (forall a, b :: definition.store(a, b) == b)
    requires var item := QueueOf(s.storeQueues, route)[0];
             && item.value.Type() == definition.storeValueType && !AlwaysDiffers(item.value)
             && Get(p, s.ps, Target(Data, item.id)) == Some(item.value)
    ensures AfterStoreTurn(p, s, route) == s.(storeQueues := s.storeQueues[route := QueueOf(s.storeQueues, route)[1..]])
  {
    WritesExactly(p, s.ps, QueueOf(s.storeQueues, route)[0], definition);
  }

  // The capability worker.

  /** What is up to date is not renewed. */
  lemma CurrentIsNotRenewed(p: ProductDefinition, ps: Partitions, kind: TargetType, x: DerivedDefinition)
    requires KnowsItsOwn(x) && Current(p, ps, kind, x)
    ensures !Renews(p, ps, kind, x)
  {
  }

  /** Evaluated and reported as changed, a value with such a diff really differs from what was stored. */
  lemma RenewedDiffers(p: ProductDefinition, ps: Partitions, kind: TargetType, x: DerivedDefinition)
    requires Separated(p) && Defined(p, Target(kind, x.id)) && KnowsItsOwn(x) && Renews(p, ps, kind, x)
    ensures !Same(p, ps, Set(p, ps, Target(kind, x.id), Derive(p, ps, kind, x)), Target(kind, x.id))
  {
    SetKeepsOthers(p, ps, Target(kind, x.id), Derive(p, ps, kind, x), Target(kind, x.id));
  }

  /** A round over capabilities leaves those that it took up current, whatever the facades held before. */
  lemma RoundLeavesCurrent(p: ProductDefinition, s: Stage, c: DerivedDefinition, d: DerivedDefinition)
    requires Valid(p) && Separated(p) && c in p.capabilities && d in p.capabilities
    ensures SameKind(p, s.ps, AfterCapability(p, s, c).ps, Data)
    ensures c == d || Current(p, s.ps, Capability, d) ==> Current(p, AfterCapability(p, s, c).ps, Capability, d)
  {
    DefinedByMembership(p, Capability, c);
    EvaluatedEffect(p, s, Capability, c);
    var middle, s' := Evaluated(p, s, Capability, c), AfterCapability(p, s, c);
    FacadesFollow(p, s, c);
    SameKindTransitive(p, s.ps, middle.ps, s'.ps, Data);
    assert Same(p, middle.ps, s'.ps, Target(Capability, d.id));
    if c == d {
      CapabilityRound(p, middle, s', d);
    } else {
      if c.id == d.id {
        SameIdSameDefinition(p, Capability, c, d);
      }
      CapabilityRound(p, s, s', d);
    }
  }

  /** What follows the evaluation in a round touches facades only. */
  lemma FacadesFollow(p: ProductDefinition, s: Stage, c: DerivedDefinition)
    requires Valid(p) && Separated(p)
    ensures var middle := Evaluated(p, s, Capability, c).ps;
            SameKind(p, middle, AfterCapability(p, s, c).ps, Data) && SameKind(p, middle, AfterCapability(p, s, c).ps, Capability)
  {
    DependentsAreFacades(p, c.id);
    FacadesKeepOtherKinds(p, Evaluated(p, s, Capability, c), Dependents(p.facades, c.id));
  }

  lemma {:induction false} RoundsLeaveCurrent(p: ProductDefinition, s: Stage, cs: seq<DerivedDefinition>, n: nat, d: DerivedDefinition)
    requires Valid(p) && Separated(p) && n <= |cs| && AllIn(cs, p.capabilities) && d in p.capabilities
    ensures SameKind(p, s.ps, AfterCapabilities(p, s, cs, n).ps, Data)
    ensures AmongFirst(cs, n, d) ==> Current(p, AfterCapabilities(p, s, cs, n).ps, Capability, d)
  {
    if n != 0 {
      RoundsLeaveCurrent(p, s, cs, n - 1, d);
      var before := AfterCapabilities(p, s, cs, n - 1);
      RoundLeavesCurrent(p, before, cs[n - 1], d);
      SameKindTransitive(p, s.ps, before.ps, AfterCapability(p, before, cs[n - 1]).ps, Data);
    }
  }

  /** A turn leaves every capability that requires the item up to date. */
  lemma TurnLeavesCurrent(p: ProductDefinition, s: Stage, d: Id, c: DerivedDefinition)
    requires Valid(p) && Separated(p) && d != INVALID_DATA_ID && c in p.capabilities && d in c.required
    ensures Current(p, Processed(p, s, d).ps, Capability, c)
  {
    var cs := Dependents(p.capabilities, d);
    DependentsAreCapabilities(p, d);
    DependentsMembers(p.capabilities, d, c);
    AmongFirstIsMember(cs, |cs|, c);
    RoundsLeaveCurrent(p, Published(p, s, Target(Data, d)), cs, |cs|, c);
  }

  /** A round in which nothing needs renewing does nothing. */
  lemma {:induction false} IdleRounds(p: ProductDefinition, s: Stage, cs: seq<DerivedDefinition>, n: nat)
    requires n <= |cs| && forall i :: 0 <= i < n ==> !Renews(p, s.ps, Capability, cs[i])
    ensures AfterCapabilities(p, s, cs, n) == s
  {
    if n != 0 {
      IdleRounds(p, s, cs, n - 1);
    }
  }

  /** If every capability that requires the item is up to date, a turn announces the item and nothing
      else, and stores nothing. */
  lemma CurrentTurnOnlyTells(p: ProductDefinition, s: Stage, d: Id)
    requires AllKnowTheirOwn(p) && d != INVALID_DATA_ID
    requires forall c :: c in p.capabilities && d in c.required ==> Current(p, s.ps, Capability, c)
    ensures Processed(p, s, d) == Published(p, s, Target(Data, d))
  {
    var cs := Dependents(p.capabilities, d);
    forall i | 0 <= i < |cs| ensures !Renews(p, s.ps, Capability, cs[i]) {
      DependentsMembers(p.capabilities, d, cs[i]);
      CurrentIsNotRenewed(p, s.ps, Capability, cs[i]);
    }
    IdleRounds(p, Published(p, s, Target(Data, d)), cs, |cs|);
  }

  /** Main result: a turn settles.  Whatever was stored before, the same id processed again with an
      emptied publisher queue changes no stored value and announces the data item and nothing else. */
  lemma SecondTurnOnlyTells(p: ProductDefinition, s: Stage, d: Id)
    requires Valid(p) && Separated(p) && AllKnowTheirOwn(p) && d != INVALID_DATA_ID && !s.shut
    ensures var first := Processed(p, s, d);
            var second := Processed(p, first.(published := []), d);
            second.ps == first.ps && second.published == [InputFor(p, Target(Data, d))]
  {
    var first := Processed(p, s, d);
    forall c | c in p.capabilities && d in c.required ensures Current(p, first.ps, Capability, c) {
      TurnLeavesCurrent(p, s, d, c);
    }
    TurnStaysOpen(p, s, d);
    CurrentTurnOnlyTells(p, first.(published := []), d);
    InsertedIntoEmpty(InputFor(p, Target(Data, d)));
  }

  lemma InsertedIntoEmpty(e: PublisherInput)
    ensures Inserted(PLAIN, [], e) == [e]
  {
    var none: seq<PublisherInput> := [];
    assert RemoveAt(none, FirstIndex(none, HasTargetOf(e, PLAIN.input))) == none;
    assert InsertAt(none, 0, e) == [e];
    assert ByPriority(none, e, PLAIN.input) == [e];
  }

  lemma {:induction false} RoundsStayOpen(p: ProductDefinition, s: Stage, fs: seq<DerivedDefinition>, n: nat)
    requires n <= |fs|
    ensures AfterFacades(p, s, fs, n).shut == s.shut
  {
    if n != 0 {
      RoundsStayOpen(p, s, fs, n - 1);
    }
  }

  lemma {:induction false} CapabilityRoundsStayOpen(p: ProductDefinition, s: Stage, cs: seq<DerivedDefinition>, n: nat)
    requires n <= |cs|
    ensures AfterCapabilities(p, s, cs, n).shut == s.shut
  {
    if n != 0 {
      CapabilityRoundsStayOpen(p, s, cs, n - 1);
      var before, fs := AfterCapabilities(p, s, cs, n - 1), Dependents(p.facades, cs[n - 1].id);
      RoundsStayOpen(p, Evaluated(p, before, Capability, cs[n - 1]), fs, |fs|);
    }
  }

  lemma TurnStaysOpen(p: ProductDefinition, s: Stage, d: Id)
    ensures Processed(p, s, d).shut == s.shut
  {
    if d != INVALID_DATA_ID {
      var cs := Dependents(p.capabilities, d);
      CapabilityRoundsStayOpen(p, Published(p, s, Target(Data, d)), cs, |cs|);
    }
  }
}
