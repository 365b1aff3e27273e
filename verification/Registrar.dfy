/** The transactions on subgraph versions of packages/graph-node/core/src/subgraph/registrar.rs, and the one
    that the block stream makes when a deployment has caught up with the chain head
    (packages/graph-node/chain/ethereum/src/block_stream.rs). */
module Registrar {
  import opened Common
  import opened SubgraphMetadata

  datatype SwitchingMode = Instant | Synced

  datatype Error =
    | NameExists
    | NameNotFound
    | VersionMissing
    | AssertionFailed
    | DeploymentNotFound
    | AssignmentUnchanged
    | TransactionAborted

  // ---------- Creating a version

  predicate IsSynced(m: Meta, v: Option<Id>) {
    v.Some? && v.value in m.versions && Lookup(m.synced, m.versions[v.value].deployment) == Some(true)
  }

  /** The deployment a version points to, as a set to be added to a query. */
  function DeploymentOf(m: Meta, v: Option<Id>): set<Id> {
    if v.Some? && v.value in m.versions then {m.versions[v.value].deployment} else {}
  }

  /** A summary once `v` (if any) is no longer pending, or no longer current. */
  function NotPending(s: Summary, v: Option<Id>): Summary {
    if Some(s.id) == v then s.(pending := false) else s
  }

  function NotCurrent(s: Summary, v: Option<Id>): Summary {
    if Some(s.id) == v then s.(current := false) else s
  }

  /** The simulation in `get_version_ids_and_summaries`: the summaries after version `id` of subgraph `g`,
      pointing to `d`, is created. */
  function SimulateCreate(before: set<Summary>, mode: SwitchingMode, current: Option<Id>, pending: Option<Id>,
                          currentIsSynced: bool, g: Id, d: Id, id: Id): set<Summary>
  {
    match mode
    case Instant =>
      (set s | s in before :: NotCurrent(NotPending(s, pending), current)) + {Summary(id, g, d, true, false)}
    case Synced =>
      if current.Some? then
        if currentIsSynced then
          (set s | s in before :: NotPending(s, pending)) + {Summary(id, g, d, false, true)}
        else
          (set s | s in before :: NotCurrent(NotPending(s, pending), current)) + {Summary(id, g, d, true, false)}
      else
        before + {Summary(id, g, d, true, false)}
  }

  /** Everything `create_subgraph_version` reads, turned into the operations of its transaction. */
  function PrepareCreateVersion(m: Meta, g: Id, d: Id, mode: SwitchingMode, node: Id, id: Id)
    : Result<seq<Op>, Error>
    requires g in m.subgraphs
  {
    var Subgraph(name, current, pending) := m.subgraphs[g];
    if (current.Some? && current.value !in m.versions) || (pending.Some? && pending.value !in m.versions) then
      Err(VersionMissing)
    else
      var currentIsSynced := IsSynced(m, current);
      var summaries := ReadSummaries(m, {d} + DeploymentOf(m, current) + DeploymentOf(m, pending));
      if summaries.None? then Err(AssertionFailed) else
      var (before, guards) := summaries.value;
      var after := SimulateCreate(before, mode, current, pending, currentIsSynced, g, d, id);
      var reconcile := ReconcileAssignments(before, after, Some(node));
      if reconcile.None? then Err(AssertionFailed) else
      Ok([InStateGuard(m, g)] + guards
         + CreateWrites(m, g, d, mode, id, reconcile.value))
  }

  /** The subgraph must still be called the same and have the same current and pending versions. */
  function InStateGuard(m: Meta, g: Id): Op
    requires g in m.subgraphs
  {
    AbortUnless(SubgraphsInState(m.subgraphs[g].name, m.subgraphs[g].current, m.subgraphs[g].pending), {g})
  }

  /** The part of the transaction that follows the guards on what was read. */
  function CreateWrites(m: Meta, g: Id, d: Id, mode: SwitchingMode, id: Id, reconcile: seq<Op>): seq<Op>
    requires g in m.subgraphs
  {
    [SetVersion(id, Version(g, d))] + reconcile
    + SwitchOps(g, mode, IsSynced(m, m.subgraphs[g].current), id) + DeploymentOps(m, d)
  }

  function SwitchOps(g: Id, mode: SwitchingMode, currentIsSynced: bool, id: Id): seq<Op> {
    match mode
    case Instant => [UpdatePending(g, None), UpdateCurrent(g, Some(id))]
    case Synced =>
      if currentIsSynced then [UpdatePending(g, Some(id))]
      else [UpdatePending(g, None), UpdateCurrent(g, Some(id))]
  }

  /** The deployment must still exist, or still not exist and then be created. */
  function DeploymentOps(m: Meta, d: Id): seq<Op> {
    if d in m.synced then [AbortUnless(DeploymentsWithId(d), {d})]
    else [AbortUnless(DeploymentsWithId(d), {}), AbortUnless(DeploymentsWithId(d), {})] + [SetDeployment(d, false)]
  }

  /** What creating a version is for. The new version replaces a current version that is not synced, and waits
      behind one that is, unless it is to take over at once. */
  function Switched(s: Subgraph, mode: SwitchingMode, currentIsSynced: bool, id: Id): Subgraph {
    if mode == Synced && currentIsSynced then s.(pending := Some(id)) else Subgraph(s.name, Some(id), None)
  }

  /** The state after a version is created, with the assignments that fit it. */
  function VersionCreated(m: Meta, g: Id, d: Id, mode: SwitchingMode, node: Id, id: Id): Meta
    requires g in m.subgraphs
  {
    var m' := Meta(
      m.subgraphs[g := Switched(m.subgraphs[g], mode, IsSynced(m, m.subgraphs[g].current), id)],
      m.versions[id := Version(g, d)],
      if d in m.synced then m.synced else m.synced[d := false],
      m.assignments);
    m'.(assignments := Assigned(m', m.assignments, node))
  }

  lemma FlagsAfter(m: Meta, m': Meta, g: Id, s: Subgraph, v: Id)
    requires OwnsVersions(m) && g in m.subgraphs && m'.subgraphs == m.subgraphs[g := s]
    ensures IsCurrent(m', v) <==> s.current == Some(v) || (IsCurrent(m, v) && m.subgraphs[g].current != Some(v))
    ensures IsPending(m', v) <==> s.pending == Some(v) || (IsPending(m, v) && m.subgraphs[g].pending != Some(v))
  {
    if s.current == Some(v) || s.pending == Some(v) { assert g in m'.subgraphs; }
    if IsCurrent(m, v) && m.subgraphs[g].current != Some(v) {
      var h :| h in m.subgraphs && m.subgraphs[h].current == Some(v);
      assert h in m'.subgraphs && m'.subgraphs[h].current == Some(v);
    }
    if IsPending(m, v) && m.subgraphs[g].pending != Some(v) {
      var h :| h in m.subgraphs && m.subgraphs[h].pending == Some(v);
      assert h in m'.subgraphs && m'.subgraphs[h].pending == Some(v);
    }
    forall h | h in m.subgraphs && h != g && Uses(m.subgraphs[h], v)
      ensures !Uses(m.subgraphs[g], v)
    {
      assert m.versions[v].subgraph == h;
    }
  }

  /** A summary after `s` is replaced by `s'` in the subgraph that owns its version. */
  function Updated(x: Summary, s: Subgraph, s': Subgraph): Summary {
    x.(current := s'.current == Some(x.id) || (x.current && s.current != Some(x.id)),
       pending := s'.pending == Some(x.id) || (x.pending && s.pending != Some(x.id)))
  }

  lemma SimulateIsUpdate(before: set<Summary>, mode: SwitchingMode, s: Subgraph, currentIsSynced: bool,
                         g: Id, d: Id, id: Id)
    requires s.current != Some(id) && (s.current.None? ==> s.pending.None? && !currentIsSynced)
    requires forall x :: x in before ==> x.id != id && (s.current == Some(x.id) ==> x.current)
    ensures var s' := Switched(s, mode, currentIsSynced, id);
            SimulateCreate(before, mode, s.current, s.pending, currentIsSynced, g, d, id)
            == (set x | x in before :: Updated(x, s, s'))
               + {Summary(id, g, d, s'.current == Some(id), s'.pending == Some(id))}
  {
    var s' := Switched(s, mode, currentIsSynced, id);
    if mode == Synced && currentIsSynced {
      assert forall x :: x in before ==> Updated(x, s, s') == NotPending(x, s.pending);
    } else {
      assert forall x :: x in before ==> Updated(x, s, s') == NotCurrent(NotPending(x, s.pending), s.current);
      if s.current.None? { assert forall x :: x in before ==> Updated(x, s, s') == x; }
    }
  }

  /** The simulation is exact: it gives the summaries that reading them again afterwards would give. */
  lemma CreateSimulationExact(m: Meta, g: Id, d: Id, mode: SwitchingMode, node: Id, id: Id, ds: set<Id>)
    requires Inv(m) && g in m.subgraphs && id !in m.versions && d in ds
    ensures var s := m.subgraphs[g];
            SimulateCreate(Summaries(m, ds), mode, s.current, s.pending, IsSynced(m, s.current), g, d, id)
            == Summaries(VersionCreated(m, g, d, mode, node, id), ds)
  {
    var s := m.subgraphs[g];
    var m' := VersionCreated(m, g, d, mode, node, id);
    var s' := m'.subgraphs[g];
    var before := Summaries(m, ds);
    SimulateIsUpdate(before, mode, s, IsSynced(m, s.current), g, d, id);
    var added := Summary(id, g, d, s'.current == Some(id), s'.pending == Some(id));
    NewSummary(m, g, d, mode, node, id);
    OldSummaries(m, g, d, mode, node, id);
    UpdatedSummaries(m, m', s, s', id, added, ds);
  }

  lemma NewSummary(m: Meta, g: Id, d: Id, mode: SwitchingMode, node: Id, id: Id)
    requires Inv(m) && g in m.subgraphs && id !in m.versions
    ensures var m' := VersionCreated(m, g, d, mode, node, id);
            SummaryOf(m', id) == Summary(id, g, d, m'.subgraphs[g].current == Some(id),
                                         m'.subgraphs[g].pending == Some(id))
  {
    var m' := VersionCreated(m, g, d, mode, node, id);
    FlagsAfter(m, m', g, m'.subgraphs[g], id);
    NewIsUnused(m, id);
  }

  lemma NewIsUnused(m: Meta, id: Id)
    requires OwnsVersions(m) && id !in m.versions
    ensures !IsCurrent(m, id) && !IsPending(m, id)
  {
    forall g | g in m.subgraphs
      ensures !Uses(m.subgraphs[g], id)
    {}
  }

  lemma OldSummaries(m: Meta, g: Id, d: Id, mode: SwitchingMode, node: Id, id: Id)
    requires Inv(m) && g in m.subgraphs && id !in m.versions
    ensures var m' := VersionCreated(m, g, d, mode, node, id);
            forall v :: v in m.versions ==>
              SummaryOf(m', v) == Updated(SummaryOf(m, v), m.subgraphs[g], m'.subgraphs[g])
  {
    var m' := VersionCreated(m, g, d, mode, node, id);
    forall v | v in m.versions
      ensures SummaryOf(m', v) == Updated(SummaryOf(m, v), m.subgraphs[g], m'.subgraphs[g])
    {
      FlagsAfter(m, m', g, m'.subgraphs[g], v);
    }
  }

  lemma UpdatedSummaries(m: Meta, m': Meta, s: Subgraph, s': Subgraph, id: Id, added: Summary, ds: set<Id>)
    requires id !in m.versions && m'.versions == m.versions[id := Version(added.subgraph, added.deployment)]
    requires added.deployment in ds && SummaryOf(m', id) == added
    requires forall v :: v in m.versions ==> SummaryOf(m', v) == Updated(SummaryOf(m, v), s, s')
    ensures Summaries(m', ds) == (set x | x in Summaries(m, ds) :: Updated(x, s, s')) + {added}
  {
    var right := (set x | x in Summaries(m, ds) :: Updated(x, s, s')) + {added};
    forall y | y in Summaries(m', ds)
      ensures y in right
    {
      if y.id != id { assert SummaryOf(m, y.id) in Summaries(m, ds); }
    }
    forall y | y in right
      ensures y in Summaries(m', ds)
    {
      if y == added {
        assert y == SummaryOf(m', id);
      } else {
        var x :| x in Summaries(m, ds) && y == Updated(x, s, s');
        assert y == SummaryOf(m', x.id);
      }
    }
  }

  /** Only deployments of the slice that the transaction read can become needed, or stop being so. */
  lemma CreateOutsideSlice(m: Meta, g: Id, d: Id, mode: SwitchingMode, node: Id, id: Id, e: Id)
    requires Inv(m) && g in m.subgraphs && id !in m.versions
    requires e !in {d} + DeploymentOf(m, m.subgraphs[g].current) + DeploymentOf(m, m.subgraphs[g].pending)
    ensures e in Needed(m) <==> e in Needed(VersionCreated(m, g, d, mode, node, id))
  {
    var s := m.subgraphs[g];
    var m' := VersionCreated(m, g, d, mode, node, id);
    forall v | v in m.versions && m.versions[v].deployment == e
      ensures v in m'.versions && m'.versions[v] == m.versions[v] && (Active(m, v) <==> Active(m', v))
    {
      FlagsAfter(m, m', g, m'.subgraphs[g], v);
    }
  }

  lemma CreateKeepsInv(m: Meta, g: Id, d: Id, mode: SwitchingMode, node: Id, id: Id)
    requires Inv(m) && g in m.subgraphs && id !in m.versions
    ensures Inv(VersionCreated(m, g, d, mode, node, id))
  {
    var m' := VersionCreated(m, g, d, mode, node, id);
    NeededDependsOn(m', m'.(assignments := m.assignments));
    forall h, v | h in m'.subgraphs && Uses(m'.subgraphs[h], v)
      ensures v in m'.versions && m'.versions[v].subgraph == h
    {
      if v != id { assert Uses(m.subgraphs[h], v); }
    }
  }

  /** No guard fires, no assertion fails, and the transaction does what it is for. */
  lemma CreateVersionCorrect(m: Meta, g: Id, d: Id, mode: SwitchingMode, node: Id, id: Id)
    requires Inv(m) && g in m.subgraphs && id !in m.versions
    ensures var ops := PrepareCreateVersion(m, g, d, mode, node, id);
            ops.Ok? && ApplyOps(m, ops.value) == Some(VersionCreated(m, g, d, mode, node, id))
    ensures Inv(VersionCreated(m, g, d, mode, node, id))
  {
    var s := m.subgraphs[g];
    var ds := {d} + DeploymentOf(m, s.current) + DeploymentOf(m, s.pending);
    var m' := VersionCreated(m, g, d, mode, node, id);
    var before, after := Summaries(m, ds), Summaries(m', ds);
    CreateKeepsInv(m, g, d, mode, node, id);
    CreateSimulationExact(m, g, d, mode, node, id, ds);
    SummariesSeeNeeded(m, ds);
    SummariesSeeNeeded(m', ds);
    forall e | e !in ds
      ensures e in Needed(m) <==> e in Needed(m')
    {
      CreateOutsideSlice(m, g, d, mode, node, id, e);
    }
    CreateOpsApplied(m, m', g, d, mode, node, id, ds);
  }

  /** Version `v` is fully synced. */
  predicate Caught(m: Meta, v: Id) {
    v in m.versions && m.versions[v].deployment in m.synced && m.synced[m.versions[v].deployment]
  }

  /** The new version waits exactly if it was asked to and the current one is synced, which then stays current;
      otherwise it is current at once, and nothing waits. */
  ghost predicate RoleGiven(m: Meta, s: Subgraph, s': Subgraph, mode: SwitchingMode, id: Id) {
    && s'.name == s.name
    && (forall v :: s.current == Some(v) ==>
          (s'.current == Some(v) && s'.pending == Some(id) <==> mode == Synced && Caught(m, v)))
    && (!(mode == Synced && s.current.Some? && Caught(m, s.current.value)) ==>
          s'.current == Some(id) && s'.pending == None)
  }

  /** What creating a version leaves behind, in every mode. */
  lemma CreatedVersion(m: Meta, g: Id, d: Id, mode: SwitchingMode, node: Id, id: Id)
    requires Inv(m) && g in m.subgraphs && id !in m.versions
    ensures var ops := PrepareCreateVersion(m, g, d, mode, node, id);
            && ops.Ok? && ApplyOps(m, ops.value).Some?
            && var m' := ApplyOps(m, ops.value).value;
            && m'.subgraphs.Keys == m.subgraphs.Keys && RoleGiven(m, m.subgraphs[g], m'.subgraphs[g], mode, id)
            && (forall h :: h in m.subgraphs && h != g ==> m'.subgraphs[h] == m.subgraphs[h])
            && m'.versions == m.versions[id := Version(g, d)]
            && m'.synced == (if d in m.synced then m.synced else m.synced[d := false])
            && d in m'.assignments && m'.assignments[d] == (if d in m.assignments then m.assignments[d] else node)
            && forall e :: e in m'.assignments && e != d ==> e in m.assignments && m'.assignments[e] == m.assignments[e]
  {
    CreateVersionCorrect(m, g, d, mode, node, id);
    CreatedRole(m, g, d, mode, node, id);
    forall e | e in VersionCreated(m, g, d, mode, node, id).assignments && e != d
      ensures e in m.assignments
    {
      CreatedNeeds(m, g, d, mode, node, id, e);
    }
  }

  lemma CreatedRole(m: Meta, g: Id, d: Id, mode: SwitchingMode, node: Id, id: Id)
    requires Inv(m) && g in m.subgraphs && id !in m.versions
    ensures var m' := VersionCreated(m, g, d, mode, node, id);
            RoleGiven(m, m.subgraphs[g], m'.subgraphs[g], mode, id) && d in Needed(m')
  {
    var m' := VersionCreated(m, g, d, mode, node, id);
    assert m'.subgraphs[g].current == Some(id) || m'.subgraphs[g].pending == Some(id);
    assert Active(m', id);
    if m.subgraphs[g].current.Some? { assert Uses(m.subgraphs[g], m.subgraphs[g].current.value); }
  }

  lemma CreatedNeeds(m: Meta, g: Id, d: Id, mode: SwitchingMode, node: Id, id: Id, e: Id)
    requires Inv(m) && g in m.subgraphs && id !in m.versions && e != d
    ensures e in Needed(VersionCreated(m, g, d, mode, node, id)) ==> e in Needed(m)
  {
    var m' := VersionCreated(m, g, d, mode, node, id);
    if v :| v in m'.versions && Active(m', v) && m'.versions[v].deployment == e {
      FlagsAfter(m, m', g, m'.subgraphs[g], v);
      assert v != id;
    }
  }

  lemma CreateOpsApplied(m: Meta, m': Meta, g: Id, d: Id, mode: SwitchingMode, node: Id, id: Id,
                         ds: set<Id>)
    requires Inv(m) && g in m.subgraphs && id !in m.versions
    requires ds == {d} + DeploymentOf(m, m.subgraphs[g].current) + DeploymentOf(m, m.subgraphs[g].pending)
    requires m' == VersionCreated(m, g, d, mode, node, id)
    requires SimulateCreate(Summaries(m, ds), mode, m.subgraphs[g].current, m.subgraphs[g].pending,
                            IsSynced(m, m.subgraphs[g].current), g, d, id) == Summaries(m', ds)
    requires ActiveDeployments(Summaries(m, ds)) == Needed(m) * ds
    requires ActiveDeployments(Summaries(m', ds)) == Needed(m') * ds
    requires forall e :: e !in ds ==> (e in Needed(m) <==> e in Needed(m'))
    ensures var ops := PrepareCreateVersion(m, g, d, mode, node, id);
            ops.Ok? && ApplyOps(m, ops.value) == Some(m')
  {
    var m1 := m.(versions := m.versions[id := Version(g, d)]);
    ReconcileCorrect(m, m', ds, Summaries(m, ds), Summaries(m', ds), Some(node), m1);
    var reconcile := ReconcileAssignments(Summaries(m, ds), Summaries(m', ds), Some(node)).value;
    NeededDependsOn(m', m'.(assignments := m.assignments));
    assert m'.assignments == Assigned(m', m.assignments, node);
    CreateWritesApplied(m, m', g, d, mode, id, reconcile);
    CreateGuardsPass(m, g, ds, CreateWrites(m, g, d, mode, id, reconcile));
    PreparedCreate(m, g, d, mode, node, id, ds, Summaries(m', ds), reconcile);
  }

  lemma PreparedCreate(m: Meta, g: Id, d: Id, mode: SwitchingMode, node: Id, id: Id,
                       ds: set<Id>, after: set<Summary>, reconcile: seq<Op>)
    requires Inv(m) && g in m.subgraphs
    requires ds == {d} + DeploymentOf(m, m.subgraphs[g].current) + DeploymentOf(m, m.subgraphs[g].pending)
    requires SimulateCreate(Summaries(m, ds), mode, m.subgraphs[g].current, m.subgraphs[g].pending,
                            IsSynced(m, m.subgraphs[g].current), g, d, id) == after
    requires ReconcileAssignments(Summaries(m, ds), after, Some(node)) == Some(reconcile)
    ensures PrepareCreateVersion(m, g, d, mode, node, id)
            == Ok([InStateGuard(m, g)] + SummaryGuards(m, ds) + CreateWrites(m, g, d, mode, id, reconcile))
  {
    ReadSummariesSafe(m, ds);
    assert m.subgraphs[g].current.Some? ==> Uses(m.subgraphs[g], m.subgraphs[g].current.value);
    assert m.subgraphs[g].pending.Some? ==> Uses(m.subgraphs[g], m.subgraphs[g].pending.value);
  }

  lemma CreateGuardsPass(m: Meta, g: Id, ds: set<Id>, writes: seq<Op>)
    requires Inv(m) && g in m.subgraphs
    ensures ApplyOps(m, [InStateGuard(m, g)] + SummaryGuards(m, ds) + writes) == ApplyOps(m, writes)
  {
    GuardPasses(m, g);
    ReadSummariesSafe(m, ds);
    ApplyThen(m, [InStateGuard(m, g)], m, SummaryGuards(m, ds));
    ApplyThen(m, [InStateGuard(m, g)] + SummaryGuards(m, ds), m, writes);
  }

  lemma CreateWritesApplied(m: Meta, m': Meta, g: Id, d: Id, mode: SwitchingMode, id: Id, reconcile: seq<Op>)
    requires g in m.subgraphs
    requires m'.subgraphs == m.subgraphs[g := Switched(m.subgraphs[g], mode, IsSynced(m, m.subgraphs[g].current), id)]
    requires m'.versions == m.versions[id := Version(g, d)]
    requires m'.synced == if d in m.synced then m.synced else m.synced[d := false]
    requires ApplyOps(m.(versions := m'.versions), reconcile)
             == Some(m.(versions := m'.versions, assignments := m'.assignments))
    ensures ApplyOps(m, CreateWrites(m, g, d, mode, id, reconcile)) == Some(m')
  {
    var synced := IsSynced(m, m.subgraphs[g].current);
    var m1 := m.(versions := m'.versions);
    var m2 := m1.(assignments := m'.assignments);
    var m3 := m2.(subgraphs := m'.subgraphs);
    var create := [SetVersion(id, Version(g, d))];
    ApplyOne(m, SetVersion(id, Version(g, d)));
    SwitchApplied(m2, g, mode, synced, id);
    DeploymentApplied(m, m3, d);
    ApplyInTurn(m, create, m1, reconcile, m2, SwitchOps(g, mode, synced, id), m3, DeploymentOps(m, d));
  }

  lemma GuardPasses(m: Meta, g: Id)
    requires NamesUnique(m) && g in m.subgraphs
    ensures ApplyOps(m, [InStateGuard(m, g)]) == Some(m)
    ensures ApplyOps(m, [AbortUnless(SubgraphsNamed(m.subgraphs[g].name), {g})]) == Some(m)
  {
    var s := m.subgraphs[g];
    assert Matches(m, SubgraphsInState(s.name, s.current, s.pending)) == {g};
    assert Matches(m, SubgraphsNamed(s.name)) == {g};
    ApplyOne(m, InStateGuard(m, g));
    ApplyOne(m, AbortUnless(SubgraphsNamed(s.name), {g}));
  }

  lemma SwitchApplied(m: Meta, g: Id, mode: SwitchingMode, currentIsSynced: bool, id: Id)
    requires g in m.subgraphs
    ensures ApplyOps(m, SwitchOps(g, mode, currentIsSynced, id)) ==
            Some(m.(subgraphs := m.subgraphs[g := Switched(m.subgraphs[g], mode, currentIsSynced, id)]))
  {
    if mode == Synced && currentIsSynced {
      ApplyOne(m, UpdatePending(g, Some(id)));
    } else {
      ApplyTwo(m, UpdatePending(g, None), UpdateCurrent(g, Some(id)));
      assert m.subgraphs[g := m.subgraphs[g].(pending := None)][g := Subgraph(m.subgraphs[g].name, Some(id), None)]
          == m.subgraphs[g := Subgraph(m.subgraphs[g].name, Some(id), None)];
    }
  }

  lemma DeploymentApplied(m: Meta, x: Meta, d: Id)
    requires x.synced == m.synced
    ensures ApplyOps(x, DeploymentOps(m, d)) ==
            Some(x.(synced := if d in m.synced then m.synced else m.synced[d := false]))
  {
    if d in m.synced {
      ApplyOne(x, AbortUnless(DeploymentsWithId(d), {d}));
    } else {
      var guard := AbortUnless(DeploymentsWithId(d), {});
      ApplyTwo(x, guard, guard);
      ApplyThen(x, [guard, guard], x, [SetDeployment(d, false)]);
      ApplyOne(x, SetDeployment(d, false));
    }
  }

  // ---------- Promoting pending versions once a deployment is synced

  function PendingOn(m: Meta, d: Id): set<Id> {
    Matches(m, SubgraphsAwaiting(Matches(m, VersionsOfDeployments({d}))))
  }

  function CurrentOf(m: Meta, gs: set<Id>): set<Id> {
    set g | g in gs && g in m.subgraphs && m.subgraphs[g].current.Some? :: m.subgraphs[g].current.value
  }

  function DeploymentsOf(m: Meta, vs: set<Id>): set<Id> {
    set v | v in vs && v in m.versions :: m.versions[v].deployment
  }

  /** The simulation in `update_subgraph_synced_status`: the versions `vs` are demoted. */
  function SimulateDemotion(before: set<Summary>, vs: set<Id>): set<Summary> {
    set s | s in before :: if s.id in vs then s.(current := false) else s
  }

  /** The transaction `update_subgraph_synced_status` makes when the subgraph pointer of deployment `d` has
      reached the chain head. */
  function PrepareSynced(m: Meta, d: Id): Result<seq<Op>, Error> {
    var vs := Matches(m, VersionsOfDeployments({d}));
    var gs := PendingOn(m, d);
    var demoted := CurrentOf(m, gs);
    var summaries := ReadSummaries(m, DeploymentsOf(m, demoted));
    if summaries.None? then Err(AssertionFailed) else
    var (before, guards) := summaries.value;
    var reconcile := ReconcileAssignments(before, SimulateDemotion(before, demoted), None);
    if reconcile.None? then Err(AssertionFailed) else
    Ok([UpdateSynced(d, true), AbortUnless(VersionsOfDeployments({d}), vs)] + [AbortUnless(SubgraphsAwaiting(vs), gs)]
       + guards + (reconcile.value + [PromotePending(gs)]))
  }

  /** Deployment `d` is synced, the versions waiting for it have taken over, and the assignments fit. */
  function SyncedState(m: Meta, d: Id): Meta {
    var m' := m.(subgraphs := Promoted(m.subgraphs, PendingOn(m, d)), synced := m.synced[d := true]);
    m'.(assignments := Assigned(m', m.assignments, Id(0)))
  }

  /** Promotion demotes the current versions of the subgraphs concerned and leaves every other version active
      or inactive as it was. */
  lemma ActiveAfterPromotion(m: Meta, m': Meta, gs: set<Id>, v: Id)
    requires OwnsVersions(m) && PendingBehindCurrent(m)
    requires forall g :: g in gs ==> g in m.subgraphs && m.subgraphs[g].pending.Some?
    requires m'.subgraphs == Promoted(m.subgraphs, gs)
    ensures Active(m', v) <==> Active(m, v) && v !in CurrentOf(m, gs)
    ensures v in CurrentOf(m, gs) ==> !IsPending(m, v)
  {
    if v in CurrentOf(m, gs) {
      var g :| g in gs && m.subgraphs[g].current == Some(v);
      assert Uses(m.subgraphs[g], v);
      forall h | h in m.subgraphs && Uses(m.subgraphs[h], v)
        ensures h == g
      {
        assert m.versions[v].subgraph == g && m.versions[v].subgraph == h;
      }
    } else {
      if h :| h in m.subgraphs && Uses(m.subgraphs[h], v) {
        assert h in m'.subgraphs && Uses(m'.subgraphs[h], v);
      }
    }
    if h :| h in m'.subgraphs && Uses(m'.subgraphs[h], v) {
      assert h in m.subgraphs && Uses(m.subgraphs[h], v);
    }
  }

  lemma SyncedNeeds(m: Meta, d: Id)
    requires Inv(m)
    ensures var ds := DeploymentsOf(m, CurrentOf(m, PendingOn(m, d)));
            && Needed(SyncedState(m, d)) <= Needed(m)
            && (forall e :: e !in ds ==> (e in Needed(m) <==> e in Needed(SyncedState(m, d))))
            && ActiveDeployments(SimulateDemotion(Summaries(m, ds), CurrentOf(m, PendingOn(m, d))))
               == Needed(SyncedState(m, d)) * ds
  {
    var gs := PendingOn(m, d);
    var demoted := CurrentOf(m, gs);
    var ds := DeploymentsOf(m, demoted);
    var m' := SyncedState(m, d);
    forall v
      ensures Active(m', v) <==> Active(m, v) && v !in demoted
      ensures v in demoted ==> !IsPending(m, v)
    {
      ActiveAfterPromotion(m, m', gs, v);
    }
    var after := SimulateDemotion(Summaries(m, ds), demoted);
    forall e | e in Needed(m') * ds
      ensures e in ActiveDeployments(after)
    {
      var v :| v in m.versions && Active(m', v) && m.versions[v].deployment == e;
      assert SummaryOf(m, v) in Summaries(m, ds);
      assert SummaryOf(m, v) in after;
    }
    forall e | e in ActiveDeployments(after)
      ensures e in Needed(m') * ds
    {
      var x :| x in after && (x.pending || x.current) && x.deployment == e;
      assert Active(m', x.id);
    }
  }

  lemma SyncedKeepsInv(m: Meta, d: Id)
    requires Inv(m)
    ensures Inv(SyncedState(m, d))
  {
    var m' := SyncedState(m, d);
    NeededDependsOn(m', m'.(assignments := m.assignments));
    forall h, v | h in m'.subgraphs && Uses(m'.subgraphs[h], v)
      ensures v in m'.versions && m'.versions[v].subgraph == h
    {
      assert Uses(m.subgraphs[h], v);
    }
  }

  /** No guard fires, no node is asked for, and every version waiting for the deployment takes over. */
  lemma SyncedCorrect(m: Meta, d: Id)
    requires Inv(m) && d in m.synced
    ensures var ops := PrepareSynced(m, d);
            ops.Ok? && ApplyOps(m, ops.value) == Some(SyncedState(m, d))
    ensures Inv(SyncedState(m, d))
  {
    var vs, gs := Matches(m, VersionsOfDeployments({d})), PendingOn(m, d);
    var demoted := CurrentOf(m, gs);
    var ds := DeploymentsOf(m, demoted);
    var m' := SyncedState(m, d);
    var before, after := Summaries(m, ds), SimulateDemotion(Summaries(m, ds), demoted);
    SyncedKeepsInv(m, d);
    SyncedNeeds(m, d);
    SummariesSeeNeeded(m, ds);
    ReadSummariesSafe(m, ds);
    var m1 := m.(synced := m.synced[d := true]);
    ReconcileCorrect(m, m', ds, before, after, None, m1);
    var reconcile := ReconcileAssignments(before, after, None).value;
    NeededDependsOn(m', m'.(assignments := m.assignments));
    SyncedOpsApplied(m, d, ds, reconcile);
  }

  /** What syncing leaves behind: exactly the subgraphs whose pending version points to the deployment have it as their
      current one; of the assignments, some may be gone. */
  lemma PromotedVersions(m: Meta, d: Id)
    requires Inv(m) && d in m.synced
    ensures var ops := PrepareSynced(m, d);
            && ops.Ok? && ApplyOps(m, ops.value).Some?
            && var m' := ApplyOps(m, ops.value).value;
            && m'.subgraphs.Keys == m.subgraphs.Keys
            && (forall g :: g in m.subgraphs ==>
                  var s := m.subgraphs[g];
                  m'.subgraphs[g] ==
                  if s.pending.Some? && s.pending.value in m.versions && m.versions[s.pending.value].deployment == d
                  then Subgraph(s.name, s.pending, None) else s)
            && m'.versions == m.versions && m'.synced == m.synced[d := true]
            && forall e :: e in m'.assignments ==> e in m.assignments && m'.assignments[e] == m.assignments[e]
  {
    SyncedCorrect(m, d);
    SyncedNeeds(m, d);
    WaitingFor(m, d);
  }

  lemma WaitingFor(m: Meta, d: Id)
    ensures forall g :: g in PendingOn(m, d) <==>
              g in m.subgraphs && m.subgraphs[g].pending.Some? && m.subgraphs[g].pending.value in m.versions
              && m.versions[m.subgraphs[g].pending.value].deployment == d
  {}

  lemma SyncedOpsApplied(m: Meta, d: Id, ds: set<Id>, reconcile: seq<Op>)
    requires Inv(m) && d in m.synced
    requires ApplyOps(m.(synced := m.synced[d := true]), reconcile)
             == Some(m.(synced := m.synced[d := true], assignments := SyncedState(m, d).assignments))
    ensures var vs, gs := Matches(m, VersionsOfDeployments({d})), PendingOn(m, d);
            ApplyOps(m, [UpdateSynced(d, true), AbortUnless(VersionsOfDeployments({d}), vs)]
                        + [AbortUnless(SubgraphsAwaiting(vs), gs)]
                        + SummaryGuards(m, ds) + (reconcile + [PromotePending(gs)]))
            == Some(SyncedState(m, d))
  {
    var vs, gs := Matches(m, VersionsOfDeployments({d})), PendingOn(m, d);
    var m1 := m.(synced := m.synced[d := true]);
    var m2 := m1.(assignments := SyncedState(m, d).assignments);
    ApplyTwo(m, UpdateSynced(d, true), AbortUnless(VersionsOfDeployments({d}), vs));
    assert Matches(m1, SubgraphsAwaiting(vs)) == gs;
    ApplyOne(m1, AbortUnless(SubgraphsAwaiting(vs), gs));
    ReadSummariesSafe(m1, ds);
    assert SummaryGuards(m1, ds) == SummaryGuards(m, ds);
    ApplyThen(m1, reconcile, m2, [PromotePending(gs)]);
    ApplyOne(m2, PromotePending(gs));
    ApplyInTurn(m, [UpdateSynced(d, true), AbortUnless(VersionsOfDeployments({d}), vs)], m1,
                [AbortUnless(SubgraphsAwaiting(vs), gs)], m1, SummaryGuards(m, ds), m1,
                reconcile + [PromotePending(gs)]);
  }

  // ---------- Removing a subgraph

  function PrepareRemove(m: Meta, g: Id): Result<seq<Op>, Error>
    requires g in m.subgraphs
  {
    var vs := Matches(m, VersionsOfSubgraph(g));
    var summaries := ReadSummaries(m, DeploymentsOf(m, vs));
    if summaries.None? then Err(AssertionFailed) else
    var (before, guards) := summaries.value;
    var reconcile := ReconcileAssignments(before, SimulateRemoval(before, vs), None);
    if reconcile.None? then Err(AssertionFailed) else
    Ok([AbortUnless(SubgraphsNamed(m.subgraphs[g].name), {g})] + [AbortUnless(VersionsOfSubgraph(g), vs)]
       + guards + (reconcile.value + [RemoveVersions(vs), RemoveSubgraph(g)]))
  }

  function SimulateRemoval(before: set<Summary>, vs: set<Id>): set<Summary> {
    set s | s in before && s.id !in vs
  }

  /** Subgraph `g` and its versions are gone, and the assignments fit. */
  function Removed(m: Meta, g: Id): Meta {
    var m' := m.(subgraphs := m.subgraphs - {g}, versions := m.versions - Matches(m, VersionsOfSubgraph(g)));
    m'.(assignments := Assigned(m', m.assignments, Id(0)))
  }

  lemma FlagsAfterRemoval(m: Meta, g: Id, v: Id)
    requires OwnsVersions(m) && v in m.versions && m.versions[v].subgraph != g
    ensures IsCurrent(Removed(m, g), v) == IsCurrent(m, v)
    ensures IsPending(Removed(m, g), v) == IsPending(m, v)
  {
    var m' := Removed(m, g);
    if h :| h in m.subgraphs && m.subgraphs[h].current == Some(v) {
      assert Uses(m.subgraphs[h], v) && h in m'.subgraphs;
    }
    if h :| h in m.subgraphs && m.subgraphs[h].pending == Some(v) {
      assert Uses(m.subgraphs[h], v) && h in m'.subgraphs;
    }
  }

  /** This simulation is exact, too. */
  lemma RemovalSimulationExact(m: Meta, g: Id, ds: set<Id>)
    requires OwnsVersions(m)
    ensures SimulateRemoval(Summaries(m, ds), Matches(m, VersionsOfSubgraph(g))) == Summaries(Removed(m, g), ds)
  {
    var m' := Removed(m, g);
    var after := SimulateRemoval(Summaries(m, ds), Matches(m, VersionsOfSubgraph(g)));
    forall v | v in m'.versions
      ensures SummaryOf(m', v) == SummaryOf(m, v)
    {
      FlagsAfterRemoval(m, g, v);
    }
    forall x | x in Summaries(m', ds)
      ensures x in after
    {
      assert x == SummaryOf(m, x.id);
    }
    forall x | x in after
      ensures x in Summaries(m', ds)
    {
      assert x == SummaryOf(m', x.id);
    }
  }

  lemma RemovalNeeds(m: Meta, g: Id)
    requires Inv(m)
    ensures Needed(Removed(m, g)) <= Needed(m)
    ensures forall e :: e !in DeploymentsOf(m, Matches(m, VersionsOfSubgraph(g))) ==>
              (e in Needed(m) <==> e in Needed(Removed(m, g)))
  {
    var m' := Removed(m, g);
    forall v | v in m'.versions
      ensures Active(m', v) <==> Active(m, v)
    {
      FlagsAfterRemoval(m, g, v);
    }
  }

  lemma RemovalKeepsInv(m: Meta, g: Id)
    requires Inv(m)
    ensures Inv(Removed(m, g))
  {
    var m' := Removed(m, g);
    NeededDependsOn(m', m'.(assignments := m.assignments));
    RemovalNeeds(m, g);
    forall h, v | h in m'.subgraphs && Uses(m'.subgraphs[h], v)
      ensures v in m'.versions && m'.versions[v].subgraph == h
    {
      assert Uses(m.subgraphs[h], v);
    }
  }

  /** No guard fires, no node is asked for, and only what the subgraph alone needed is unassigned. */
  lemma RemoveCorrect(m: Meta, g: Id)
    requires Inv(m) && g in m.subgraphs
    ensures var ops := PrepareRemove(m, g);
            ops.Ok? && ApplyOps(m, ops.value) == Some(Removed(m, g))
    ensures Inv(Removed(m, g))
  {
    var vs := Matches(m, VersionsOfSubgraph(g));
    var ds := DeploymentsOf(m, vs);
    var m' := Removed(m, g);
    RemovalKeepsInv(m, g);
    RemovalNeeds(m, g);
    RemovalSimulationExact(m, g, ds);
    SummariesSeeNeeded(m, ds);
    SummariesSeeNeeded(m', ds);
    ReadSummariesSafe(m, ds);
    ReconcileCorrect(m, m', ds, Summaries(m, ds), Summaries(m', ds), None, m);
    var reconcile := ReconcileAssignments(Summaries(m, ds), Summaries(m', ds), None).value;
    NeededDependsOn(m', m'.(assignments := m.assignments));
    RemoveOpsApplied(m, g, ds, reconcile);
  }

  /** What removing a subgraph leaves behind: everything of the others, and nothing of it. */
  lemma RemovedSubgraph(m: Meta, g: Id)
    requires Inv(m) && g in m.subgraphs
    ensures var ops := PrepareRemove(m, g);
            && ops.Ok? && ApplyOps(m, ops.value).Some?
            && var m' := ApplyOps(m, ops.value).value;
            && (forall h :: Lookup(m'.subgraphs, h) == if h == g then None else Lookup(m.subgraphs, h))
            && (forall v :: v in m'.versions <==> v in m.versions && m.versions[v].subgraph != g)
            && (forall v :: v in m'.versions ==> m'.versions[v] == m.versions[v])
            && m'.synced == m.synced
            && forall e :: e in m'.assignments ==> e in m.assignments && m'.assignments[e] == m.assignments[e]
  {
    RemoveCorrect(m, g);
    RemovalNeeds(m, g);
  }

  lemma RemoveOpsApplied(m: Meta, g: Id, ds: set<Id>, reconcile: seq<Op>)
    requires Inv(m) && g in m.subgraphs
    requires ApplyOps(m, reconcile) == Some(m.(assignments := Removed(m, g).assignments))
    ensures var vs := Matches(m, VersionsOfSubgraph(g));
            ApplyOps(m, [AbortUnless(SubgraphsNamed(m.subgraphs[g].name), {g})]
              + [AbortUnless(VersionsOfSubgraph(g), vs)]
                        + SummaryGuards(m, ds) + (reconcile + [RemoveVersions(vs), RemoveSubgraph(g)]))
            == Some(Removed(m, g))
  {
    var vs := Matches(m, VersionsOfSubgraph(g));
    var m1 := m.(assignments := Removed(m, g).assignments);
    GuardPasses(m, g);
    ApplyOne(m, AbortUnless(VersionsOfSubgraph(g), vs));
    ReadSummariesSafe(m, ds);
    ApplyTwo(m1, RemoveVersions(vs), RemoveSubgraph(g));
    ApplyThen(m, reconcile, m1, [RemoveVersions(vs), RemoveSubgraph(g)]);
    ApplyInTurn(m, [AbortUnless(SubgraphsNamed(m.subgraphs[g].name), {g})], m,
                [AbortUnless(VersionsOfSubgraph(g), vs)], m, SummaryGuards(m, ds), m,
                reconcile + [RemoveVersions(vs), RemoveSubgraph(g)]);
  }

  // ---------- Creating a subgraph, reassigning a deployment

  function PrepareCreateSubgraph(m: Meta, name: Id, id: Id): Result<seq<Op>, Error> {
    if Matches(m, SubgraphsNamed(name)) != {} then Err(NameExists)
    else Ok([AbortUnless(SubgraphsNamed(name), {}), SetSubgraph(id, Subgraph(name, None, None))])
  }

  lemma CreateSubgraphCorrect(m: Meta, name: Id, id: Id)
    requires Inv(m) && id !in m.subgraphs
    ensures Matches(m, SubgraphsNamed(name)) != {} ==> PrepareCreateSubgraph(m, name, id) == Err(NameExists)
    ensures var m' := m.(subgraphs := m.subgraphs[id := Subgraph(name, None, None)]);
            Matches(m, SubgraphsNamed(name)) == {} ==>
              ApplyOps(m, PrepareCreateSubgraph(m, name, id).value) == Some(m') && Inv(m')
  {
    if Matches(m, SubgraphsNamed(name)) != {} { return; }
    var m' := m.(subgraphs := m.subgraphs[id := Subgraph(name, None, None)]);
    ApplyTwo(m, AbortUnless(SubgraphsNamed(name), {}), SetSubgraph(id, Subgraph(name, None, None)));
    forall v
      ensures Active(m', v) <==> Active(m, v)
    {
      if g :| g in m.subgraphs && Uses(m.subgraphs[g], v) {
        assert g in m'.subgraphs && Uses(m'.subgraphs[g], v);
      }
    }
    assert Needed(m') == Needed(m);
    forall h | h in m.subgraphs
      ensures m.subgraphs[h].name != name
    {
      assert m.subgraphs[h].name == name ==> h in Matches(m, SubgraphsNamed(name));
    }
    assert OwnsVersions(m') by {
      forall g, v | g in m'.subgraphs && Uses(m'.subgraphs[g], v)
        ensures v in m'.versions && m'.versions[v].subgraph == g
      {
        assert Uses(m.subgraphs[g], v);
      }
    }
  }

  function PrepareReassign(m: Meta, d: Id, node: Id): Result<seq<Op>, Error> {
    if d !in m.assignments then Err(DeploymentNotFound)
    else if m.assignments[d] == node then Err(AssignmentUnchanged)
    else Ok([AbortUnless(AssignmentsTo(d, m.assignments[d]), {d}), SetAssignments({d}, node)])
  }

  lemma SingleAssignment(assignments: map<Id, Id>, d: Id, node: Id, ds: set<Id>)
    requires ds == {d}
    ensures Reassigned(assignments, ds, node) == assignments[d := node]
  {}

  lemma ReassignCorrect(m: Meta, d: Id, node: Id)
    requires Inv(m) && PrepareReassign(m, d, node).Ok?
    ensures var m' := m.(assignments := m.assignments[d := node]);
            ApplyOps(m, PrepareReassign(m, d, node).value) == Some(m') && Inv(m')
  {
    ReassignKeepsInv(m, d, node);
    ReassignOps(m, d, node);
  }

  lemma ReassignOps(m: Meta, d: Id, node: Id)
    requires d in m.assignments
    ensures ApplyOps(m, [AbortUnless(AssignmentsTo(d, m.assignments[d]), {d}), SetAssignments({d}, node)])
            == Some(m.(assignments := m.assignments[d := node]))
  {
    AssignedGuard(m, d);
    AssignedOne(m, d, node);
    ApplyTwo(m, AbortUnless(AssignmentsTo(d, m.assignments[d]), {d}), SetAssignments({d}, node));
  }

  lemma AssignedGuard(m: Meta, d: Id)
    requires d in m.assignments
    ensures ApplyOp(m, AbortUnless(AssignmentsTo(d, m.assignments[d]), {d})) == Some(m)
  {}

  lemma AssignedOne(m: Meta, d: Id, node: Id)
    ensures ApplyOp(m, SetAssignments({d}, node)) == Some(m.(assignments := m.assignments[d := node]))
  {
    SingleAssignment(m.assignments, d, node, {d});
  }

  lemma ReassignKeepsInv(m: Meta, d: Id, node: Id)
    requires Inv(m) && d in m.assignments
    ensures Inv(m.(assignments := m.assignments[d := node]))
  {
    InvDependsOn(m, m.(assignments := m.assignments[d := node]));
  }

  // ---------- Runs

  datatype Transaction =
    | CreateSubgraph(name: Id, id: Id)
    | CreateVersion(name: Id, deployment: Id, mode: SwitchingMode, node: Id, id: Id)
    | Remove(name: Id)
    | Reassign(deployment: Id, node: Id)
    | MarkSynced(deployment: Id)

  /** Generated identifiers are new. */
  predicate FreshId(m: Meta, t: Transaction) {
    match t
    case CreateSubgraph(_, id) => id !in m.subgraphs
    case CreateVersion(_, _, _, _, id) => id !in m.versions
    case _ => true
  }

  function Prepare(m: Meta, t: Transaction, g: Option<Id>): Result<seq<Op>, Error>
    requires g.Some? ==> g.value in m.subgraphs
  {
    match t
    case CreateSubgraph(name, id) => PrepareCreateSubgraph(m, name, id)
    case CreateVersion(_, d, mode, node, id) =>
      if g.None? then Err(NameNotFound) else PrepareCreateVersion(m, g.value, d, mode, node, id)
    case Remove(_) => if g.None? then Err(NameNotFound) else PrepareRemove(m, g.value)
    case Reassign(d, node) => PrepareReassign(m, d, node)
    case MarkSynced(d) => PrepareSynced(m, d)
  }

  /** Whether `g` is what looking up the subgraph that `t` names finds. */
  predicate Finds(m: Meta, t: Transaction, g: Option<Id>) {
    (t.CreateVersion? || t.Remove?) ==>
      Matches(m, SubgraphsNamed(t.name)) == if g.Some? then {g.value} else {}
  }

  /** The outcomes a caller can expect: anything but a failed assertion, a missing version or, for a deployment that
      exists, an aborted transaction. */
  predicate ExpectedError(m: Meta, t: Transaction, g: Option<Id>, e: Error) {
    match e
    case NameExists => t.CreateSubgraph? && Matches(m, SubgraphsNamed(t.name)) != {}
    case NameNotFound => (t.CreateVersion? || t.Remove?) && g.None?
    case DeploymentNotFound => t.Reassign? && t.deployment !in m.assignments
    case AssignmentUnchanged => t.Reassign? && Lookup(m.assignments, t.deployment) == Some(t.node)
    case TransactionAborted => t.MarkSynced? && t.deployment !in m.synced
    case _ => false
  }

  /** The state a successful transaction leads to. */
  function Target(m: Meta, t: Transaction, g: Option<Id>): Meta
    requires g.Some? ==> g.value in m.subgraphs
  {
    match t
    case CreateSubgraph(name, id) => m.(subgraphs := m.subgraphs[id := Subgraph(name, None, None)])
    case CreateVersion(_, d, mode, node, id) => if g.None? then m else VersionCreated(m, g.value, d, mode, node, id)
    case Remove(_) => if g.None? then m else Removed(m, g.value)
    case Reassign(d, node) => m.(assignments := m.assignments[d := node])
    case MarkSynced(d) => SyncedState(m, d)
  }

  lemma SyncedAborts(m: Meta, d: Id)
    requires Inv(m) && d !in m.synced
    ensures PrepareSynced(m, d).Ok? ==> ApplyOps(m, PrepareSynced(m, d).value).None?
    ensures PrepareSynced(m, d).Ok?
  {
    var ds := DeploymentsOf(m, CurrentOf(m, PendingOn(m, d)));
    SyncedNeeds(m, d);
    SummariesSeeNeeded(m, ds);
    ReadSummariesSafe(m, ds);
  }

  /** A transaction prepared as `ops` either changes nothing, for a reason its caller can see, or reaches its target. */
  ghost predicate Settles(m: Meta, t: Transaction, g: Option<Id>, ops: Result<seq<Op>, Error>)
    requires g.Some? ==> g.value in m.subgraphs
  {
    if ops.Err? then ExpectedError(m, t, g, ops.error)
    else if ApplyOps(m, ops.value).None? then ExpectedError(m, t, g, TransactionAborted)
    else ApplyOps(m, ops.value) == Some(Target(m, t, g)) && Inv(Target(m, t, g))
  }

  lemma TransactionCorrect(m: Meta, t: Transaction, g: Option<Id>)
    requires Inv(m) && FreshId(m, t) && (g.Some? ==> g.value in m.subgraphs) && Finds(m, t, g)
    ensures Settles(m, t, g, Prepare(m, t, g))
  {
    match t {
      case CreateSubgraph(name, id) =>
        if Matches(m, SubgraphsNamed(name)) == {} { CreateSubgraphCorrect(m, name, id); }
      case CreateVersion(_, d, mode, node, id) =>
        if g.Some? { CreateVersionCorrect(m, g.value, d, mode, node, id); }
      case Remove(_) =>
        if g.Some? { RemoveCorrect(m, g.value); }
      case Reassign(d, node) =>
        if PrepareReassign(m, d, node).Ok? { ReassignCorrect(m, d, node); }
      case MarkSynced(d) =>
        if d in m.synced { SyncedCorrect(m, d); } else { SyncedAborts(m, d); }
    }
  }

  /** The metadata subgraph, changed by one committed transaction at a time. */
  class MetadataStore {
    var meta: Meta

    constructor ()
      ensures Inv(meta) && meta == Empty
    {
      meta := Empty;
    }

    method FindOne(name: Id) returns (g: Option<Id>)
      requires Inv(meta)
      ensures Matches(meta, SubgraphsNamed(name)) == if g.Some? then {g.value} else {}
      ensures g.Some? ==> g.value in meta.subgraphs
    {
      var found := Matches(meta, SubgraphsNamed(name));
      if found == {} { return None; }
      var id :| id in found;
      assert forall h :: h in found ==> h == id;
      g := Some(id);
    }

    /** Applies all operations or, when one of them aborts, none. */
    method ApplyMetadataOperations(ops: seq<Op>) returns (ok: bool)
      modifies this
      ensures ok == ApplyOps(old(meta), ops).Some?
      ensures meta == if ok then ApplyOps(old(meta), ops).value else old(meta)
    {
      var next := ApplyOps(meta, ops);
      ok := next.Some?;
      if ok { meta := next.value; }
    }

    /** Reads, then a guarded write: one transaction with nothing in between. */
    method Execute(t: Transaction) returns (error: Option<Error>, ghost found: Option<Id>)
      requires Inv(meta) && FreshId(meta, t)
      modifies this
      ensures Inv(meta) && Finds(old(meta), t, found)
      ensures found.Some? ==> found.value in old(meta).subgraphs
      ensures error.None? ==> meta == Target(old(meta), t, found)
      ensures error.Some? ==> meta == old(meta) && ExpectedError(old(meta), t, found, error.value)
    {
      var g: Option<Id> := None;
      if t.CreateVersion? || t.Remove? { g := FindOne(t.name); }
      found := g;
      TransactionCorrect(meta, t, g);
      var prepared := Prepare(meta, t, g);
      match prepared {
        case Err(e) => error := Some(e);
        case Ok(ops) =>
          var ok := ApplyMetadataOperations(ops);
          error := if ok then None else Some(TransactionAborted);
      }
    }
  }

  /** The subgraph a transaction names, if there is one. */
  ghost function Found(m: Meta, t: Transaction): Option<Id>
    ensures Found(m, t).Some? ==> Found(m, t).value in m.subgraphs
  {
    if (t.CreateVersion? || t.Remove?) && Matches(m, SubgraphsNamed(t.name)) != {}
    then var g :| g in Matches(m, SubgraphsNamed(t.name)); Some(g)
    else None
  }

  lemma FoundFinds(m: Meta, t: Transaction)
    requires NamesUnique(m)
    ensures Finds(m, t, Found(m, t))
  {
    var g := Found(m, t);
    if g.Some? {
      assert Matches(m, SubgraphsNamed(t.name)) == {g.value};
    }
  }

  /** The state after a transaction, whether it committed or not. */
  ghost function After(m: Meta, t: Transaction): Meta {
    var ops := Prepare(m, t, Found(m, t));
    if ops.Err? || ApplyOps(m, ops.value).None? then m else ApplyOps(m, ops.value).value
  }

  ghost function AfterRun(m: Meta, ts: seq<Transaction>): Meta {
    if ts == [] then m else After(AfterRun(m, ts[..|ts| - 1]), ts[|ts| - 1])
  }

  ghost predicate FreshAt(ts: seq<Transaction>, i: nat)
    requires i < |ts|
  {
    FreshId(AfterRun(Empty, ts[..i]), ts[i])
  }

  ghost predicate SettlesAt(ts: seq<Transaction>, i: nat)
    requires i < |ts|
  {
    var m := AfterRun(Empty, ts[..i]);
    Settles(m, ts[i], Found(m, ts[i]), Prepare(m, ts[i], Found(m, ts[i])))
  }

  /** A version only ever waits behind one that is synced. */
  ghost predicate WaitsBehindSynced(m: Meta) {
    forall g :: g in m.subgraphs && m.subgraphs[g].pending.Some? ==>
      m.subgraphs[g].current.Some? && Caught(m, m.subgraphs[g].current.value)
  }

  lemma StillBehindSynced(m: Meta, t: Transaction)
    requires Inv(m) && FreshId(m, t) && WaitsBehindSynced(m)
    ensures WaitsBehindSynced(After(m, t))
  {
    var g := Found(m, t);
    FoundFinds(m, t);
    match t {
      case CreateSubgraph(name, id) =>
        if Matches(m, SubgraphsNamed(name)) == {} { CreateSubgraphCorrect(m, name, id); }
      case CreateVersion(_, d, mode, node, id) =>
        if g.Some? {
          CreatedVersion(m, g.value, d, mode, node, id);
          CreatedBehindSynced(m, After(m, t), g.value, d, mode, id);
        }
      case Remove(_) =>
        if g.Some? {
          RemovedSubgraph(m, g.value);
          RemovedBehindSynced(m, After(m, t), g.value);
        }
      case Reassign(d, node) =>
        if PrepareReassign(m, d, node).Ok? { ReassignCorrect(m, d, node); }
      case MarkSynced(d) =>
        if d in m.synced { PromotedVersions(m, d); } else { SyncedAborts(m, d); }
    }
  }

  lemma CreatedBehindSynced(m: Meta, m': Meta, g: Id, d: Id, mode: SwitchingMode, id: Id)
    requires Inv(m) && WaitsBehindSynced(m) && g in m.subgraphs && id !in m.versions
    requires m'.subgraphs.Keys == m.subgraphs.Keys && RoleGiven(m, m.subgraphs[g], m'.subgraphs[g], mode, id)
    requires forall h :: h in m.subgraphs && h != g ==> m'.subgraphs[h] == m.subgraphs[h]
    requires m'.versions == m.versions[id := Version(g, d)]
    requires m'.synced == if d in m.synced then m.synced else m.synced[d := false]
    ensures WaitsBehindSynced(m')
  {
    forall h | h in m'.subgraphs && m'.subgraphs[h].pending.Some?
      ensures m'.subgraphs[h].current.Some? && Caught(m', m'.subgraphs[h].current.value)
    {
      if m.subgraphs[h].current.Some? { assert Uses(m.subgraphs[h], m.subgraphs[h].current.value); }
    }
  }

  lemma RemovedBehindSynced(m: Meta, m': Meta, g: Id)
    requires Inv(m) && WaitsBehindSynced(m) && m'.synced == m.synced
    requires forall h :: Lookup(m'.subgraphs, h) == if h == g then None else Lookup(m.subgraphs, h)
    requires forall v :: v in m'.versions <==> v in m.versions && m.versions[v].subgraph != g
    requires forall v :: v in m'.versions ==> m'.versions[v] == m.versions[v]
    ensures WaitsBehindSynced(m')
  {
    forall h | h in m'.subgraphs && m'.subgraphs[h].pending.Some?
      ensures m'.subgraphs[h].current.Some? && Caught(m', m'.subgraphs[h].current.value)
    {
      assert Lookup(m'.subgraphs, h) == Lookup(m.subgraphs, h);
      assert Uses(m.subgraphs[h], m.subgraphs[h].current.value);
    }
  }

  /** The invariant holds before each transaction of a run and after the last. */
  lemma {:induction false} InvAt(ts: seq<Transaction>, n: nat)
    requires n <= |ts| && forall i :: 0 <= i < |ts| ==> FreshAt(ts, i)
    ensures Inv(AfterRun(Empty, ts[..n])) && WaitsBehindSynced(AfterRun(Empty, ts[..n]))
  {
    if n == 0 {
      EmptyInv();
    } else {
      InvAt(ts, n - 1);
      RunLonger(ts, n);
      assert FreshAt(ts, n - 1);
      OneMore(AfterRun(Empty, ts[..n - 1]), ts[n - 1]);
      StillBehindSynced(AfterRun(Empty, ts[..n - 1]), ts[n - 1]);
    }
  }

  lemma RunLonger(ts: seq<Transaction>, n: nat)
    requires 0 < n <= |ts|
    ensures AfterRun(Empty, ts[..n]) == After(AfterRun(Empty, ts[..n - 1]), ts[n - 1])
  {
    assert ts[..n][..n - 1] == ts[..n - 1];
  }

  lemma SettledAt(ts: seq<Transaction>, i: nat)
    requires i < |ts| && FreshAt(ts, i) && Inv(AfterRun(Empty, ts[..i]))
    ensures SettlesAt(ts, i)
  {
    OneMore(AfterRun(Empty, ts[..i]), ts[i]);
  }

  /** In every run of transactions from the empty store, each of which generates a new identifier: a deployment is
      assigned exactly when a current or pending version needs it, versions wait only behind synced ones, and no
      transaction fails in an unexpected way. */
  lemma EveryRun(ts: seq<Transaction>)
    requires forall i :: 0 <= i < |ts| ==> FreshAt(ts, i)
    ensures Inv(AfterRun(Empty, ts)) && WaitsBehindSynced(AfterRun(Empty, ts))
    ensures forall i :: 0 <= i < |ts| ==> SettlesAt(ts, i)
  {
    InvAt(ts, |ts|);
    assert ts[..|ts|] == ts;
    forall i | 0 <= i < |ts|
      ensures SettlesAt(ts, i)
    {
      InvAt(ts, i);
      SettledAt(ts, i);
    }
  }

  lemma EmptyInv()
    ensures Inv(Empty)
  {}

  lemma OneMore(m: Meta, t: Transaction)
    requires Inv(m) && FreshId(m, t)
    ensures Settles(m, t, Found(m, t), Prepare(m, t, Found(m, t))) && Inv(After(m, t))
  {
    FoundFinds(m, t);
    TransactionCorrect(m, t, Found(m, t));
  }

  const Empty: Meta := Meta(map[], map[], map[], map[])
}
