/** What happens to a registrar transaction when others commit between its reads and its own commit. */
module StaleReads {
  import opened Common
  import opened SubgraphMetadata
  import opened Registrar

  /** The deployments whose assignment removing subgraph `g` would delete, going by what is read from `m`. */
  function Removals(m: Meta, g: Id): set<Id> {
    var vs := Matches(m, VersionsOfSubgraph(g));
    var before := Summaries(m, DeploymentsOf(m, vs));
    ActiveDeployments(before) - ActiveDeployments(SimulateRemoval(before, vs))
  }

  lemma RemovalsMeaning(m: Meta, g: Id)
    requires Inv(m)
    ensures Removals(m, g) == Needed(m) - Needed(Removed(m, g))
  {
    var ds := DeploymentsOf(m, Matches(m, VersionsOfSubgraph(g)));
    RemovalSimulationExact(m, g, ds);
    SummariesSeeNeeded(m, ds);
    SummariesSeeNeeded(Removed(m, g), ds);
    RemovalNeeds(m, g);
    SliceDiff(Needed(m), Needed(Removed(m, g)), ds);
  }

  lemma PreparedRemoval(m: Meta, g: Id)
    requires Inv(m) && g in m.subgraphs
    ensures var vs := Matches(m, VersionsOfSubgraph(g));
            PrepareRemove(m, g) ==
            Ok([AbortUnless(SubgraphsNamed(m.subgraphs[g].name), {g})] + [AbortUnless(VersionsOfSubgraph(g), vs)]
               + SummaryGuards(m, DeploymentsOf(m, vs))
               + [RemoveAssignments(Removals(m, g)), RemoveVersions(vs), RemoveSubgraph(g)])
  {
    var vs := Matches(m, VersionsOfSubgraph(g));
    var ds := DeploymentsOf(m, vs);
    ReadSummariesSafe(m, ds);
    RemovalSimulationExact(m, g, ds);
    SummariesSeeNeeded(m, ds);
    SummariesSeeNeeded(Removed(m, g), ds);
    RemovalNeeds(m, g);
    assert [RemoveAssignments(Removals(m, g))] + [RemoveVersions(vs), RemoveSubgraph(g)]
        == [RemoveAssignments(Removals(m, g)), RemoveVersions(vs), RemoveSubgraph(g)];
  }

  lemma RemovalWrites(m: Meta, ds: set<Id>, vs: set<Id>, g: Id)
    ensures ApplyOps(m, [RemoveAssignments(ds), RemoveVersions(vs), RemoveSubgraph(g)])
            == Some(m.(assignments := m.assignments - ds, versions := m.versions - vs, subgraphs := m.subgraphs - {g}))
  {
    ApplyOne(m, RemoveAssignments(ds));
    var m1 := m.(assignments := m.assignments - ds);
    ApplyTwo(m1, RemoveVersions(vs), RemoveSubgraph(g));
    ApplyThen(m, [RemoveAssignments(ds)], m1, [RemoveVersions(vs), RemoveSubgraph(g)]);
    assert [RemoveAssignments(ds)] + [RemoveVersions(vs), RemoveSubgraph(g)]
        == [RemoveAssignments(ds), RemoveVersions(vs), RemoveSubgraph(g)];
  }

  /** The operations read from `m0` do the same to any state whose guards they pass. */
  lemma StaleOpsApplied(m0: Meta, m1: Meta, g: Id)
    requires Inv(m0) && g in m0.subgraphs && PrepareRemove(m0, g).Ok?
    requires ApplyOps(m1, PrepareRemove(m0, g).value).Some?
    ensures ApplyOps(m1, PrepareRemove(m0, g).value).value
            == Removed(m1, g).(assignments := m1.assignments - Removals(m0, g))
  {
    var vs := Matches(m0, VersionsOfSubgraph(g));
    var guards := [AbortUnless(SubgraphsNamed(m0.subgraphs[g].name), {g})] + [AbortUnless(VersionsOfSubgraph(g), vs)]
                  + SummaryGuards(m0, DeploymentsOf(m0, vs));
    PreparedRemoval(m0, g);
    ApplyOpsConcat(m1, guards, [RemoveAssignments(Removals(m0, g)), RemoveVersions(vs), RemoveSubgraph(g)]);
    GuardsOnly(m1, guards);
    assert guards[1] == AbortUnless(VersionsOfSubgraph(g), vs);
    RemovalWrites(m1, Removals(m0, g), vs, g);
  }

  /** Which versions point to some deployments, and which subgraphs use these versions, is the same. */
  ghost predicate SameUse(m0: Meta, m1: Meta, ds: set<Id>) {
    && (forall v ::
          v in m0.versions && m0.versions[v].deployment in ds <==> v in m1.versions && m1.versions[v].deployment in ds)
    && forall g :: UsesOneOf(m0, g, ds) <==> g in m1.subgraphs && exists v ::
         v in m0.versions && m0.versions[v].deployment in ds && Uses(m1.subgraphs[g], v)
  }

  predicate UsesOneOf(m: Meta, g: Id, ds: set<Id>) {
    g in m.subgraphs && exists v :: v in m.versions && m.versions[v].deployment in ds && Uses(m.subgraphs[g], v)
  }

  lemma SummaryGuardsMeaning(m0: Meta, m1: Meta, ds: set<Id>)
    ensures ApplyOps(m1, SummaryGuards(m0, ds)).Some? <==> SameUse(m0, m1, ds)
  {
    var vs := Matches(m0, VersionsOfDeployments(ds));
    var guards := SummaryGuards(m0, ds);
    assert guards[0] == AbortUnless(VersionsOfDeployments(ds), vs);
    assert guards[1] == AbortUnless(SubgraphsUsing(vs), Matches(m0, SubgraphsUsing(vs)));
    ApplyTwo(m1, guards[0], guards[1]);
    assert guards == [guards[0], guards[1]];
    SameVersions(m0, m1, ds);
    SameUsers(m0, m1, ds);
  }

  lemma SameVersions(m0: Meta, m1: Meta, ds: set<Id>)
    ensures Matches(m1, VersionsOfDeployments(ds)) == Matches(m0, VersionsOfDeployments(ds)) <==>
            forall v :: v in m0.versions && m0.versions[v].deployment in ds
                        <==> v in m1.versions && m1.versions[v].deployment in ds
  {
    assert forall v ::
      v in Matches(m0, VersionsOfDeployments(ds)) <==> v in m0.versions && m0.versions[v].deployment in ds;
    assert forall v ::
      v in Matches(m1, VersionsOfDeployments(ds)) <==> v in m1.versions && m1.versions[v].deployment in ds;
  }

  lemma SameUsers(m0: Meta, m1: Meta, ds: set<Id>)
    ensures var vs := Matches(m0, VersionsOfDeployments(ds));
            Matches(m1, SubgraphsUsing(vs)) == Matches(m0, SubgraphsUsing(vs)) <==>
            forall g :: UsesOneOf(m0, g, ds) <==> g in m1.subgraphs && exists v ::
              v in m0.versions && m0.versions[v].deployment in ds && Uses(m1.subgraphs[g], v)
  {
    var vs := Matches(m0, VersionsOfDeployments(ds));
    forall g
      ensures g in Matches(m0, SubgraphsUsing(vs)) <==> UsesOneOf(m0, g, ds)
      ensures g in Matches(m1, SubgraphsUsing(vs)) <==>
              g in m1.subgraphs &&
              exists v :: v in m0.versions && m0.versions[v].deployment in ds && Uses(m1.subgraphs[g], v)
    {}
  }

  /** Subgraphs of that name: only `g`. */
  ghost predicate OnlyNamed(m: Meta, name: Id, g: Id) {
    forall h :: h in m.subgraphs && m.subgraphs[h].name == name <==> h == g
  }

  /** A removal commits exactly if the name still stands for the subgraph, which has the same versions as when they were
      read, and the deployments of these are used by the same versions and subgraphs. */
  lemma RemovalCommits(m0: Meta, m1: Meta, g: Id)
    requires Inv(m0) && g in m0.subgraphs && PrepareRemove(m0, g).Ok?
    ensures var vs := Matches(m0, VersionsOfSubgraph(g));
            ApplyOps(m1, PrepareRemove(m0, g).value).Some? <==>
            && OnlyNamed(m1, m0.subgraphs[g].name, g)
            && (forall v :: v in vs <==> v in m1.versions && m1.versions[v].subgraph == g)
            && SameUse(m0, m1, DeploymentsOf(m0, vs))
  {
    var vs := Matches(m0, VersionsOfSubgraph(g));
    var named, owned := AbortUnless(SubgraphsNamed(m0.subgraphs[g].name), {g}), AbortUnless(VersionsOfSubgraph(g), vs);
    var guards := SummaryGuards(m0, DeploymentsOf(m0, vs));
    PreparedRemoval(m0, g);
    ApplyOpsConcat(m1, [named] + [owned] + guards,
                   [RemoveAssignments(Removals(m0, g)), RemoveVersions(vs), RemoveSubgraph(g)]);
    GuardsInTurn(m1, named, owned, guards);
    RemovalWrites(m1, Removals(m0, g), vs, g);
    SummaryGuardsMeaning(m0, m1, DeploymentsOf(m0, vs));
    assert Matches(m1, SubgraphsNamed(m0.subgraphs[g].name)) == {g} <==> OnlyNamed(m1, m0.subgraphs[g].name, g) by {
      assert forall h :: h in Matches(m1, SubgraphsNamed(m0.subgraphs[g].name)) <==>
        h in m1.subgraphs && m1.subgraphs[h].name == m0.subgraphs[g].name;
    }
    assert forall v :: v in Matches(m1, VersionsOfSubgraph(g)) <==> v in m1.versions && m1.versions[v].subgraph == g;
  }

  lemma GuardsInTurn(m: Meta, first: Op, second: Op, guards: seq<Op>)
    requires first.AbortUnless? && second.AbortUnless? && forall i :: 0 <= i < |guards| ==> guards[i].AbortUnless?
    ensures var all := ApplyOps(m, [first] + [second] + guards);
            && (all.Some? ==> all == Some(m))
            && (all.Some? <==> Matches(m, first.query) == first.ids && Matches(m, second.query) == second.ids
                               && ApplyOps(m, guards).Some?)
  {
    assert [first] + [second] == [first, second];
    ApplyOpsConcat(m, [first] + [second], guards);
    ApplyTwo(m, first, second);
    GuardsOnly(m, guards);
  }

  /** A reassignment commits exactly if the deployment is still assigned to the node that was read, and then changes
      nothing but that. */
  lemma ReassignCommits(m0: Meta, m1: Meta, d: Id, node: Id)
    requires PrepareReassign(m0, d, node).Ok?
    ensures d in m0.assignments && m0.assignments[d] != node
    ensures ApplyOps(m1, PrepareReassign(m0, d, node).value) ==
            if d in m1.assignments && m1.assignments[d] == m0.assignments[d]
            then Some(m1.(assignments := m1.assignments[d := node])) else None
  {
    ApplyTwo(m1, AbortUnless(AssignmentsTo(d, m0.assignments[d]), {d}), SetAssignments({d}, node));
    AssignedOne(m1, d, node);
  }

  /** Creating a subgraph commits exactly if there is still none of that name. */
  lemma CreateSubgraphCommits(m0: Meta, m1: Meta, name: Id, id: Id)
    requires PrepareCreateSubgraph(m0, name, id).Ok?
    ensures forall g :: g in m0.subgraphs ==> m0.subgraphs[g].name != name
    ensures ApplyOps(m1, PrepareCreateSubgraph(m0, name, id).value) ==
            if forall g :: g in m1.subgraphs ==> m1.subgraphs[g].name != name
            then Some(m1.(subgraphs := m1.subgraphs[id := Subgraph(name, None, None)])) else None
  {
    ApplyTwo(m1, AbortUnless(SubgraphsNamed(name), {}), SetSubgraph(id, Subgraph(name, None, None)));
    assert forall g :: g in m0.subgraphs && m0.subgraphs[g].name == name ==> g in Matches(m0, SubgraphsNamed(name));
    assert forall g :: g in m1.subgraphs && m1.subgraphs[g].name == name ==> g in Matches(m1, SubgraphsNamed(name));
  }

  /** Deployment `d` is needed by subgraph `g` and by no other. */
  ghost predicate NeededAlone(m: Meta, g: Id, d: Id) {
    (exists v :: ActiveOn(m, v, d) && m.versions[v].subgraph == g) && !NeededByOthers(m, g, d)
  }

  ghost predicate NeededByOthers(m: Meta, g: Id, d: Id) {
    exists v :: ActiveOn(m, v, d) && m.versions[v].subgraph != g
  }

  /** Version `v` is current or pending, and points to `d`. */
  predicate ActiveOn(m: Meta, v: Id, d: Id) {
    v in m.versions && m.versions[v].deployment == d && Active(m, v)
  }

  lemma NeededOn(m: Meta, d: Id)
    ensures d in Needed(m) <==> exists v :: ActiveOn(m, v, d)
  {
    if d in Needed(m) {
      var v :| v in m.versions && Active(m, v) && m.versions[v].deployment == d;
      assert ActiveOn(m, v, d);
    }
  }

  /** After the removal, what others need is needed. */
  lemma NeededAfterRemoval(m: Meta, g: Id, d: Id)
    requires Inv(m)
    ensures d in Needed(Removed(m, g)) <==> NeededByOthers(m, g, d)
  {
    var m' := Removed(m, g);
    NeededOn(m', d);
    if NeededByOthers(m, g, d) {
      var v :| ActiveOn(m, v, d) && m.versions[v].subgraph != g;
      FlagsAfterRemoval(m, g, v);
      assert ActiveOn(m', v, d);
    }
    if v :| ActiveOn(m', v, d) {
      FlagsAfterRemoval(m, g, v);
      assert ActiveOn(m, v, d) && m.versions[v].subgraph != g;
    }
  }

  lemma AloneMeaning(m: Meta, g: Id, d: Id)
    requires Inv(m)
    ensures d in Removals(m, g) <==> NeededAlone(m, g, d)
  {
    RemovalsMeaning(m, g);
    NeededOn(m, d);
    NeededAfterRemoval(m, g, d);
  }

  /** What the guards of a removal leave open: whether the removed subgraph alone needs a deployment. */
  ghost predicate SameNeeds(m0: Meta, m1: Meta, g: Id) {
    forall d :: d in Needed(m1) ==> (NeededAlone(m0, g, d) <==> NeededAlone(m1, g, d))
  }

  /** When other transactions commit between the reads of a removal (in `m0`) and its commit (in `m1`), the guards can
      all pass and the result still be wrong. It is right exactly when no deployment that is needed has become, or
      ceased to be, needed by that subgraph alone: the guards pin which versions there are, not which are active. */
  lemma StaleRemoval(m0: Meta, m1: Meta, g: Id)
    requires Inv(m0) && Inv(m1) && g in m0.subgraphs && PrepareRemove(m0, g).Ok?
    requires ApplyOps(m1, PrepareRemove(m0, g).value).Some?
    ensures Inv(ApplyOps(m1, PrepareRemove(m0, g).value).value) <==> SameNeeds(m0, m1, g)
  {
    var x := ApplyOps(m1, PrepareRemove(m0, g).value).value;
    StaleOpsApplied(m0, m1, g);
    RemovalsMeaning(m1, g);
    RemovalNeeds(m1, g);
    StaleAssignments(m1, g, x, Removals(m0, g));
    SameRemovals(m0, m1, g);
  }

  lemma SameRemovals(m0: Meta, m1: Meta, g: Id)
    requires Inv(m0) && Inv(m1)
    ensures Removals(m0, g) * Needed(m1) == Removals(m1, g) <==> SameNeeds(m0, m1, g)
  {
    RemovalsMeaning(m1, g);
    forall d
      ensures d in Removals(m0, g) <==> NeededAlone(m0, g, d)
      ensures d in Removals(m1, g) <==> NeededAlone(m1, g, d)
    {
      AloneMeaning(m0, g, d);
      AloneMeaning(m1, g, d);
    }
    if SameNeeds(m0, m1, g) { assert Removals(m0, g) * Needed(m1) == Removals(m1, g); }
    if Removals(m0, g) * Needed(m1) == Removals(m1, g) {
      forall d | d in Needed(m1)
        ensures NeededAlone(m0, g, d) <==> NeededAlone(m1, g, d)
      {
        assert d in Removals(m0, g) * Needed(m1) <==> d in Removals(m1, g);
      }
    }
  }

  /** The guard that is missing: had the transaction also aborted when other versions than before were active on the
      deployments of the removed ones, the result would be right. */
  lemma ActiveVersionsGuard(m0: Meta, m1: Meta, g: Id)
    requires Inv(m0) && Inv(m1) && g in m0.subgraphs && PrepareRemove(m0, g).Ok?
    requires ApplyOps(m1, PrepareRemove(m0, g).value).Some?
    requires forall v :: v in m0.versions && v in m1.versions ==> m0.versions[v] == m1.versions[v]
    requires forall v, d :: d in DeploymentsOf(m0, Matches(m0, VersionsOfSubgraph(g))) ==>
             (ActiveOn(m0, v, d) <==> ActiveOn(m1, v, d))
    ensures Inv(ApplyOps(m1, PrepareRemove(m0, g).value).value)
  {
    var vs := Matches(m0, VersionsOfSubgraph(g));
    VersionsPinned(m0, m1, g);
    assert DeploymentsOf(m1, vs) == DeploymentsOf(m0, vs);
    forall d | d in Needed(m1)
      ensures NeededAlone(m0, g, d) <==> NeededAlone(m1, g, d)
    {
      if d in DeploymentsOf(m0, vs) {
        SameAlone(m0, m1, g, d);
      } else {
        NotAlone(m0, g, d);
        NotAlone(m1, g, d);
      }
    }
    StaleRemoval(m0, m1, g);
  }

  lemma NotAlone(m: Meta, g: Id, d: Id)
    requires d !in DeploymentsOf(m, Matches(m, VersionsOfSubgraph(g)))
    ensures !NeededAlone(m, g, d)
  {}

  lemma SameAlone(m0: Meta, m1: Meta, g: Id, d: Id)
    requires forall v :: v in m0.versions && v in m1.versions ==> m0.versions[v] == m1.versions[v]
    requires forall v :: ActiveOn(m0, v, d) <==> ActiveOn(m1, v, d)
    ensures NeededAlone(m0, g, d) <==> NeededAlone(m1, g, d)
  {}

  /** A commit that passed the guards found the same versions of the subgraph. */
  lemma VersionsPinned(m0: Meta, m1: Meta, g: Id)
    requires Inv(m0) && g in m0.subgraphs && PrepareRemove(m0, g).Ok?
    requires ApplyOps(m1, PrepareRemove(m0, g).value).Some?
    ensures Matches(m1, VersionsOfSubgraph(g)) == Matches(m0, VersionsOfSubgraph(g))
  {
    var vs := Matches(m0, VersionsOfSubgraph(g));
    var guards := [AbortUnless(SubgraphsNamed(m0.subgraphs[g].name), {g})] + [AbortUnless(VersionsOfSubgraph(g), vs)]
                  + SummaryGuards(m0, DeploymentsOf(m0, vs));
    PreparedRemoval(m0, g);
    ApplyOpsConcat(m1, guards, [RemoveAssignments(Removals(m0, g)), RemoveVersions(vs), RemoveSubgraph(g)]);
    GuardsOnly(m1, guards);
    assert guards[1] == AbortUnless(VersionsOfSubgraph(g), vs);
  }

  lemma StaleAssignments(m: Meta, g: Id, x: Meta, removed: set<Id>)
    requires Inv(m) && Needed(Removed(m, g)) <= Needed(m)
    requires x == Removed(m, g).(assignments := m.assignments - removed)
    ensures Inv(x) <==> removed * m.assignments.Keys == Needed(m) - Needed(Removed(m, g))
  {
    RemovalKeepsInv(m, g);
    InvDependsOn(Removed(m, g), x);
    Complement(m.assignments.Keys, removed, Needed(Removed(m, g)));
  }

  lemma Complement(all: set<Id>, removed: set<Id>, kept: set<Id>)
    requires kept <= all
    ensures all - removed == kept <==> removed * all == all - kept
  {
    if all - removed == kept { assert removed * all == all - kept; }
    if removed * all == all - kept { assert all - removed == all - removed * all == kept; }
  }

  const A := Id(1)
  const B := Id(2)
  const A1 := Id(3)
  const A2 := Id(4)
  const B1 := Id(5)
  const B2 := Id(6)
  const D := Id(7)
  const E := Id(8)
  const NODE := Id(9)

  /** Two subgraphs, A and B, share the deployments D and E: version A1 and, as long as E is not synced, version B1
      are current and point to D; B2 points to E and is pending until then. */
  function Shared(synced: bool): Meta {
    Meta(map[A := Subgraph(A, Some(A1), None),
             B := if synced then Subgraph(B, Some(B2), None) else Subgraph(B, Some(B1), Some(B2))],
         map[A1 := Version(A, D), A2 := Version(A, E), B1 := Version(B, D), B2 := Version(B, E)],
         map[D := true, E := synced],
         map[D := NODE, E := NODE])
  }

  lemma SharedActive(synced: bool)
    ensures var m := Shared(synced);
            && Active(m, A1) && !Active(m, A2) && (Active(m, B1) <==> !synced) && Active(m, B2)
            && Needed(m) == {D, E}
            && Matches(m, VersionsOfSubgraph(A)) == {A1, A2}
  {
    var m := Shared(synced);
    assert m.subgraphs[A].current == Some(A1);
    assert m.subgraphs[B].current == (if synced then Some(B2) else Some(B1));
    assert m.subgraphs[B].pending == (if synced then None else Some(B2));
    assert m.versions[A1].deployment == D && m.versions[B2].deployment == E;
  }

  lemma SharedInv(synced: bool)
    ensures Inv(Shared(synced))
  {
    SharedActive(synced);
    SharedOwns(synced);
    SharedRestOfInv(synced);
    assert Shared(synced).assignments.Keys == {D, E};
  }

  lemma SharedOwns(synced: bool)
    ensures OwnsVersions(Shared(synced)) && PendingBehindCurrent(Shared(synced))
  {}

  lemma SharedRestOfInv(synced: bool)
    ensures NamesUnique(Shared(synced)) && DeploymentsExist(Shared(synced))
  {}

  lemma SharedPending()
    ensures PendingOn(Shared(false), E) == {B}
    ensures Promoted(Shared(false).subgraphs, {B}) == Shared(true).subgraphs
  {
    var m := Shared(false);
    assert Matches(m, VersionsOfDeployments({E})) == {A2, B2};
    assert m.subgraphs[A].pending.None? && m.subgraphs[B].pending == Some(B2);
  }

  /** The second state is what the first one becomes when E is synced. */
  lemma SharedSynced()
    ensures SyncedState(Shared(false), E) == Shared(true)
  {
    var m, m' := Shared(false), SyncedState(Shared(false), E);
    SharedPending();
    assert m.synced[E := true] == Shared(true).synced;
    SharedActive(true);
    var x := m.(subgraphs := Shared(true).subgraphs, synced := Shared(true).synced);
    NeededDependsOn(x, Shared(true));
    assert Assigned(x, m.assignments, Id(0)) == m.assignments;
  }

  /** Removing A takes away the need for D exactly when B has moved on. */
  lemma SharedRemovals(synced: bool)
    ensures Removals(Shared(synced), A) == if synced then {D} else {}
  {
    SharedActive(synced);
    SharedInv(synced);
    RemovalsMeaning(Shared(synced), A);
    SharedRest(synced);
  }

  lemma SharedRest(synced: bool)
    ensures Needed(Removed(Shared(synced), A)) == if synced then {E} else {D, E}
  {
    var r := Removed(Shared(synced), A);
    SharedRestActive(synced);
    NeededOfTwo(r, B1, D, B2, E);
  }

  lemma SharedRestVersions(synced: bool)
    ensures Removed(Shared(synced), A).versions == map[B1 := Version(B, D), B2 := Version(B, E)]
  {
    SharedActive(synced);
    assert Shared(synced).versions - {A1, A2} == map[B1 := Version(B, D), B2 := Version(B, E)];
  }

  lemma SharedRestActive(synced: bool)
    ensures var r := Removed(Shared(synced), A);
            && r.versions == map[B1 := Version(B, D), B2 := Version(B, E)]
            && (Active(r, B1) <==> !synced) && Active(r, B2)
  {
    var m := Shared(synced);
    SharedRestVersions(synced);
    SharedActive(synced);
    SharedInv(synced);
    assert m.versions[B1].subgraph == B && m.versions[B2].subgraph == B;
    FlagsAfterRemoval(m, A, B1);
    FlagsAfterRemoval(m, A, B2);
  }

  lemma NeededOfTwo(m: Meta, v: Id, d: Id, w: Id, e: Id)
    requires v != w && m.versions.Keys == {v, w} && m.versions[v].deployment == d && m.versions[w].deployment == e
    requires Active(m, w)
    ensures Needed(m) == if Active(m, v) then {d, e} else {e}
  {}

  lemma SharedUses(synced: bool)
    ensures Matches(Shared(synced), SubgraphsUsing({A1, A2, B1, B2})) == {A, B}
  {
    var m := Shared(synced);
    assert Uses(m.subgraphs[A], A1);
    assert Uses(m.subgraphs[B], B2);
  }

  /** The guards cannot tell the two states apart. */
  lemma SharedGuards(synced: bool)
    ensures Matches(Shared(synced), SubgraphsNamed(A)) == {A}
    ensures DeploymentsOf(Shared(synced), {A1, A2}) == {D, E}
    ensures SummaryGuards(Shared(synced), {D, E}) ==
            [AbortUnless(VersionsOfDeployments({D, E}), {A1, A2, B1, B2}),
             AbortUnless(SubgraphsUsing({A1, A2, B1, B2}), {A, B})]
  {
    var m := Shared(synced);
    assert m.versions[A1].deployment == D && m.versions[A2].deployment == E;
    assert Matches(m, VersionsOfDeployments({D, E})) == {A1, A2, B1, B2};
    SharedUses(synced);
  }

  lemma SharedGuardsPass()
    ensures PrepareRemove(Shared(false), A).Ok?
    ensures ApplyOps(Shared(true), PrepareRemove(Shared(false), A).value).Some?
  {
    var m0, m1 := Shared(false), Shared(true);
    SharedInv(false);
    SharedInv(true);
    SharedActive(false);
    SharedActive(true);
    SharedGuards(false);
    SharedGuards(true);
    PreparedRemoval(m0, A);
    var named, owned := AbortUnless(SubgraphsNamed(A), {A}), AbortUnless(VersionsOfSubgraph(A), {A1, A2});
    ApplyOne(m1, named);
    ApplyOne(m1, owned);
    ReadSummariesSafe(m1, {D, E});
    RemovalWrites(m1, Removals(m0, A), {A1, A2}, A);
    ApplyInTurn(m1, [named], m1, [owned], m1, SummaryGuards(m0, {D, E}), m1,
                [RemoveAssignments(Removals(m0, A)), RemoveVersions({A1, A2}), RemoveSubgraph(A)]);
  }

  /** In a state that a run reaches, while A is being removed, E becomes synced and B moves on. All guards pass, and D
      stays assigned with nobody needing it. */
  lemma StaleRemovalExample()
    ensures var m0 := Shared(false);
            var m1 := SyncedState(m0, E);
            && Inv(m0) && Inv(m1) && PrepareRemove(m0, A).Ok?
            && ApplyOps(m1, PrepareRemove(m0, A).value).Some?
            && !Inv(ApplyOps(m1, PrepareRemove(m0, A).value).value)
  {
    SharedInv(false);
    SharedInv(true);
    SharedSynced();
    SharedGuardsPass();
    SharedRemovals(false);
    SharedRemovals(true);
    SharedActive(true);
    StaleRemoval(Shared(false), Shared(true), A);
    SameRemovals(Shared(false), Shared(true), A);
  }

  // ---------- The first state is one that a run reaches

  const History: seq<Transaction> := [
    CreateSubgraph(A, A),
    CreateSubgraph(B, B),
    CreateVersion(A, E, Instant, NODE, A2),
    CreateVersion(A, D, Instant, NODE, A1),
    CreateVersion(B, D, Instant, NODE, B1),
    MarkSynced(D),
    CreateVersion(B, E, Synced, NODE, B2)]

  /** The states on the way. */
  function Stage(n: nat): Meta {
    var a, b := Subgraph(A, None, None), Subgraph(B, None, None);
    if n == 0 then Empty
    else if n == 1 then Meta(map[A := a], map[], map[], map[])
    else if n == 2 then Meta(map[A := a, B := b], map[], map[], map[])
    else if n == 3 then Meta(map[A := Subgraph(A, Some(A2), None), B := b], map[A2 := Version(A, E)], map[E := false],
                             map[E := NODE])
    else if n == 4 then
      Meta(map[A := Subgraph(A, Some(A1), None), B := b], map[A2 := Version(A, E), A1 := Version(A, D)],
           map[E := false, D := false], map[D := NODE])
    else if n == 5 then
      Meta(map[A := Subgraph(A, Some(A1), None), B := Subgraph(B, Some(B1), None)],
           map[A2 := Version(A, E), A1 := Version(A, D), B1 := Version(B, D)], map[E := false, D := false],
           map[D := NODE])
    else if n == 6 then
      Meta(map[A := Subgraph(A, Some(A1), None), B := Subgraph(B, Some(B1), None)],
           map[A2 := Version(A, E), A1 := Version(A, D), B1 := Version(B, D)], map[E := false, D := true],
           map[D := NODE])
    else Shared(false)
  }

  lemma StageCreates(n: nat)
    requires n < 2
    ensures Inv(Stage(n)) && FreshId(Stage(n), History[n]) && After(Stage(n), History[n]) == Stage(n + 1)
  {
    var m, id := Stage(n), if n == 0 then A else B;
    assert Matches(m, SubgraphsNamed(id)) == {};
    CreateSubgraphCorrect(m, id, id);
  }

  lemma StageNames(n: nat)
    requires 2 <= n <= 7
    ensures Matches(Stage(n), SubgraphsNamed(A)) == {A} && Matches(Stage(n), SubgraphsNamed(B)) == {B}
  {}

  /** A version becomes current at once, or waits behind one that is synced. */
  lemma StageVersions(n: nat)
    requires n in {2, 3, 4, 6} && Inv(Stage(n))
    ensures FreshId(Stage(n), History[n]) && After(Stage(n), History[n]) == Stage(n + 1)
  {
    var m, t := Stage(n), History[n];
    var g := if n < 4 then A else B;
    StageNames(n);
    assert Found(m, t) == Some(g);
    CreateVersionCorrect(m, g, t.deployment, t.mode, t.node, t.id);
    StageVersionState(n);
  }

  lemma StageVersionState(n: nat)
    requires n in {2, 3, 4, 6}
    ensures var t := History[n];
            VersionCreated(Stage(n), if n < 4 then A else B, t.deployment, t.mode, t.node, t.id) == Stage(n + 1)
  {
    StageParts(n);
    StageAssigned(n);
  }

  lemma StageAssigned(n: nat)
    requires n in {2, 3, 4, 6}
    ensures Assigned(Stage(n + 1).(assignments := Stage(n).assignments), Stage(n).assignments, NODE)
            == Stage(n + 1).assignments
  {
    NeededDependsOn(Stage(n + 1).(assignments := Stage(n).assignments), Stage(n + 1));
    StageNeeds(n + 1);
  }

  lemma StageParts(n: nat)
    requires n in {2, 3, 4, 6}
    ensures var m, t := Stage(n), History[n];
            var g := if n < 4 then A else B;
            && m.subgraphs[g := Switched(m.subgraphs[g], t.mode, IsSynced(m, m.subgraphs[g].current), t.id)]
               == Stage(n + 1).subgraphs
            && m.versions[t.id := Version(g, t.deployment)] == Stage(n + 1).versions
            && (if t.deployment in m.synced then m.synced else m.synced[t.deployment := false]) == Stage(n + 1).synced
  {}

  lemma StageNeeds(n: nat)
    requires 3 <= n <= 7
    ensures Needed(Stage(n)) == Stage(n).assignments.Keys
  {
    var m := Stage(n);
    if n < 7 {
      var v := if n == 3 then A2 else A1;
      assert m.subgraphs[A].current == Some(v) && IsCurrent(m, v);
      assert v in m.versions && m.versions[v].deployment == if n == 3 then E else D;
      assert forall w :: w in m.versions && Active(m, w) ==> m.versions[w].deployment == m.versions[v].deployment;
    } else {
      SharedActive(false);
    }
  }

  lemma NonePending()
    ensures PendingOn(Stage(5), D) == {} && Promoted(Stage(5).subgraphs, {}) == Stage(5).subgraphs
  {}

  lemma StageSynced()
    requires Inv(Stage(5))
    ensures FreshId(Stage(5), History[5]) && After(Stage(5), History[5]) == Stage(6)
  {
    var m := Stage(5);
    SyncedCorrect(m, D);
    NonePending();
    assert m.synced[D := true] == Stage(6).synced;
    var x := m.(synced := m.synced[D := true]);
    NeededDependsOn(x, Stage(6));
    StageNeeds(6);
    assert Assigned(x, m.assignments, Id(0)) == m.assignments;
  }

  lemma StageNext(n: nat)
    requires n < 7 && Inv(Stage(n))
    ensures FreshId(Stage(n), History[n]) && After(Stage(n), History[n]) == Stage(n + 1) && Inv(Stage(n + 1))
  {
    if n < 2 { StageCreates(n); } else if n == 5 { StageSynced(); } else { StageVersions(n); }
    OneMore(Stage(n), History[n]);
  }

  /** The state from which the removal goes wrong is reached from the empty store. */
  lemma {:induction false} Reached(n: nat)
    requires n <= 7
    ensures AfterRun(Empty, History[..n]) == Stage(n) && Inv(Stage(n))
    ensures forall i :: 0 <= i < n ==> FreshAt(History, i)
  {
    if n == 0 {
      EmptyInv();
    } else {
      Reached(n - 1);
      assert History[..n][..n - 1] == History[..n - 1] && History[..n][n - 1] == History[n - 1];
      StageNext(n - 1);
      assert FreshAt(History, n - 1);
    }
  }

  lemma SharedReached()
    ensures AfterRun(Empty, History) == Shared(false) && forall i :: 0 <= i < |History| ==> FreshAt(History, i)
  {
    Reached(7);
    assert History[..7] == History;
  }
}
