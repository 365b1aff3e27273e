/** Subgraphs, their versions, deployments and node assignments, and the guarded operations that change
    them in one transaction (packages/graph-node/graph/src/components/store.rs). */
module SubgraphMetadata {
  import opened Common

  /** Names and identifiers, which are only ever compared. */
  datatype Id = Id(n: nat)

  datatype Subgraph = Subgraph(name: Id, current: Option<Id>, pending: Option<Id>)

  datatype Version = Version(subgraph: Id, deployment: Id)

  /** `synced` says of each existing deployment whether it is fully synced, `assignments` which node indexes it. */
  datatype Meta = Meta(
    subgraphs: map<Id, Subgraph>,
    versions: map<Id, Version>,
    synced: map<Id, bool>,
    assignments: map<Id, Id>)

  /** The queries that guards re-run inside the transaction. */
  datatype Query =
    | SubgraphsNamed(name: Id)
    | SubgraphsInState(name: Id, current: Option<Id>, pending: Option<Id>)
    | SubgraphsUsing(versions: set<Id>)
    | SubgraphsAwaiting(versions: set<Id>)
    | VersionsOfSubgraph(subgraph: Id)
    | VersionsOfDeployments(deployments: set<Id>)
    | DeploymentsWithId(deployment: Id)
    | AssignmentsTo(deployment: Id, node: Id)

  predicate Uses(s: Subgraph, v: Id) {
    s.current == Some(v) || s.pending == Some(v)
  }

  function Matches(m: Meta, q: Query): set<Id> {
    match q
    case SubgraphsNamed(name) => set g | g in m.subgraphs && m.subgraphs[g].name == name
    case SubgraphsInState(name, current, pending) =>
      set g | g in m.subgraphs && m.subgraphs[g] == Subgraph(name, current, pending)
    case SubgraphsUsing(vs) => set g | g in m.subgraphs && exists v :: v in vs && Uses(m.subgraphs[g], v)
    case SubgraphsAwaiting(vs) =>
      set g | g in m.subgraphs && m.subgraphs[g].pending.Some? && m.subgraphs[g].pending.value in vs
    case VersionsOfSubgraph(g) => set v | v in m.versions && m.versions[v].subgraph == g
    case VersionsOfDeployments(ds) => set v | v in m.versions && m.versions[v].deployment in ds
    case DeploymentsWithId(d) => if d in m.synced then {d} else {}
    case AssignmentsTo(d, node) => if Lookup(m.assignments, d) == Some(node) then {d} else {}
  }

  /** Metadata operations. The ones that take a set stand for one operation per element. */
  datatype Op =
    | AbortUnless(query: Query, ids: set<Id>)
    | SetSubgraph(id: Id, entity: Subgraph)
    | UpdateCurrent(id: Id, version: Option<Id>)
    | UpdatePending(id: Id, version: Option<Id>)
    | PromotePending(ids: set<Id>)
    | RemoveSubgraph(id: Id)
    | SetVersion(id: Id, data: Version)
    | RemoveVersions(ids: set<Id>)
    | SetDeployment(id: Id, isSynced: bool)
    | UpdateSynced(id: Id, isSynced: bool)
    | SetAssignments(ids: set<Id>, node: Id)
    | RemoveAssignments(ids: set<Id>)

  /** One operation; `None` when it aborts the transaction. */
  function ApplyOp(m: Meta, op: Op): Option<Meta> {
    match op
    case AbortUnless(query, ids) => if Matches(m, query) == ids then Some(m) else None
    case SetSubgraph(g, s) => Some(m.(subgraphs := m.subgraphs[g := s]))
    case UpdateCurrent(g, v) =>
      if g in m.subgraphs then Some(m.(subgraphs := m.subgraphs[g := m.subgraphs[g].(current := v)])) else None
    case UpdatePending(g, v) =>
      if g in m.subgraphs then Some(m.(subgraphs := m.subgraphs[g := m.subgraphs[g].(pending := v)])) else None
    case PromotePending(gs) => Some(m.(subgraphs := Promoted(m.subgraphs, gs)))
    case RemoveSubgraph(g) => Some(m.(subgraphs := m.subgraphs - {g}))
    case SetVersion(v, version) => Some(m.(versions := m.versions[v := version]))
    case RemoveVersions(vs) => Some(m.(versions := m.versions - vs))
    case SetDeployment(d, synced) => Some(m.(synced := m.synced[d := synced]))
    case UpdateSynced(d, synced) => if d in m.synced then Some(m.(synced := m.synced[d := synced])) else None
    case SetAssignments(ds, node) => Some(m.(assignments := Reassigned(m.assignments, ds, node)))
    case RemoveAssignments(ds) => Some(m.(assignments := m.assignments - ds))
  }

  /** All of `ds` on `node`, and the others where they were. */
  function Reassigned(assignments: map<Id, Id>, ds: set<Id>, node: Id): map<Id, Id> {
    assignments + map d | d in ds :: node
  }

  /** The pending version of each of the subgraphs `gs` takes the place of the current one. */
  function Promoted(subgraphs: map<Id, Subgraph>, gs: set<Id>): map<Id, Subgraph> {
    map g | g in subgraphs ::
      if g in gs then Subgraph(subgraphs[g].name, subgraphs[g].pending, None) else subgraphs[g]
  }

  /** A whole transaction: all operations in order, or none. */
  function ApplyOps(m: Meta, ops: seq<Op>): Option<Meta>
    decreases |ops|
  {
    if ops == [] then Some(m) else
    var next := ApplyOp(m, ops[0]);
    if next.None? then None else ApplyOps(next.value, ops[1..])
  }

  lemma {:induction false} ApplyOpsConcat(m: Meta, a: seq<Op>, b: seq<Op>)
    ensures ApplyOps(m, a + b) == if ApplyOps(m, a).None? then None else ApplyOps(ApplyOps(m, a).value, b)
    decreases |a|
  {
    if a == [] {
      assert a + b == b;
    } else {
      assert (a + b)[0] == a[0] && (a + b)[1..] == a[1..] + b;
      var next := ApplyOp(m, a[0]);
      if next.Some? { ApplyOpsConcat(next.value, a[1..], b); }
    }
  }

  /** Operations that lead to `m'`, followed by more. */
  lemma ApplyThen(m: Meta, a: seq<Op>, m': Meta, b: seq<Op>)
    requires ApplyOps(m, a) == Some(m')
    ensures ApplyOps(m, a + b) == ApplyOps(m', b)
  {
    ApplyOpsConcat(m, a, b);
  }

  lemma ApplyInTurn(m: Meta, a: seq<Op>, m1: Meta, b: seq<Op>, m2: Meta, c: seq<Op>, m3: Meta, d: seq<Op>)
    requires ApplyOps(m, a) == Some(m1) && ApplyOps(m1, b) == Some(m2) && ApplyOps(m2, c) == Some(m3)
    ensures ApplyOps(m, a + b + c + d) == ApplyOps(m3, d)
  {
    ApplyThen(m, a, m1, b);
    ApplyThen(m, a + b, m2, c);
    ApplyThen(m, a + b + c, m3, d);
  }

  /** Guards do not change the state, and a transaction that commits has passed all of them. */
  lemma {:induction false} GuardsOnly(m: Meta, guards: seq<Op>)
    requires forall i :: 0 <= i < |guards| ==> guards[i].AbortUnless?
    ensures ApplyOps(m, guards).Some? ==>
              ApplyOps(m, guards) == Some(m) &&
              forall i :: 0 <= i < |guards| ==> Matches(m, guards[i].query) == guards[i].ids
    decreases |guards|
  {
    if guards != [] {
      GuardsOnly(m, guards[1..]);
      assert forall i :: 0 < i < |guards| ==> guards[i] == guards[1..][i - 1];
    }
  }

  lemma ApplyTwo(m: Meta, op1: Op, op2: Op)
    ensures ApplyOps(m, [op1, op2]) == if ApplyOp(m, op1).None? then None else ApplyOp(ApplyOp(m, op1).value, op2)
  {
    assert [op1, op2] == [op1] + [op2];
    ApplyOpsConcat(m, [op1], [op2]);
    ApplyOne(m, op1);
    if ApplyOp(m, op1).Some? { ApplyOne(ApplyOp(m, op1).value, op2); }
  }

  lemma ApplyOne(m: Meta, op: Op)
    ensures ApplyOps(m, [op]) == ApplyOp(m, op)
  {
    assert [op][1..] == [];
  }

  predicate IsCurrent(m: Meta, v: Id) {
    exists g :: g in m.subgraphs && m.subgraphs[g].current == Some(v)
  }

  predicate IsPending(m: Meta, v: Id) {
    exists g :: g in m.subgraphs && m.subgraphs[g].pending == Some(v)
  }

  predicate Active(m: Meta, v: Id) {
    IsCurrent(m, v) || IsPending(m, v)
  }

  /** The deployments that some current or pending version points to. */
  function Needed(m: Meta): set<Id> {
    set v | v in m.versions && Active(m, v) :: m.versions[v].deployment
  }

  /** A deployment is assigned to a node exactly when some current or pending version needs it. */
  ghost predicate AssignedAsNeeded(m: Meta) {
    m.assignments.Keys == Needed(m)
  }

  /** The current and the pending version of a subgraph exist and are versions of that subgraph. */
  ghost predicate OwnsVersions(m: Meta) {
    forall g, v :: g in m.subgraphs && Uses(m.subgraphs[g], v) ==> v in m.versions && m.versions[v].subgraph == g
  }

  /** Only a subgraph with a current version has a pending one, and the two differ. */
  ghost predicate PendingBehindCurrent(m: Meta) {
    forall g :: g in m.subgraphs && m.subgraphs[g].pending.Some? ==>
      m.subgraphs[g].current.Some? && m.subgraphs[g].current != m.subgraphs[g].pending
  }

  ghost predicate NamesUnique(m: Meta) {
    forall g, h :: g in m.subgraphs && h in m.subgraphs && m.subgraphs[g].name == m.subgraphs[h].name ==> g == h
  }

  ghost predicate DeploymentsExist(m: Meta) {
    forall v :: v in m.versions ==> m.versions[v].deployment in m.synced
  }

  ghost predicate Inv(m: Meta) {
    AssignedAsNeeded(m) && OwnsVersions(m) && PendingBehindCurrent(m) && NamesUnique(m) && DeploymentsExist(m)
  }

  datatype Summary = Summary(id: Id, subgraph: Id, deployment: Id, current: bool, pending: bool)

  function SummaryOf(m: Meta, v: Id): Summary
    requires v in m.versions
  {
    Summary(v, m.versions[v].subgraph, m.versions[v].deployment, IsCurrent(m, v), IsPending(m, v))
  }

  function Summaries(m: Meta, ds: set<Id>): set<Summary> {
    set v | v in m.versions && m.versions[v].deployment in ds :: SummaryOf(m, v)
  }

  /** What the source asserts while it derives the flags of a summary. */
  predicate OwnersAgree(m: Meta, vs: set<Id>) {
    forall g, v :: v in vs && v in m.versions && g in m.subgraphs && Uses(m.subgraphs[g], v) ==>
      m.versions[v].subgraph == g
  }

  /** `read_subgraph_version_summaries`: `None` when one of its assertions fails. */
  function ReadSummaries(m: Meta, ds: set<Id>): Option<(set<Summary>, seq<Op>)> {
    var vs := Matches(m, VersionsOfDeployments(ds));
    if !OwnersAgree(m, vs) then None else Some((Summaries(m, ds), SummaryGuards(m, ds)))
  }

  function SummaryGuards(m: Meta, ds: set<Id>): seq<Op> {
    var vs := Matches(m, VersionsOfDeployments(ds));
    [AbortUnless(VersionsOfDeployments(ds), vs), AbortUnless(SubgraphsUsing(vs), Matches(m, SubgraphsUsing(vs)))]
  }

  /** In a state that keeps the invariant, reading summaries neither fails nor guards against that state. */
  lemma ReadSummariesSafe(m: Meta, ds: set<Id>)
    requires OwnsVersions(m)
    ensures ReadSummaries(m, ds) == Some((Summaries(m, ds), SummaryGuards(m, ds)))
    ensures ApplyOps(m, SummaryGuards(m, ds)) == Some(m)
  {
    var vs := Matches(m, VersionsOfDeployments(ds));
    ApplyTwo(m, AbortUnless(VersionsOfDeployments(ds), vs),
             AbortUnless(SubgraphsUsing(vs), Matches(m, SubgraphsUsing(vs))));
  }

  /** The assertions fire exactly when a version that was read is current or pending in a subgraph it does not belong
      to. */
  lemma SummaryAssertion(m: Meta, ds: set<Id>)
    ensures ReadSummaries(m, ds).None? <==>
            exists g, v :: g in m.subgraphs && v in m.versions && m.versions[v].deployment in ds
              && (m.subgraphs[g].current == Some(v) || m.subgraphs[g].pending == Some(v)) && m.versions[v].subgraph != g
  {
    var vs := Matches(m, VersionsOfDeployments(ds));
    if !OwnersAgree(m, vs) {
      var g, v :| v in vs && v in m.versions && g in m.subgraphs && Uses(m.subgraphs[g], v)
        && m.versions[v].subgraph != g;
      assert m.versions[v].deployment in ds;
    }
    forall g, v | g in m.subgraphs && v in m.versions && m.versions[v].deployment in ds && Uses(m.subgraphs[g], v)
      ensures v in vs
    {}
  }

  function ActiveDeployments(summaries: set<Summary>): set<Id> {
    set s | s in summaries && (s.pending || s.current) :: s.deployment
  }

  /** `reconcile_assignments`: `None` when a node is needed and none was given. */
  function ReconcileAssignments(before: set<Summary>, after: set<Summary>, node: Option<Id>): Option<seq<Op>> {
    var removed := ActiveDeployments(before) - ActiveDeployments(after);
    var added := ActiveDeployments(after) - ActiveDeployments(before);
    AssignmentOps(removed, added, node)
  }

  function AssignmentOps(removed: set<Id>, added: set<Id>, node: Option<Id>): Option<seq<Op>> {
    if added == {} then Some([RemoveAssignments(removed)])
    else if node.None? then None
    else Some([RemoveAssignments(removed), SetAssignments(added, node.value)])
  }

  /** Summaries see exactly the needed deployments among the ones asked for. */
  lemma SummariesSeeNeeded(m: Meta, ds: set<Id>)
    ensures ActiveDeployments(Summaries(m, ds)) == Needed(m) * ds
  {
    forall d | d in Needed(m) * ds
      ensures d in ActiveDeployments(Summaries(m, ds))
    {
      var v :| v in m.versions && Active(m, v) && m.versions[v].deployment == d;
      assert SummaryOf(m, v) in Summaries(m, ds);
    }
  }

  /** The assignments that fit `m`: kept where there was one, on `node` where there was none. */
  function Assigned(m: Meta, previous: map<Id, Id>, node: Id): map<Id, Id> {
    map d | d in Needed(m) :: if d in previous then previous[d] else node
  }

  /** Which deployments are needed does not depend on what is assigned or synced. */
  lemma NeededDependsOn(m: Meta, m': Meta)
    requires m.subgraphs == m'.subgraphs && m.versions == m'.versions
    ensures Needed(m) == Needed(m')
  {
    assert forall v :: Active(m, v) <==> Active(m', v);
  }

  lemma OtherPartsDependOn(m: Meta, x: Meta)
    requires Inv(m) && x.subgraphs == m.subgraphs && x.versions == m.versions && x.synced == m.synced
    ensures Inv(x) <==> AssignedAsNeeded(x)
  {}

  /** Of the invariant, only the first part is about assignments. */
  lemma InvDependsOn(m: Meta, x: Meta)
    requires Inv(m) && x.subgraphs == m.subgraphs && x.versions == m.versions && x.synced == m.synced
    ensures Inv(x) <==> x.assignments.Keys == Needed(m)
  {
    NeededDependsOn(x, m);
    OtherPartsDependOn(m, x);
  }

  /** The node new assignments go to; when none is given there are none. */
  function NodeOrNone(node: Option<Id>): Id {
    if node.Some? then node.value else Id(0)
  }

  lemma DiffApplied(m': Meta, previous: map<Id, Id>, removed: set<Id>, added: set<Id>, node: Id)
    requires removed == previous.Keys - Needed(m') && added == Needed(m') - previous.Keys
    ensures Reassigned(previous - removed, added, node) == Assigned(m', previous, node)
  {}

  lemma AssignmentOpsApplied(x: Meta, removed: set<Id>, added: set<Id>, node: Option<Id>)
    requires node.None? ==> added == {}
    ensures var ops := AssignmentOps(removed, added, node);
            var n := NodeOrNone(node);
            ops.Some? && ApplyOps(x, ops.value) ==
              Some(x.(assignments := Reassigned(x.assignments - removed, added, n)))
  {
    if added == {} {
      OnlyRemoved(x, removed, NodeOrNone(node));
    } else {
      RemovedAndAdded(x, removed, added, node.value);
    }
  }

  lemma OnlyRemoved(x: Meta, removed: set<Id>, node: Id)
    ensures ApplyOps(x, [RemoveAssignments(removed)])
            == Some(x.(assignments := Reassigned(x.assignments - removed, {}, node)))
  {
    ApplyOne(x, RemoveAssignments(removed));
    NothingAdded(x.assignments - removed, node);
  }

  lemma RemovedAndAdded(x: Meta, removed: set<Id>, added: set<Id>, node: Id)
    ensures ApplyOps(x, [RemoveAssignments(removed), SetAssignments(added, node)])
            == Some(x.(assignments := Reassigned(x.assignments - removed, added, node)))
  {
    var y := x.(assignments := x.assignments - removed);
    OneRemoved(x, removed);
    OneAdded(y, added, node);
    ApplyThen(x, [RemoveAssignments(removed)], y, [SetAssignments(added, node)]);
    assert [RemoveAssignments(removed)] + [SetAssignments(added, node)]
        == [RemoveAssignments(removed), SetAssignments(added, node)];
  }

  lemma OneRemoved(x: Meta, removed: set<Id>)
    ensures ApplyOps(x, [RemoveAssignments(removed)]) == Some(x.(assignments := x.assignments - removed))
  {
    ApplyOne(x, RemoveAssignments(removed));
  }

  lemma OneAdded(x: Meta, added: set<Id>, node: Id)
    ensures ApplyOps(x, [SetAssignments(added, node)])
            == Some(x.(assignments := Reassigned(x.assignments, added, node)))
  {
    ApplyOne(x, SetAssignments(added, node));
  }

  lemma NothingAdded(assignments: map<Id, Id>, node: Id)
    ensures Reassigned(assignments, {}, node) == assignments
  {}

  lemma SliceDiff(a: set<Id>, b: set<Id>, ds: set<Id>)
    requires forall d :: d !in ds ==> (d in a <==> d in b)
    ensures a * ds - b * ds == a - b
  {}

  /** When `before` and `after` are right about the needed deployments of `ds`, and nothing else changes,
      the reconciling operations lead from assignments that fit `m` to assignments that fit `m'`. */
  lemma ReconcileCorrect(m: Meta, m': Meta, ds: set<Id>, before: set<Summary>, after: set<Summary>,
                         node: Option<Id>, x: Meta)
    requires AssignedAsNeeded(m) && x.assignments == m.assignments
    requires ActiveDeployments(before) == Needed(m) * ds && ActiveDeployments(after) == Needed(m') * ds
    requires forall d :: d !in ds ==> (d in Needed(m) <==> d in Needed(m'))
    requires node.None? ==> Needed(m') <= Needed(m)
    ensures var ops := ReconcileAssignments(before, after, node);
            ops.Some? && ApplyOps(x, ops.value) ==
              Some(x.(assignments := Assigned(m', m.assignments, NodeOrNone(node))))
  {
    SliceDiff(Needed(m), Needed(m'), ds);
    SliceDiff(Needed(m'), Needed(m), ds);
    var removed, added := Needed(m) - Needed(m'), Needed(m') - Needed(m);
    DiffApplied(m', m.assignments, removed, added, NodeOrNone(node));
    AssignmentOpsApplied(x, removed, added, node);
  }
}
