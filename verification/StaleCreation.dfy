/** What happens to the creation of a version when other transactions commit between its reads and its own commit. */
module StaleCreations {
  import opened Common
  import opened SubgraphMetadata
  import opened Registrar
  import opened StaleReads

  /** What is asked for: version `id` of subgraph `g`, pointing to `d`. */
  datatype Creation = Creation(g: Id, d: Id, mode: SwitchingMode, node: Id, id: Id)

  ghost function Created(m: Meta, c: Creation): Meta
    requires c.g in m.subgraphs
  {
    VersionCreated(m, c.g, c.d, c.mode, c.node, c.id)
  }

  /** Subgraph and versions after the creation, with the role of the new version chosen by `isSynced`. */
  function CreatedAs(m: Meta, c: Creation, isSynced: bool): Meta
    requires c.g in m.subgraphs
  {
    Meta(m.subgraphs[c.g := Switched(m.subgraphs[c.g], c.mode, isSynced, c.id)],
         m.versions[c.id := Version(c.g, c.d)],
         if c.d in m.synced then m.synced else m.synced[c.d := false],
         m.assignments)
  }

  function Prepared(m: Meta, c: Creation): Result<seq<Op>, Error>
    requires c.g in m.subgraphs
  {
    PrepareCreateVersion(m, c.g, c.d, c.mode, c.node, c.id)
  }

  function Slice(m: Meta, c: Creation): set<Id>
    requires c.g in m.subgraphs
  {
    {c.d} + DeploymentOf(m, m.subgraphs[c.g].current) + DeploymentOf(m, m.subgraphs[c.g].pending)
  }

  ghost function Lost(m: Meta, c: Creation): set<Id>
    requires c.g in m.subgraphs
  {
    Needed(m) - Needed(Created(m, c))
  }

  ghost function Gained(m: Meta, c: Creation): set<Id>
    requires c.g in m.subgraphs
  {
    Needed(Created(m, c)) - Needed(m)
  }

  ghost function Reconciling(m: Meta, c: Creation): seq<Op>
    requires c.g in m.subgraphs
  {
    AssignmentOps(Lost(m, c), Gained(m, c), Some(c.node)).value
  }

  lemma PreparedCreation(m: Meta, c: Creation)
    requires Inv(m) && c.g in m.subgraphs && c.id !in m.versions
    ensures Prepared(m, c) == Ok([InStateGuard(m, c.g)] + SummaryGuards(m, Slice(m, c))
                                 + CreateWrites(m, c.g, c.d, c.mode, c.id, Reconciling(m, c)))
  {
    var ds, m' := Slice(m, c), Created(m, c);
    CreateSimulationExact(m, c.g, c.d, c.mode, c.node, c.id, ds);
    SummariesSeeNeeded(m, ds);
    SummariesSeeNeeded(m', ds);
    forall e | e !in ds
      ensures e in Needed(m) <==> e in Needed(m')
    {
      CreateOutsideSlice(m, c.g, c.d, c.mode, c.node, c.id, e);
    }
    SliceDiff(Needed(m), Needed(m'), ds);
    SliceDiff(Needed(m'), Needed(m), ds);
    PreparedCreate(m, c.g, c.d, c.mode, c.node, c.id, ds, Summaries(m', ds), Reconciling(m, c));
  }

  // ---------- What is needed after a creation

  /** Version `v` of the subgraph gives way to the new one. */
  predicate Displaced(m: Meta, c: Creation, isSynced: bool, v: Id)
    requires c.g in m.subgraphs
  {
    Uses(m.subgraphs[c.g], v) && !Uses(Switched(m.subgraphs[c.g], c.mode, isSynced, c.id), v)
  }

  lemma ActiveAfterCreation(m: Meta, c: Creation, isSynced: bool, v: Id)
    requires OwnsVersions(m) && c.g in m.subgraphs && c.id !in m.versions
    ensures Active(CreatedAs(m, c, isSynced), v) <==> v == c.id || (Active(m, v) && !Displaced(m, c, isSynced, v))
  {
    var s, m' := m.subgraphs[c.g], CreatedAs(m, c, isSynced);
    FlagsAfter(m, m', c.g, m'.subgraphs[c.g], v);
    if Uses(s, v) {
      assert m.versions[v].subgraph == c.g;
      forall h | h in m.subgraphs && Uses(m.subgraphs[h], v)
        ensures h == c.g
      {}
    }
  }

  /** Deployment `e` is needed, but by nothing that stays when the version is created. */
  ghost predicate Frees(m: Meta, c: Creation, isSynced: bool, e: Id)
    requires c.g in m.subgraphs
  {
    && e != c.d && (exists v :: ActiveOn(m, v, e))
    && forall v :: ActiveOn(m, v, e) ==> Displaced(m, c, isSynced, v)
  }

  lemma NeededAfterCreation(m: Meta, c: Creation, isSynced: bool, e: Id)
    requires Inv(m) && c.g in m.subgraphs && c.id !in m.versions
    ensures e in Needed(CreatedAs(m, c, isSynced)) <==> e == c.d || (e in Needed(m) && !Frees(m, c, isSynced, e))
  {
    var m' := CreatedAs(m, c, isSynced);
    NeededOn(m, e);
    NeededOn(m', e);
    ActiveAfterCreation(m, c, isSynced, c.id);
    if e == c.d {
      assert ActiveOn(m', c.id, e);
    } else {
      forall v
        ensures ActiveOn(m', v, e) <==> ActiveOn(m, v, e) && !Displaced(m, c, isSynced, v)
      {
        ActiveAfterCreation(m, c, isSynced, v);
      }
    }
  }

  lemma LostAndGained(m: Meta, c: Creation)
    requires Inv(m) && c.g in m.subgraphs && c.id !in m.versions
    ensures forall e :: e in Lost(m, c) <==> Frees(m, c, IsSynced(m, m.subgraphs[c.g].current), e)
    ensures Gained(m, c) == {c.d} - Needed(m)
  {
    var isSynced := IsSynced(m, m.subgraphs[c.g].current);
    NeededDependsOn(Created(m, c), CreatedAs(m, c, isSynced));
    forall e
      ensures e in Lost(m, c) <==> Frees(m, c, isSynced, e)
      ensures e in Gained(m, c) <==> e in {c.d} - Needed(m)
    {
      NeededAfterCreation(m, c, isSynced, e);
      NeededOn(m, e);
    }
  }

  // ---------- A creation that commits in another state than it read

  /** The operations read from `m0`, where they commit, do this. */
  ghost function CreatedLate(m0: Meta, m1: Meta, c: Creation): Meta
    requires c.g in m0.subgraphs && c.g in m1.subgraphs
  {
    CreatedAs(m1, c, IsSynced(m0, m0.subgraphs[c.g].current)).(
      assignments := Reassigned(m1.assignments - Lost(m0, c), Gained(m0, c), c.node))
  }

  lemma StaleCreationApplied(m0: Meta, m1: Meta, c: Creation)
    requires Inv(m0) && c.g in m0.subgraphs && c.id !in m0.versions && Prepared(m0, c).Ok?
    requires ApplyOps(m1, Prepared(m0, c).value).Some?
    ensures c.g in m1.subgraphs && m1.subgraphs[c.g] == m0.subgraphs[c.g]
    ensures ApplyOps(m1, Prepared(m0, c).value) == Some(CreatedLate(m0, m1, c))
  {
    var guards := [InStateGuard(m0, c.g)] + SummaryGuards(m0, Slice(m0, c));
    PreparedCreation(m0, c);
    ApplyOpsConcat(m1, guards, CreateWrites(m0, c.g, c.d, c.mode, c.id, Reconciling(m0, c)));
    GuardsOnly(m1, guards);
    assert guards[0] == InStateGuard(m0, c.g);
    assert c.g in Matches(m1, guards[0].query);
    LateWrites(m0, m1, c);
  }

  /** All of it but what is done about the deployment. */
  ghost function BeforeDeployment(m0: Meta, m1: Meta, c: Creation): Meta
    requires c.g in m0.subgraphs && c.g in m1.subgraphs
  {
    CreatedLate(m0, m1, c).(synced := m1.synced)
  }

  lemma WritesInTurn(m0: Meta, m1: Meta, c: Creation)
    requires c.g in m0.subgraphs && c.g in m1.subgraphs
    ensures ApplyOps(m1, CreateWrites(m0, c.g, c.d, c.mode, c.id, Reconciling(m0, c)))
            == ApplyOps(BeforeDeployment(m0, m1, c), DeploymentOps(m0, c.d))
  {
    var isSynced := IsSynced(m0, m0.subgraphs[c.g].current);
    var first := [SetVersion(c.id, Version(c.g, c.d))] + Reconciling(m0, c);
    FirstWrites(m1, c, Lost(m0, c), Gained(m0, c));
    var b := AfterFirst(m1, c, Lost(m0, c), Gained(m0, c));
    SwitchApplied(b, c.g, c.mode, isSynced, c.id);
    ApplyThen(m1, first, b, SwitchOps(c.g, c.mode, isSynced, c.id));
    ApplyThen(m1, first + SwitchOps(c.g, c.mode, isSynced, c.id), BeforeDeployment(m0, m1, c), DeploymentOps(m0, c.d));
  }

  function AfterFirst(m: Meta, c: Creation, removed: set<Id>, added: set<Id>): Meta {
    m.(versions := m.versions[c.id := Version(c.g, c.d)],
       assignments := Reassigned(m.assignments - removed, added, c.node))
  }

  lemma FirstWrites(m: Meta, c: Creation, removed: set<Id>, added: set<Id>)
    ensures ApplyOps(m, [SetVersion(c.id, Version(c.g, c.d))] + AssignmentOps(removed, added, Some(c.node)).value)
            == Some(AfterFirst(m, c, removed, added))
  {
    var a := m.(versions := m.versions[c.id := Version(c.g, c.d)]);
    ApplyOne(m, SetVersion(c.id, Version(c.g, c.d)));
    AssignmentOpsApplied(a, removed, added, Some(c.node));
    ApplyThen(m, [SetVersion(c.id, Version(c.g, c.d))], a, AssignmentOps(removed, added, Some(c.node)).value);
  }

  lemma LateWrites(m0: Meta, m1: Meta, c: Creation)
    requires c.g in m0.subgraphs && c.g in m1.subgraphs
    requires ApplyOps(m1, CreateWrites(m0, c.g, c.d, c.mode, c.id, Reconciling(m0, c))).Some?
    ensures ApplyOps(m1, CreateWrites(m0, c.g, c.d, c.mode, c.id, Reconciling(m0, c))) == Some(CreatedLate(m0, m1, c))
  {
    WritesInTurn(m0, m1, c);
    LateDeployment(m0, BeforeDeployment(m0, m1, c), c.d);
  }

  lemma LateDeployment(m0: Meta, m: Meta, d: Id)
    requires ApplyOps(m, DeploymentOps(m0, d)).Some?
    ensures d in m0.synced <==> d in m.synced
    ensures ApplyOps(m, DeploymentOps(m0, d))
            == Some(m.(synced := if d in m.synced then m.synced else m.synced[d := false]))
  {
    if d in m0.synced {
      ApplyOne(m, AbortUnless(DeploymentsWithId(d), {d}));
    } else {
      var guard := AbortUnless(DeploymentsWithId(d), {});
      ApplyOpsConcat(m, [guard, guard], [SetDeployment(d, false)]);
      ApplyTwo(m, guard, guard);
      ApplyOne(m, SetDeployment(d, false));
    }
  }

  /** A creation commits exactly if the subgraph is what it was, the only one of its name in that state, the deployments
      that were read are used by the same versions and subgraphs, and the new one still exists or still does not. */
  lemma CreationCommits(m0: Meta, m1: Meta, c: Creation)
    requires Inv(m0) && c.g in m0.subgraphs && c.id !in m0.versions && Prepared(m0, c).Ok?
    ensures ApplyOps(m1, Prepared(m0, c).value).Some? <==>
            && (forall h :: h in m1.subgraphs && m1.subgraphs[h] == m0.subgraphs[c.g] <==> h == c.g)
            && SameUse(m0, m1, Slice(m0, c)) && (c.d in m0.synced <==> c.d in m1.synced)
  {
    var guards := [InStateGuard(m0, c.g)] + SummaryGuards(m0, Slice(m0, c));
    PreparedCreation(m0, c);
    ApplyOpsConcat(m1, guards, CreateWrites(m0, c.g, c.d, c.mode, c.id, Reconciling(m0, c)));
    ApplyOpsConcat(m1, [InStateGuard(m0, c.g)], SummaryGuards(m0, Slice(m0, c)));
    ApplyOne(m1, InStateGuard(m0, c.g));
    GuardsOnly(m1, SummaryGuards(m0, Slice(m0, c)));
    SummaryGuardsMeaning(m0, m1, Slice(m0, c));
    StillInState(m0, m1, c.g);
    if ApplyOps(m1, guards).Some? {
      WritesInTurn(m0, m1, c);
      if c.d in m0.synced <==> c.d in m1.synced {
        WritesCommit(m0, m1, c);
      } else if ApplyOps(BeforeDeployment(m0, m1, c), DeploymentOps(m0, c.d)).Some? {
        LateDeployment(m0, BeforeDeployment(m0, m1, c), c.d);
      }
    }
  }

  lemma StillInState(m0: Meta, m1: Meta, g: Id)
    requires g in m0.subgraphs
    ensures ApplyOp(m1, InStateGuard(m0, g))
            == (if forall h :: h in m1.subgraphs && m1.subgraphs[h] == m0.subgraphs[g] <==> h == g
                                                 then Some(m1) else None)
  {
    var s := m0.subgraphs[g];
    var query := SubgraphsInState(s.name, s.current, s.pending);
    assert s == Subgraph(s.name, s.current, s.pending);
    assert forall h :: h in Matches(m1, query) <==> h in m1.subgraphs && m1.subgraphs[h] == s;
    OnlyMember(Matches(m1, query), g);
  }

  lemma OnlyMember(s: set<Id>, g: Id)
    ensures s == {g} <==> forall h :: h in s <==> h == g
  {
    if forall h :: h in s <==> h == g { assert s == {g}; }
  }

  /** What the guards of a creation leave open. */
  ghost predicate SameFreed(m0: Meta, m1: Meta, c: Creation, isSynced: bool)
    requires c.g in m0.subgraphs && c.g in m1.subgraphs
  {
    && (c.d in Needed(m0) ==> c.d in Needed(m1))
    && forall e :: e in Needed(m1) ==> (Frees(m0, c, isSynced, e) <==> Frees(m1, c, isSynced, e))
  }

  lemma LateKeepsRest(m1: Meta, c: Creation, isSynced: bool, assignments: map<Id, Id>)
    requires Inv(m1) && c.g in m1.subgraphs && c.id !in m1.versions && (isSynced ==> m1.subgraphs[c.g].current.Some?)
    ensures Inv(CreatedAs(m1, c, isSynced).(assignments := assignments))
            <==> assignments.Keys == Needed(CreatedAs(m1, c, isSynced))
  {
    var x := CreatedAs(m1, c, isSynced).(assignments := assignments);
    NeededDependsOn(x, CreatedAs(m1, c, isSynced));
    LateOwns(m1, c, isSynced, x);
    LatePending(m1, c, isSynced, x);
  }

  lemma LateOwns(m1: Meta, c: Creation, isSynced: bool, x: Meta)
    requires Inv(m1) && c.g in m1.subgraphs && c.id !in m1.versions
    requires x.subgraphs == CreatedAs(m1, c, isSynced).subgraphs && x.versions == CreatedAs(m1, c, isSynced).versions
    ensures OwnsVersions(x) && NamesUnique(x)
  {
    forall h, v | h in x.subgraphs && Uses(x.subgraphs[h], v)
      ensures v in x.versions && x.versions[v].subgraph == h
    {
      if v != c.id { assert Uses(m1.subgraphs[h], v); }
    }
  }

  lemma LatePending(m1: Meta, c: Creation, isSynced: bool, x: Meta)
    requires Inv(m1) && c.g in m1.subgraphs && c.id !in m1.versions && (isSynced ==> m1.subgraphs[c.g].current.Some?)
    requires x.subgraphs == CreatedAs(m1, c, isSynced).subgraphs
    ensures PendingBehindCurrent(x)
  {
    forall h | h in x.subgraphs && x.subgraphs[h].pending.Some?
      ensures x.subgraphs[h].current.Some? && x.subgraphs[h].current != x.subgraphs[h].pending
    {
      if h == c.g && m1.subgraphs[h].current.Some? { assert Uses(m1.subgraphs[h], m1.subgraphs[h].current.value); }
    }
  }

  /** A creation whose guards all pass although others committed in between leaves the assignments right exactly when
      the deployment, if it was needed, still is, and no other deployment that is needed has become, or ceased to be,
      needed only by versions that give way. */
  lemma StaleCreation(m0: Meta, m1: Meta, c: Creation)
    requires Inv(m0) && Inv(m1) && c.g in m0.subgraphs && c.id !in m0.versions && c.id !in m1.versions
    requires Prepared(m0, c).Ok? && ApplyOps(m1, Prepared(m0, c).value).Some?
    ensures c.g in m1.subgraphs
    ensures Inv(ApplyOps(m1, Prepared(m0, c).value).value)
            <==> SameFreed(m0, m1, c, IsSynced(m0, m0.subgraphs[c.g].current))
  {
    var isSynced := IsSynced(m0, m0.subgraphs[c.g].current);
    StaleCreationApplied(m0, m1, c);
    LateKeepsRest(m1, c, isSynced, CreatedLate(m0, m1, c).assignments);
    LateKeys(m0, m1, c);
  }

  lemma LateKeys(m0: Meta, m1: Meta, c: Creation)
    requires Inv(m0) && Inv(m1) && c.g in m0.subgraphs && c.g in m1.subgraphs
    requires c.id !in m0.versions && c.id !in m1.versions
    ensures var isSynced := IsSynced(m0, m0.subgraphs[c.g].current);
            CreatedLate(m0, m1, c).assignments.Keys == Needed(CreatedAs(m1, c, isSynced)) <==>
            SameFreed(m0, m1, c, isSynced)
  {
    var isSynced := IsSynced(m0, m0.subgraphs[c.g].current);
    LateAssigned(m0, m1, c);
    NeededLate(m1, c, isSynced);
    SetsAgree(c.d, Needed(m0), Needed(m1), Lost(m0, c), Freed(m1, c, isSynced));
    SameFreedAsSets(m0, m1, c, isSynced);
  }

  ghost function Freed(m: Meta, c: Creation, isSynced: bool): set<Id>
    requires c.g in m.subgraphs
  {
    set e | e in Needed(m) && Frees(m, c, isSynced, e)
  }

  lemma NeededLate(m: Meta, c: Creation, isSynced: bool)
    requires Inv(m) && c.g in m.subgraphs && c.id !in m.versions
    ensures Needed(CreatedAs(m, c, isSynced)) == Needed(m) - Freed(m, c, isSynced) + {c.d}
  {
    forall e
      ensures e in Needed(CreatedAs(m, c, isSynced)) <==> e in Needed(m) - Freed(m, c, isSynced) + {c.d}
    {
      NeededAfterCreation(m, c, isSynced, e);
    }
  }

  lemma LateAssigned(m0: Meta, m1: Meta, c: Creation)
    requires Inv(m0) && Inv(m1) && c.g in m0.subgraphs && c.g in m1.subgraphs && c.id !in m0.versions
    ensures CreatedLate(m0, m1, c).assignments.Keys == Needed(m1) - Lost(m0, c) + ({c.d} - Needed(m0))
    ensures c.d !in Lost(m0, c)
  {
    LostAndGained(m0, c);
  }

  lemma SameFreedAsSets(m0: Meta, m1: Meta, c: Creation, isSynced: bool)
    requires Inv(m0) && c.g in m0.subgraphs && c.g in m1.subgraphs && c.id !in m0.versions
    requires isSynced == IsSynced(m0, m0.subgraphs[c.g].current)
    ensures SameFreed(m0, m1, c, isSynced)
            <==> SameLost(c.d, Needed(m0), Needed(m1), Lost(m0, c), Freed(m1, c, isSynced))
  {
    LostAndGained(m0, c);
  }

  ghost predicate SameLost(d: Id, needed0: set<Id>, needed1: set<Id>, lost0: set<Id>, lost1: set<Id>) {
    (d in needed0 ==> d in needed1) && forall e :: e in needed1 ==> (e in lost0 <==> e in lost1)
  }

  lemma SetsAgree(d: Id, needed0: set<Id>, needed1: set<Id>, lost0: set<Id>, lost1: set<Id>)
    requires d !in lost0 && d !in lost1
    ensures needed1 - lost0 + ({d} - needed0) == needed1 - lost1 + {d} <==> SameLost(d, needed0, needed1, lost0, lost1)
  {
    var late, right := needed1 - lost0 + ({d} - needed0), needed1 - lost1 + {d};
    if late == right {
      assert d in late;
      forall e | e in needed1
        ensures e in lost0 <==> e in lost1
      {
        assert e in late <==> e in right;
      }
    }
  }

  // ---------- An example

  /** A creation commits where its guards find what they found when it was read. */
  lemma Commits(m0: Meta, m1: Meta, c: Creation)
    requires Inv(m0) && Inv(m1) && c.g in m0.subgraphs && c.id !in m0.versions
    requires c.g in m1.subgraphs && m1.subgraphs[c.g] == m0.subgraphs[c.g] && (c.d in m0.synced <==> c.d in m1.synced)
    requires SummaryGuards(m1, Slice(m0, c)) == SummaryGuards(m0, Slice(m0, c))
    ensures Prepared(m0, c).Ok? && ApplyOps(m1, Prepared(m0, c).value).Some?
  {
    PreparedCreation(m0, c);
    CreateGuardsPass(m1, c.g, Slice(m0, c), CreateWrites(m0, c.g, c.d, c.mode, c.id, Reconciling(m0, c)));
    WritesCommit(m0, m1, c);
  }

  lemma WritesCommit(m0: Meta, m1: Meta, c: Creation)
    requires c.g in m0.subgraphs && c.g in m1.subgraphs && (c.d in m0.synced <==> c.d in m1.synced)
    ensures ApplyOps(m1, CreateWrites(m0, c.g, c.d, c.mode, c.id, Reconciling(m0, c))).Some?
  {
    var x := BeforeDeployment(m0, m1, c);
    WritesInTurn(m0, m1, c);
    assert DeploymentOps(m0, c.d) == DeploymentOps(x, c.d);
    DeploymentApplied(x, x, c.d);
  }

  /** A version of A that points to E and takes over at once. */
  const Moving := Creation(A, E, Instant, NODE, Id(10))

  lemma MovingSlice()
    ensures Slice(Shared(false), Moving) == {D, E}
  {
    assert Shared(false).versions[A1].deployment == D;
  }

  /** B stays on D in one state and has left it in the other. */
  lemma MovingFrees(synced: bool)
    ensures var isSynced := IsSynced(Shared(false), Some(A1));
            Frees(Shared(synced), Moving, isSynced, D) <==> synced
  {
    var m := Shared(synced);
    SharedActive(synced);
    assert ActiveOn(m, A1, D);
    if !synced { assert ActiveOn(m, B1, D) && !Uses(m.subgraphs[A], B1); }
    forall v | ActiveOn(m, v, D)
      ensures v == A1 || v == B1
    {}
  }

  /** A creation that commits and leaves the assignments wrong. */
  ghost predicate GoesWrong(m0: Meta, m1: Meta, c: Creation) {
    && Inv(m0) && Inv(m1) && c.g in m0.subgraphs && c.g in m1.subgraphs && c.id !in m0.versions && c.id !in m1.versions
    && Prepared(m0, c).Ok? && ApplyOps(m1, Prepared(m0, c).value).Some?
    && !Inv(ApplyOps(m1, Prepared(m0, c).value).value)
  }

  /** The guards find what they found before. */
  ghost predicate Pinned(m0: Meta, m1: Meta, c: Creation) {
    && c.g in m0.subgraphs && c.id !in m0.versions && c.id !in m1.versions
    && c.g in m1.subgraphs && m1.subgraphs[c.g] == m0.subgraphs[c.g] && (c.d in m0.synced <==> c.d in m1.synced)
    && SummaryGuards(m1, Slice(m0, c)) == SummaryGuards(m0, Slice(m0, c))
  }

  /** Deployment `e`, needed in the end, is freed in one of the states only. */
  ghost predicate LeftOver(m0: Meta, m1: Meta, c: Creation, e: Id)
    requires c.g in m0.subgraphs && c.g in m1.subgraphs
  {
    var isSynced := IsSynced(m0, m0.subgraphs[c.g].current);
    e in Needed(m1) && !Frees(m0, c, isSynced, e) && Frees(m1, c, isSynced, e)
  }

  lemma WrongAfter(m0: Meta, m1: Meta, c: Creation, e: Id)
    ensures Inv(m0) && Inv(m1) && Pinned(m0, m1, c) && LeftOver(m0, m1, c, e) ==> GoesWrong(m0, m1, c)
  {
    if Inv(m0) && Inv(m1) && Pinned(m0, m1, c) && LeftOver(m0, m1, c, e) {
      Commits(m0, m1, c);
      StaleCreation(m0, m1, c);
    }
  }

  lemma MovingPinned()
    ensures Pinned(Shared(false), Shared(true), Moving)
  {
    SharedGuards(false);
    SharedGuards(true);
    MovingSlice();
  }

  lemma DNeeded()
    ensures D in Needed(Shared(true)) && Shared(false).subgraphs[A].current == Some(A1)
  {
    SharedActive(true);
  }

  /** While A moves from D to E, E becomes synced and B leaves D, too. All guards pass, and D stays assigned with nobody
      needing it. */
  lemma StaleCreationExample()
    ensures GoesWrong(Shared(false), SyncedState(Shared(false), E), Moving)
  {
    SharedSynced();
    SharedInv(false);
    SharedInv(true);
    MovingPinned();
    MovingFrees(false);
    MovingFrees(true);
    DNeeded();
    WrongAfter(Shared(false), Shared(true), Moving, D);
  }
}
