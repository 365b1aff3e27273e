/** What happens to the promotion of pending versions when other transactions commit between its reads and its own
    commit. */
module StalePromotions {
  import opened Common
  import opened SubgraphMetadata
  import opened Registrar
  import opened StaleReads

  /** The deployments whose assignment is deleted when `d` is synced, going by what is read from `m`. */
  function Demotions(m: Meta, d: Id): set<Id> {
    var demoted := CurrentOf(m, PendingOn(m, d));
    var before := Summaries(m, DeploymentsOf(m, demoted));
    ActiveDeployments(before) - ActiveDeployments(SimulateDemotion(before, demoted))
  }

  lemma DemotionsMeaning(m: Meta, d: Id)
    requires Inv(m)
    ensures Demotions(m, d) == Needed(m) - Needed(SyncedState(m, d))
  {
    var ds := DeploymentsOf(m, CurrentOf(m, PendingOn(m, d)));
    SyncedNeeds(m, d);
    SummariesSeeNeeded(m, ds);
    SliceDiff(Needed(m), Needed(SyncedState(m, d)), ds);
  }

  function PromotionGuards(m: Meta, d: Id): seq<Op> {
    var vs, gs := Matches(m, VersionsOfDeployments({d})), PendingOn(m, d);
    [AbortUnless(VersionsOfDeployments({d}), vs), AbortUnless(SubgraphsAwaiting(vs), gs)]
    + SummaryGuards(m, DeploymentsOf(m, CurrentOf(m, gs)))
  }

  lemma PreparedPromotion(m: Meta, d: Id)
    requires Inv(m)
    ensures PrepareSynced(m, d) ==
            Ok([UpdateSynced(d, true)] + PromotionGuards(m, d) + [RemoveAssignments(Demotions(m, d)),
                                                                  PromotePending(PendingOn(m, d))])
  {
    var vs, gs := Matches(m, VersionsOfDeployments({d})), PendingOn(m, d);
    var ds := DeploymentsOf(m, CurrentOf(m, gs));
    SyncedNeeds(m, d);
    SummariesSeeNeeded(m, ds);
    ReadSummariesSafe(m, ds);
    var before := Summaries(m, ds);
    assert ActiveDeployments(SimulateDemotion(before, CurrentOf(m, gs))) - ActiveDeployments(before) == {};
    assert [UpdateSynced(d, true), AbortUnless(VersionsOfDeployments({d}), vs)]
      + [AbortUnless(SubgraphsAwaiting(vs), gs)]
           + SummaryGuards(m, ds) + ([RemoveAssignments(Demotions(m, d))] + [PromotePending(gs)])
        == [UpdateSynced(d, true)] + PromotionGuards(m, d) + [RemoveAssignments(Demotions(m, d)), PromotePending(gs)];
  }

  /** The operations read from `m0` do the same to any state whose guards they pass. */
  lemma StalePromotionApplied(m0: Meta, m1: Meta, d: Id)
    requires Inv(m0) && PrepareSynced(m0, d).Ok? && ApplyOps(m1, PrepareSynced(m0, d).value).Some?
    ensures ApplyOps(m1, PrepareSynced(m0, d).value).value
            == SyncedState(m1, d).(assignments := m1.assignments - Demotions(m0, d))
  {
    var guards := PromotionGuards(m0, d);
    var writes := [RemoveAssignments(Demotions(m0, d)), PromotePending(PendingOn(m0, d))];
    var marked := m1.(synced := m1.synced[d := true]);
    PreparedPromotion(m0, d);
    MarkedFirst(m1, d, guards, writes);
    GuardsOnly(marked, guards);
    PendingPinned(m0, marked, d);
    PromotionWrites(m1, d, Demotions(m0, d));
  }

  lemma MarkedFirst(m: Meta, d: Id, guards: seq<Op>, writes: seq<Op>)
    requires ApplyOps(m, [UpdateSynced(d, true)] + guards + writes).Some?
    ensures var marked := m.(synced := m.synced[d := true]);
            && ApplyOps(marked, guards).Some?
            && ApplyOps(m, [UpdateSynced(d, true)] + guards + writes)
               == ApplyOps(ApplyOps(marked, guards).value, writes)
  {
    ApplyOpsConcat(m, [UpdateSynced(d, true)] + guards, writes);
    ApplyOpsConcat(m, [UpdateSynced(d, true)], guards);
    ApplyOne(m, UpdateSynced(d, true));
  }

  lemma PromotionWrites(m: Meta, d: Id, removed: set<Id>)
    ensures var marked := m.(synced := m.synced[d := true]);
            && PendingOn(marked, d) == PendingOn(m, d)
            && ApplyOps(marked, [RemoveAssignments(removed), PromotePending(PendingOn(m, d))])
               == Some(SyncedState(m, d).(assignments := m.assignments - removed))
  {
    ApplyTwo(m.(synced := m.synced[d := true]), RemoveAssignments(removed), PromotePending(PendingOn(m, d)));
  }

  /** A promotion commits exactly if the deployment still exists, the same versions point to it, the same subgraphs wait
      for them, and the deployments of the versions to be demoted are used by the same versions and subgraphs. */
  lemma PromotionCommits(m0: Meta, m1: Meta, d: Id)
    requires Inv(m0) && PrepareSynced(m0, d).Ok?
    ensures ApplyOps(m1, PrepareSynced(m0, d).value).Some? <==>
            && d in m1.synced
            && Matches(m1, VersionsOfDeployments({d})) == Matches(m0, VersionsOfDeployments({d}))
            && PendingOn(m1, d) == PendingOn(m0, d)
            && SameUse(m0, m1, DeploymentsOf(m0, CurrentOf(m0, PendingOn(m0, d))))
  {
    var writes := [RemoveAssignments(Demotions(m0, d)), PromotePending(PendingOn(m0, d))];
    var marked := m1.(synced := m1.synced[d := true]);
    PreparedPromotion(m0, d);
    MarkedGuards(m0, m1, d);
    ApplyTwo(marked, RemoveAssignments(Demotions(m0, d)), PromotePending(PendingOn(m0, d)));
    CommitsWhen(m1, d, PromotionGuards(m0, d), writes);
  }

  lemma CommitsWhen(m: Meta, d: Id, guards: seq<Op>, writes: seq<Op>)
    requires forall i :: 0 <= i < |guards| ==> guards[i].AbortUnless?
    requires ApplyOps(m.(synced := m.synced[d := true]), writes).Some?
    ensures ApplyOps(m, [UpdateSynced(d, true)] + guards + writes).Some? <==>
            d in m.synced && ApplyOps(m.(synced := m.synced[d := true]), guards).Some?
  {
    MarkedRuns(m, d, guards);
    ApplyOpsConcat(m, [UpdateSynced(d, true)] + guards, writes);
    GuardsOnly(m.(synced := m.synced[d := true]), guards);
  }

  lemma MarkedRuns(m: Meta, d: Id, rest: seq<Op>)
    ensures ApplyOps(m, [UpdateSynced(d, true)] + rest)
            == if d in m.synced then ApplyOps(m.(synced := m.synced[d := true]), rest) else None
  {
    ApplyOpsConcat(m, [UpdateSynced(d, true)], rest);
    ApplyOne(m, UpdateSynced(d, true));
  }

  lemma MarkedGuards(m0: Meta, m1: Meta, d: Id)
    ensures ApplyOps(m1.(synced := m1.synced[d := true]), PromotionGuards(m0, d)).Some? <==>
            && Matches(m1, VersionsOfDeployments({d})) == Matches(m0, VersionsOfDeployments({d}))
            && PendingOn(m1, d) == PendingOn(m0, d)
            && SameUse(m0, m1, DeploymentsOf(m0, CurrentOf(m0, PendingOn(m0, d))))
  {
    var vs, gs := Matches(m0, VersionsOfDeployments({d})), PendingOn(m0, d);
    var ds := DeploymentsOf(m0, CurrentOf(m0, gs));
    var marked := m1.(synced := m1.synced[d := true]);
    var first, second := AbortUnless(VersionsOfDeployments({d}), vs), AbortUnless(SubgraphsAwaiting(vs), gs);
    assert PromotionGuards(m0, d) == [first] + [second] + SummaryGuards(m0, ds);
    GuardsInTurn(marked, first, second, SummaryGuards(m0, ds));
    SummaryGuardsMeaning(m0, marked, ds);
    assert Matches(marked, SubgraphsAwaiting(vs)) == Matches(m1, SubgraphsAwaiting(vs));
    SameUseOf(m0, m1, marked, ds);
  }

  lemma SameUseOf(m0: Meta, m1: Meta, m2: Meta, ds: set<Id>)
    requires m1.subgraphs == m2.subgraphs && m1.versions == m2.versions
    ensures SameUse(m0, m1, ds) == SameUse(m0, m2, ds)
  {}

  /** The guards pin which subgraphs wait for the deployment. */
  lemma PendingPinned(m0: Meta, m1: Meta, d: Id)
    requires forall i :: 0 <= i < |PromotionGuards(m0, d)| ==>
               Matches(m1, PromotionGuards(m0, d)[i].query) == PromotionGuards(m0, d)[i].ids
    ensures PendingOn(m1, d) == PendingOn(m0, d)
  {
    var vs := Matches(m0, VersionsOfDeployments({d}));
    assert PromotionGuards(m0, d)[0] == AbortUnless(VersionsOfDeployments({d}), vs);
    assert PromotionGuards(m0, d)[1] == AbortUnless(SubgraphsAwaiting(vs), PendingOn(m0, d));
  }

  /** Deployment `e` is needed, but by nothing that outlives the promotion of what waits for `d`. */
  ghost predicate LosesNeed(m: Meta, d: Id, e: Id) {
    (exists v :: ActiveOn(m, v, e)) && forall v :: ActiveOn(m, v, e) ==> v in CurrentOf(m, PendingOn(m, d))
  }

  lemma DemotedMeaning(m: Meta, d: Id, e: Id)
    requires Inv(m)
    ensures e in Demotions(m, d) <==> LosesNeed(m, d, e)
  {
    var m' := SyncedState(m, d);
    DemotionsMeaning(m, d);
    NeededOn(m, e);
    NeededOn(m', e);
    forall v
      ensures ActiveOn(m', v, e) <==> ActiveOn(m, v, e) && v !in CurrentOf(m, PendingOn(m, d))
    {
      ActiveAfterPromotion(m, m', PendingOn(m, d), v);
    }
  }

  ghost predicate SameLosses(m0: Meta, m1: Meta, d: Id) {
    forall e :: e in Needed(m1) ==> (LosesNeed(m0, d, e) <==> LosesNeed(m1, d, e))
  }

  /** A promotion whose guards all pass although others committed in between leaves the assignments right exactly when
      no deployment that is needed has become, or ceased to be, needed only by versions that are demoted. */
  lemma StalePromotion(m0: Meta, m1: Meta, d: Id)
    requires Inv(m0) && Inv(m1) && PrepareSynced(m0, d).Ok? && ApplyOps(m1, PrepareSynced(m0, d).value).Some?
    ensures Inv(ApplyOps(m1, PrepareSynced(m0, d).value).value) <==> SameLosses(m0, m1, d)
  {
    var m', x := SyncedState(m1, d), ApplyOps(m1, PrepareSynced(m0, d).value).value;
    StalePromotionApplied(m0, m1, d);
    SyncedKeepsInv(m1, d);
    SyncedNeeds(m1, d);
    InvDependsOn(m', x);
    DemotionsMeaning(m1, d);
    Complement(m1.assignments.Keys, Demotions(m0, d), Needed(m'));
    SameDemotions(m0, m1, d);
  }

  lemma SameDemotions(m0: Meta, m1: Meta, d: Id)
    requires Inv(m0) && Inv(m1)
    ensures Demotions(m0, d) * Needed(m1) == Demotions(m1, d) <==> SameLosses(m0, m1, d)
  {
    DemotionsMeaning(m1, d);
    forall e
      ensures e in Demotions(m0, d) <==> LosesNeed(m0, d, e)
      ensures e in Demotions(m1, d) <==> LosesNeed(m1, d, e)
    {
      DemotedMeaning(m0, d, e);
      DemotedMeaning(m1, d, e);
    }
    if SameLosses(m0, m1, d) { assert Demotions(m0, d) * Needed(m1) == Demotions(m1, d); }
    if Demotions(m0, d) * Needed(m1) == Demotions(m1, d) {
      forall e | e in Needed(m1)
        ensures LosesNeed(m0, d, e) <==> LosesNeed(m1, d, e)
      {
        assert e in Demotions(m0, d) * Needed(m1) <==> e in Demotions(m1, d);
      }
    }
  }

  // ---------- When the guards suffice

  /** Subgraphs wait for `d`, and each of them runs a version on `e` until then. */
  ghost predicate WaitOn(m: Meta, d: Id, e: Id) {
    PendingOn(m, d) != {} && forall g :: g in PendingOn(m, d) ==> RunsOn(m, g, e)
  }

  ghost predicate RunsOn(m: Meta, g: Id, e: Id) {
    && g in m.subgraphs && m.subgraphs[g].current.Some? && m.subgraphs[g].current.value in m.versions
    && m.versions[m.subgraphs[g].current.value].deployment == e
  }

  function UsersOf(m: Meta, e: Id): set<Id> {
    Matches(m, SubgraphsUsing(Matches(m, VersionsOfDeployments({e}))))
  }

  lemma UserHas(m: Meta, g: Id, e: Id)
    requires Inv(m)
    ensures g in UsersOf(m, e) <==>
            g in m.subgraphs && exists v :: Uses(m.subgraphs[g], v) && v in m.versions && m.versions[v].deployment == e
  {
    if g in UsersOf(m, e) {
      var v :| v in Matches(m, VersionsOfDeployments({e})) && Uses(m.subgraphs[g], v);
    } else if g in m.subgraphs {
      forall v | Uses(m.subgraphs[g], v) && v in m.versions
        ensures m.versions[v].deployment != e
      {
        assert m.versions[v].deployment == e ==> v in Matches(m, VersionsOfDeployments({e}));
      }
    }
  }

  /** Then a need is lost exactly when nobody else uses that deployment. */
  lemma OneLoss(m: Meta, d: Id, e: Id, x: Id)
    requires Inv(m) && e != d && WaitOn(m, d, e)
    ensures LosesNeed(m, d, x) <==> x == e && UsersOf(m, e) <= PendingOn(m, d)
  {
    var gs := PendingOn(m, d);
    if LosesNeed(m, d, x) {
      var v :| ActiveOn(m, v, x);
      assert v in CurrentOf(m, gs);
      forall g | g in UsersOf(m, e)
        ensures g in gs
      {
        UserHas(m, g, e);
        var w :| Uses(m.subgraphs[g], w) && w in m.versions && m.versions[w].deployment == e;
        assert ActiveOn(m, w, e);
        var h :| h in gs && m.subgraphs[h].current == Some(w);
        assert Uses(m.subgraphs[h], w);
      }
    }
    if x == e && UsersOf(m, e) <= gs {
      var g :| g in gs;
      assert ActiveOn(m, m.subgraphs[g].current.value, e);
      forall v | ActiveOn(m, v, e)
        ensures v in CurrentOf(m, gs)
      {
        OnlyCurrent(m, d, e, v);
      }
    }
  }

  lemma OnlyCurrent(m: Meta, d: Id, e: Id, v: Id)
    requires Inv(m) && e != d && UsersOf(m, e) <= PendingOn(m, d) && ActiveOn(m, v, e)
    ensures v in CurrentOf(m, PendingOn(m, d))
  {
    var g :| g in m.subgraphs && Uses(m.subgraphs[g], v);
    UserHas(m, g, e);
    PendingIsOn(m, d, g);
  }

  lemma PendingIsOn(m: Meta, d: Id, g: Id)
    requires g in PendingOn(m, d)
    ensures g in m.subgraphs && m.subgraphs[g].pending.Some?
    ensures m.subgraphs[g].pending.value in m.versions && m.versions[m.subgraphs[g].pending.value].deployment == d
  {}

  /** What the guards pin is enough for subgraphs that all run on one other deployment: such a promotion is never
      wrong. */
  lemma GuardsSuffice(m0: Meta, m1: Meta, d: Id, e: Id)
    requires Inv(m0) && Inv(m1) && PrepareSynced(m0, d).Ok? && ApplyOps(m1, PrepareSynced(m0, d).value).Some?
    requires e != d && WaitOn(m0, d, e)
    ensures Inv(ApplyOps(m1, PrepareSynced(m0, d).value).value)
  {
    UsersPinned(m0, m1, d, e);
    StillWaitOn(m0, m1, d, e);
    forall x
      ensures LosesNeed(m0, d, x) <==> LosesNeed(m1, d, x)
    {
      OneLoss(m0, d, e, x);
      OneLoss(m1, d, e, x);
    }
    StalePromotion(m0, m1, d);
  }

  lemma SliceIsOne(m: Meta, d: Id, e: Id)
    requires WaitOn(m, d, e)
    ensures DeploymentsOf(m, CurrentOf(m, PendingOn(m, d))) == {e}
  {
    var g :| g in PendingOn(m, d);
    assert m.subgraphs[g].current.value in CurrentOf(m, PendingOn(m, d));
  }

  lemma UsersPinned(m0: Meta, m1: Meta, d: Id, e: Id)
    requires Inv(m0) && PrepareSynced(m0, d).Ok? && ApplyOps(m1, PrepareSynced(m0, d).value).Some? && WaitOn(m0, d, e)
    ensures PendingOn(m1, d) == PendingOn(m0, d) && UsersOf(m1, e) == UsersOf(m0, e)
  {
    var guards, marked := PromotionGuards(m0, d), m1.(synced := m1.synced[d := true]);
    var writes := [RemoveAssignments(Demotions(m0, d)), PromotePending(PendingOn(m0, d))];
    PreparedPromotion(m0, d);
    MarkedFirst(m1, d, guards, writes);
    GuardsOnly(marked, guards);
    PendingPinned(m0, marked, d);
    SliceIsOne(m0, d, e);
    var vs := Matches(m0, VersionsOfDeployments({e}));
    assert guards[2] == AbortUnless(VersionsOfDeployments({e}), vs);
    assert guards[3] == AbortUnless(SubgraphsUsing(vs), UsersOf(m0, e));
    assert PendingOn(marked, d) == PendingOn(m1, d) && UsersOf(marked, e) == UsersOf(m1, e);
  }

  lemma StillWaitOn(m0: Meta, m1: Meta, d: Id, e: Id)
    requires Inv(m0) && Inv(m1) && e != d && WaitOn(m0, d, e)
    requires PendingOn(m1, d) == PendingOn(m0, d) && UsersOf(m1, e) == UsersOf(m0, e)
    ensures WaitOn(m1, d, e)
  {
    forall g | g in PendingOn(m1, d)
      ensures RunsOn(m1, g, e)
    {
      assert RunsOn(m0, g, e);
      assert Uses(m0.subgraphs[g], m0.subgraphs[g].current.value);
      UserHas(m0, g, e);
      UserHas(m1, g, e);
      PendingIsOn(m1, d, g);
    }
  }
}
