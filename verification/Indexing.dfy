/** The indexing loop of packages/graph-node/core/src/subgraph/instance_manager.rs: the entity cache is
    taken out of the context for each block, evicted, put back, and dropped on reverts. */
module Indexing {
  import opened Common
  import opened Entities
  import opened LfuCaches
  import opened EntityCaches

  /** What a mapping asks of the host. */
  datatype HostCall = StoreGet(key: EntityKey) | StoreSet(key: EntityKey, data: Entity) | StoreRemove(key: EntityKey)

  /** What the mappings of a block do next: a call, or one of the ways in which the triggers at hand end. */
  datatype Next =
    | Call(call: HostCall)
    | CreatedDataSources
    | Settled
    | PossibleReorg
    | Failed

  /** The mappings of a block. What they do next depends on how many steps they have made and on everything they have
      read in the block so far, a null field being read like a missing one. Past `limit` steps they time out. */
  datatype Mapping = Mapping(next: (nat, seq<Option<Entity>>) -> Next, limit: nat)

  /** What becomes of a block whose mappings settle: nothing stops it, the stream was shut down, or the write fails. */
  datatype Fate = Unhindered | Canceled | WriteFailed

  /** What the block stream yields. A revert has already put the store back to `rows`. */
  datatype StreamEvent = Block(mapping: Mapping, fate: Fate) | Revert(rows: Rows) | StreamError

  datatype CancelableError = Cancel | Error

  /** How the processing of a block ends. */
  datatype BlockEnd = Committed(rows: Rows, needsRestart: bool) | Retried | Over(error: CancelableError)

  /** The run as seen from outside: the store, and everything the mappings read, null fields left out. */
  datatype Run = Run(rows: Rows, observed: seq<Option<Entity>>, failed: bool)

  // ---------- Indexing without any cache

  /** A state in which some triggers have ended, in the way `ending` says. */
  datatype Played = Played(rows: Rows, steps: nat, seen: seq<Option<Entity>>, ending: Next)

  /** The mappings go on, each call going to the store, until the triggers at hand end. */
  function Play(rows: Rows, m: Mapping, steps: nat, seen: seq<Option<Entity>>): (p: Played)
    ensures seen <= p.seen && !p.ending.Call? && (p.ending.Failed? || steps < p.steps <= m.limit)
    decreases m.limit - steps
  {
    if steps >= m.limit then Played(rows, steps, seen, Failed) else
    match m.next(steps, seen)
    case Call(StoreGet(key)) => Play(rows, m, steps + 1, seen + [ScrubOpt(Lookup(rows, key))])
    case Call(StoreSet(key, data)) => Play(ApplyOperation(rows, EntityOperation.Set(key, data)), m, steps + 1, seen)
    case Call(StoreRemove(key)) => Play(ApplyOperation(rows, EntityOperation.Remove(key)), m, steps + 1, seen)
    case ending => Played(rows, steps + 1, seen, ending)
  }

  /** As long as triggers create data sources, these run their own triggers; a reorganization no longer helps then. */
  function PlayCreated(m: Mapping, p: Played): (q: Played)
    requires !p.ending.Call? && (p.ending.Failed? || p.steps <= m.limit)
    ensures p.seen <= q.seen && (q.ending.Settled? || q.ending.Failed?)
    decreases if p.ending.CreatedDataSources? then m.limit - p.steps + 1 else 0
  {
    if p.ending.CreatedDataSources? then PlayCreated(m, Play(p.rows, m, p.steps, p.seen))
    else if p.ending.PossibleReorg? then p.(ending := Failed)
    else p
  }

  /** All that happens in a block, with what was read in it: the triggers, those of created data sources, and at last
      the proof of indexing. */
  function PlayBlock(rows: Rows, m: Mapping, fate: Fate): (seq<Option<Entity>>, BlockEnd) {
    var first := Play(rows, m, 0, []);
    if first.ending.PossibleReorg? then (first.seen, Retried) else PlayOn(first, m, fate)
  }

  function PlayOn(first: Played, m: Mapping, fate: Fate): (seq<Option<Entity>>, BlockEnd)
    requires !first.ending.Call? && (first.ending.Failed? || first.steps <= m.limit)
  {
    var rest := PlayCreated(m, first);
    if rest.ending.Failed? then (rest.seen, Over(Error))
    else if fate.Canceled? then (rest.seen, Over(Cancel))
    else
      var proof := Play(rest.rows, m, rest.steps, rest.seen);
      (proof.seen,
       if proof.ending.Failed? || fate.WriteFailed? then Over(Error)
       else Committed(proof.rows, first.ending.CreatedDataSources?))
  }

  /** The store after a block that nothing hinders. */
  function Changed(rows: Rows, m: Mapping): Rows {
    var end := PlayBlock(rows, m, Unhindered).1;
    if end.Committed? then end.rows else rows
  }

  /** A block commits all its changes or none. */
  function Step(run: Run, event: StreamEvent): Run {
    if run.failed then run else
    match event
    case StreamError => run
    case Revert(rows) => run.(rows := rows)
    case Block(mapping, fate) =>
      var (seen, end) := PlayBlock(run.rows, mapping, fate);
      Run(if end.Committed? then end.rows else run.rows, run.observed + seen, end.Over?)
  }

  function Steps(run: Run, events: seq<StreamEvent>): Run {
    if events == [] then run else Step(Steps(run, events[..|events| - 1]), events[|events| - 1])
  }

  /** Once a run failed, nothing that follows changes it. */
  lemma {:induction false} FailureIsFinal(run: Run, events: seq<StreamEvent>)
    requires run.failed
    ensures Steps(run, events) == run
  {
    if events != [] { FailureIsFinal(run, events[..|events| - 1]); }
  }

  lemma FailedBefore(run: Run, events: seq<StreamEvent>, i: nat)
    requires i <= |events| && Steps(run, events[..i]).failed
    ensures Steps(run, events) == Steps(run, events[..i])
  {
    StepsConcat(run, events[..i], events[i..]);
    assert events[..i] + events[i..] == events;
    FailureIsFinal(Steps(run, events[..i]), events[i..]);
  }

  lemma {:induction false} StepsConcat(run: Run, a: seq<StreamEvent>, b: seq<StreamEvent>)
    ensures Steps(run, a + b) == Steps(Steps(run, a), b)
  {
    if b == [] {
      assert a + b == a;
    } else {
      var rest, last := b[..|b| - 1], b[|b| - 1];
      StepsConcat(run, a, rest);
      StepsSnoc(run, a + rest, last);
      StepsSnoc(Steps(run, a), rest, last);
      assert a + b == a + rest + [last] && b == rest + [last];
    }
  }

  lemma StepsSnoc(run: Run, events: seq<StreamEvent>, last: StreamEvent)
    ensures Steps(run, events + [last]) == Step(Steps(run, events), last)
  {
    assert (events + [last])[..|events|] == events;
  }

  // ---------- What a block does, call by call

  /** The store, and what has been read so far. */
  datatype State = State(rows: Rows, seen: seq<Option<Entity>>)

  /** A call on a store without a cache. */
  ghost predicate CallLeads(s: State, call: HostCall, t: State) {
    match call
    case StoreGet(key) => t == State(s.rows, s.seen + [ScrubOpt(Lookup(s.rows, key))])
    case StoreSet(key, data) => t == State(ApplyOperation(s.rows, EntityOperation.Set(key, data)), s.seen)
    case StoreRemove(key) => t == State(ApplyOperation(s.rows, EntityOperation.Remove(key)), s.seen)
  }

  ghost predicate CallAt(m: Mapping, from: nat, states: seq<State>, i: nat)
    requires i + 1 < |states|
  {
    m.next(from + i, states[i].seen).Call? && CallLeads(states[i], m.next(from + i, states[i].seen).call, states[i + 1])
  }

  /** From `s` on, at step `from`, the mappings make one call after the other, in time, until they end with `ending`. */
  ghost predicate Runs(m: Mapping, s: State, from: nat, states: seq<State>, ending: Next) {
    && states != [] && states[0] == s && from + |states| <= m.limit
    && (forall i :: 0 <= i < |states| - 1 ==> CallAt(m, from, states, i))
    && !ending.Call? && m.next(from + |states| - 1, states[|states| - 1].seen) == ending
  }

  /** From `s` on, at step `from`, they end with `ending` in `t`, before step `steps`. */
  ghost predicate Ended(m: Mapping, s: State, from: nat, ending: Next, t: State, steps: nat) {
    exists states :: Runs(m, s, from, states, ending) && t == states[|states| - 1] && steps == from + |states|
  }

  /** The triggers of the block itself end with `ending`. */
  ghost predicate OwnEnd(m: Mapping, rows: Rows, ending: Next) {
    exists states :: Runs(m, State(rows, []), 0, states, ending)
  }

  lemma {:induction false} RunPlayed(m: Mapping, s: State, from: nat, states: seq<State>, ending: Next)
    requires Runs(m, s, from, states, ending)
    ensures var t := states[|states| - 1];
            Play(s.rows, m, from, s.seen) == Played(t.rows, from + |states|, t.seen, ending)
    decreases |states|
  {
    if |states| > 1 {
      assert CallAt(m, from, states, 0);
      RunOn(m, s, from, states, ending, from + 1, states[1..]);
      RunPlayed(m, states[1], from + 1, states[1..], ending);
    }
  }

  lemma RunOn(m: Mapping, s: State, from: nat, states: seq<State>, ending: Next, next: nat, rest: seq<State>)
    requires Runs(m, s, from, states, ending) && |states| > 1 && next == from + 1 && rest == states[1..]
    ensures Runs(m, states[1], next, rest, ending)
  {
    forall i | 0 <= i < |rest| - 1
      ensures CallAt(m, next, rest, i)
    {
      assert CallAt(m, from, states, i + 1);
    }
  }

  lemma RunBefore(m: Mapping, s: State, t: State, from: nat, states: seq<State>, ending: Next)
    requires from < m.limit && m.next(from, s.seen).Call? && CallLeads(s, m.next(from, s.seen).call, t)
    requires Runs(m, t, from + 1, states, ending)
    ensures Runs(m, s, from, [s] + states, ending)
  {
    var longer := [s] + states;
    forall i | 0 <= i < |longer| - 1
      ensures CallAt(m, from, longer, i)
    {
      if i > 0 { assert CallAt(m, from + 1, states, i - 1); }
    }
  }

  function AfterCall(s: State, call: HostCall): State {
    match call
    case StoreGet(key) => State(s.rows, s.seen + [ScrubOpt(Lookup(s.rows, key))])
    case StoreSet(key, data) => State(ApplyOperation(s.rows, EntityOperation.Set(key, data)), s.seen)
    case StoreRemove(key) => State(ApplyOperation(s.rows, EntityOperation.Remove(key)), s.seen)
  }

  lemma PlayNext(m: Mapping, s: State, from: nat)
    requires from < m.limit && m.next(from, s.seen).Call?
    ensures var t := AfterCall(s, m.next(from, s.seen).call);
            CallLeads(s, m.next(from, s.seen).call, t)
            && Play(s.rows, m, from, s.seen) == Play(t.rows, m, from + 1, t.seen)
  {}

  lemma EndedBefore(m: Mapping, s: State, t: State, from: nat, ending: Next, u: State, steps: nat)
    requires from < m.limit && m.next(from, s.seen).Call? && CallLeads(s, m.next(from, s.seen).call, t)
    requires Ended(m, t, from + 1, ending, u, steps)
    ensures Ended(m, s, from, ending, u, steps)
  {
    var states :| Runs(m, t, from + 1, states, ending) && u == states[|states| - 1] && steps == from + 1 + |states|;
    RunBefore(m, s, t, from, states, ending);
    assert ([s] + states)[|states|] == states[|states| - 1];
  }

  /** Playing the triggers ends as they do, or fails for want of time. */
  ghost predicate PlaysAsRun(m: Mapping, s: State, from: nat) {
    var p := Play(s.rows, m, from, s.seen);
    Ended(m, s, from, p.ending, State(p.rows, p.seen), p.steps) || (p.ending == Failed && p.steps >= m.limit)
  }

  lemma {:induction false} PlayedRuns(m: Mapping, s: State, from: nat)
    ensures PlaysAsRun(m, s, from)
    decreases m.limit - from
  {
    if from < m.limit && m.next(from, s.seen).Call? {
      PlayedRuns(m, AfterCall(s, m.next(from, s.seen).call), from + 1);
      PlayedBefore(m, s, from);
    } else if from < m.limit {
      EndedAtOnce(m, s, from);
    }
  }

  lemma PlayedBefore(m: Mapping, s: State, from: nat)
    requires from < m.limit && m.next(from, s.seen).Call?
    requires PlaysAsRun(m, AfterCall(s, m.next(from, s.seen).call), from + 1)
    ensures PlaysAsRun(m, s, from)
  {
    var t := AfterCall(s, m.next(from, s.seen).call);
    var p := Play(t.rows, m, from + 1, t.seen);
    PlayNext(m, s, from);
    if Ended(m, t, from + 1, p.ending, State(p.rows, p.seen), p.steps) {
      EndedBefore(m, s, t, from, p.ending, State(p.rows, p.seen), p.steps);
    }
  }

  lemma EndedAtOnce(m: Mapping, s: State, from: nat)
    requires from < m.limit && !m.next(from, s.seen).Call?
    ensures Ended(m, s, from, m.next(from, s.seen), s, from + 1)
  {
    var states := [s];
    assert Runs(m, s, from, states, m.next(from, s.seen)) && s == states[|states| - 1];
  }

  lemma OwnEndPlayed(m: Mapping, rows: Rows, ending: Next)
    requires !ending.Failed?
    ensures OwnEnd(m, rows, ending) <==> Play(rows, m, 0, []).ending == ending
  {
    PlayedRuns(m, State(rows, []), 0);
    assert PlaysAsRun(m, State(rows, []), 0);
    if states :| Runs(m, State(rows, []), 0, states, ending) { RunPlayed(m, State(rows, []), 0, states, ending); }
  }

  /** A block is tried again exactly if its own triggers end with a possible reorganization; and when it is committed,
      the stream has to be rebuilt exactly if they end with created data sources. */
  lemma RestartMeaning(rows: Rows, m: Mapping, fate: Fate)
    ensures var end := PlayBlock(rows, m, fate).1;
            && (end.Retried? <==> OwnEnd(m, rows, PossibleReorg))
            && (end.Committed? ==> (end.needsRestart <==> OwnEnd(m, rows, CreatedDataSources)))
  {
    OwnEndPlayed(m, rows, PossibleReorg);
    OwnEndPlayed(m, rows, CreatedDataSources);
  }

  /** Where a block is when some triggers begin. */
  datatype Phase = Phase(state: State, steps: nat)

  ghost predicate Created(m: Mapping, p: Phase, q: Phase) {
    Ended(m, p.state, p.steps, CreatedDataSources, q.state, q.steps)
  }

  /** One after the other, all but the last of these triggers end with created data sources. */
  ghost predicate Phases(m: Mapping, rows: Rows, phases: seq<Phase>) {
    && phases != [] && phases[0] == Phase(State(rows, []), 0)
    && forall i :: 0 < i < |phases| ==> Created(m, phases[i - 1], phases[i])
  }

  /** The last triggers of `phases` end with `ending`, in `q`. */
  ghost predicate LastEnds(m: Mapping, phases: seq<Phase>, ending: Next, q: Phase)
    requires phases != []
  {
    var p := phases[|phases| - 1];
    Ended(m, p.state, p.steps, ending, q.state, q.steps)
  }

  lemma EndedPlayed(m: Mapping, p: Phase, ending: Next, q: Phase)
    requires Ended(m, p.state, p.steps, ending, q.state, q.steps)
    ensures Play(p.state.rows, m, p.steps, p.state.seen) == Played(q.state.rows, q.steps, q.state.seen, ending)
  {
    var states :| Runs(m, p.state, p.steps, states, ending) && q.state == states[|states| - 1]
                  && q.steps == p.steps + |states|;
    RunPlayed(m, p.state, p.steps, states, ending);
  }

  lemma {:induction false} PhasesPlayed(m: Mapping, rows: Rows, phases: seq<Phase>)
    requires Phases(m, rows, phases)
    ensures var first, p := Play(rows, m, 0, []), phases[|phases| - 1];
            if |phases| == 1 then first == Play(p.state.rows, m, p.steps, p.state.seen)
            else first.ending == CreatedDataSources
                 && PlayCreated(m, first) == PlayCreated(m, Play(p.state.rows, m, p.steps, p.state.seen))
  {
    if |phases| > 1 {
      var before := phases[..|phases| - 1];
      assert Phases(m, rows, before) by {
        forall i | 0 < i < |before|
          ensures Created(m, before[i - 1], before[i])
        {
          assert Created(m, phases[i - 1], phases[i]);
        }
      }
      PhasesPlayed(m, rows, before);
      assert Created(m, phases[|phases| - 2], phases[|phases| - 1]);
      EndedPlayed(m, phases[|phases| - 2], CreatedDataSources, phases[|phases| - 1]);
    }
  }

  /** How a block ends, by how its triggers do: its own, those of the data sources they create, as long as they create
      some, and, once these settle and the stream has not been shut down, the proof of indexing. */
  lemma BlockMeaning(rows: Rows, m: Mapping, fate: Fate, phases: seq<Phase>, ending: Next, q: Phase)
    requires Phases(m, rows, phases) && LastEnds(m, phases, ending, q)
    ensures ending == PossibleReorg ==>
              PlayBlock(rows, m, fate) == (q.state.seen, if |phases| == 1 then Retried else Over(Error))
    ensures ending == Failed ==> PlayBlock(rows, m, fate) == (q.state.seen, Over(Error))
    ensures ending == Settled && fate == Canceled ==> PlayBlock(rows, m, fate) == (q.state.seen, Over(Cancel))
    ensures ending == Settled && fate != Canceled ==>
              forall last, t: Phase :: Ended(m, q.state, q.steps, last, t.state, t.steps) ==>
                PlayBlock(rows, m, fate) ==
                (t.state.seen,
                 if last == Failed || fate == WriteFailed then Over(Error) else Committed(t.state.rows, |phases| > 1))
  {
    PhasesPlayed(m, rows, phases);
    EndedPlayed(m, phases[|phases| - 1], ending, q);
    if ending == Settled && fate != Canceled {
      forall last, t: Phase | Ended(m, q.state, q.steps, last, t.state, t.steps)
        ensures Play(q.state.rows, m, q.steps, q.state.seen) == Played(t.state.rows, t.steps, t.state.seen, last)
      {
        EndedPlayed(m, q, last, t);
      }
    }
  }

  // ---------- Indexing with the cache

  function ScrubAll(observed: seq<Option<Entity>>): seq<Option<Entity>> {
    seq(|observed|, i requires 0 <= i < |observed| => ScrubOpt(observed[i]))
  }

  lemma ScrubOneMore(observed: seq<Option<Entity>>, entity: Option<Entity>)
    ensures ScrubAll(observed + [entity]) == ScrubAll(observed) + [ScrubOpt(entity)]
  {}

  lemma ScrubAllConcat(a: seq<Option<Entity>>, b: seq<Option<Entity>>)
    ensures ScrubAll(a + b) == ScrubAll(a) + ScrubAll(b)
  {}

  /** The store failed to answer in the course of an event: a block is given up after some of its calls. */
  ghost predicate GivenUp(before: Run, event: StreamEvent, after: Run) {
    && event.Block? && after.failed && after.rows == before.rows
    && before.observed <= after.observed <= Step(before, event).observed
  }

  ghost predicate GivenUpAt(start: Run, events: seq<StreamEvent>, i: nat, after: Run)
    requires i < |events|
  {
    GivenUp(Steps(start, events[..i]), events[i], after)
  }

  /** What was observed before an event does not change what it does. */
  lemma StepObserved(before: Run, event: StreamEvent, after: Run)
    requires !before.failed
    ensures var alone, all := before.(observed := []), after.(observed := before.observed + after.observed);
            && (after == Step(alone, event) ==> all == Step(before, event))
            && (GivenUp(alone, event, after) ==> GivenUp(before, event, all))
  {
    var alone := before.(observed := []);
    assert Step(before, event).observed == before.observed + Step(alone, event).observed;
  }

  /** One more event: the run goes on as without a cache, or is over. */
  lemma StepTaken(start: Run, events: seq<StreamEvent>, i: nat, rows: Rows, observed: seq<Option<Entity>>, after: Run,
                  answered: bool)
    requires i < |events| && Steps(start, events[..i]) == Run(rows, ScrubAll(observed), false)
    requires var before := Run(rows, [], false);
             if answered then after == Step(before, events[i]) else GivenUp(before, events[i], after)
    ensures var all := after.(observed := ScrubAll(observed) + after.observed);
            if answered then all == Steps(start, events[..i + 1]) && (all.failed ==> all == Steps(start, events))
            else all.failed && GivenUpAt(start, events, i, all)
  {
    var before := Run(rows, ScrubAll(observed), false);
    StepObserved(before, events[i], after);
    assert events[..i + 1] == events[..i] + [events[i]];
    StepsSnoc(start, events[..i], events[i]);
    if Steps(start, events[..i + 1]).failed { FailedBefore(start, events, i + 1); }
  }

  /** After a block of which this holds, if it does not end the run, the stream is rebuilt: it created data sources,
      whose triggers the old stream does not know, or has to be tried again. */
  ghost predicate Rebuilds(rows: Rows, event: StreamEvent) {
    event.Block? && (OwnEnd(event.mapping, rows, CreatedDataSources) || OwnEnd(event.mapping, rows, PossibleReorg))
  }

  ghost predicate RebuiltBefore(start: Run, events: seq<StreamEvent>, i: nat)
    requires 0 < i <= |events|
  {
    Rebuilds(Steps(start, events[..i - 1]).rows, events[i - 1])
  }

  class IndexingContext {
    const store: Store
    const cacheSize: nat
    const weigh: (EntityKey, Option<Entity>) -> nat
    var entityLfuCache: LfuCache<EntityKey, Option<Entity>>

    /** Every cached entity is what the store holds. */
    ghost predicate Valid()
      reads this, entityLfuCache, store`rows
    {
      entityLfuCache.Valid() && Agrees(entityLfuCache.Contents(), store.rows)
    }

    constructor (store: Store, cacheSize: nat, weigh: (EntityKey, Option<Entity>) -> nat)
      ensures Valid() && fresh(entityLfuCache) && this.store == store
    {
      this.store, this.cacheSize, this.weigh := store, cacheSize, weigh;
      entityLfuCache := new LfuCache(weigh);
    }

    /** Runs triggers against the block's entity cache until they end or the store does not answer. */
    method ProcessTriggers(cache: EntityCache, m: Mapping, from: nat, before: seq<Option<Entity>>)
      returns (ok: bool, ending: Next, steps: nat, observed: seq<Option<Entity>>)
      requires cache.Valid()
      modifies cache`updates, cache.current, cache.store`queries
      ensures cache.Valid() && cache.store.queries >= old(cache.store.queries)
      ensures ok <==> cache.store.Answered(old(cache.store.queries), cache.store.queries)
      ensures var p := Play(old(cache.View()), m, from, ScrubAll(before));
              if ok then p == Played(cache.View(), steps, ScrubAll(observed), ending) else ScrubAll(observed) <= p.seen
    {
      steps, observed := from, before;
      ghost var p := Play(cache.View(), m, from, ScrubAll(before));
      while steps < m.limit
        invariant cache.Valid() && cache.store.queries >= old(cache.store.queries)
        invariant cache.store.Answered(old(cache.store.queries), cache.store.queries)
        invariant p == Play(cache.View(), m, steps, ScrubAll(observed))
      {
        ending := m.next(steps, ScrubAll(observed));
        steps := steps + 1;
        match ending {
          case Call(StoreGet(key)) =>
            var entity := cache.Get(key);
            if entity.Err? { return false, Failed, steps, observed; }
            ScrubOneMore(observed, entity.value);
            observed := observed + [entity.value];
          case Call(StoreSet(key, data)) =>
            var r := cache.Set(key, data);
            if r.Err? { return false, Failed, steps, observed; }
          case Call(StoreRemove(key)) => cache.Remove(key);
          case _ => return true, ending, steps, observed;
        }
      }
      ok, ending := true, Failed;
    }

    method EvictFrom(cache: LfuCache<EntityKey, Option<Entity>>, ghost rows: Rows)
      requires cache.Valid() && Agrees(cache.Contents(), rows)
      modifies cache
      ensures cache.Valid() && Agrees(cache.Contents(), rows) && cache.totalWeight <= cacheSize
      ensures cache.staleCounter ==
              if old(cache.totalWeight) <= cacheSize then old(cache.staleCounter)
              else if old(cache.staleCounter) == 99 then 0 else old(cache.staleCounter) + 1
    {
      ghost var contents := cache.Contents();
      var _, _ := cache.EvictWithPeriod(cacheSize, 100);
      assert forall k :: k in cache.Contents() ==> cache.Contents()[k] == contents[k];
    }

    /** `process_block`: the result says whether the stream must be rebuilt, or that the run is over. */
    method ProcessBlock(m: Mapping, fate: Fate)
      returns (needsRestart: Result<bool, CancelableError>, committed: bool, observed: seq<Option<Entity>>)
      requires Valid()
      modifies this`entityLfuCache, entityLfuCache, store
      ensures store.queries >= old(store.queries)
      ensures Ends(store.Answered(old(store.queries), store.queries), PlayBlock(old(store.rows), m, fate),
                   old(store.rows), store.rows, needsRestart, committed, ScrubAll(observed))
      ensures needsRestart.Ok? ==> Valid()
      ensures committed ==> needsRestart == Ok(OwnEnd(m, old(store.rows), CreatedDataSources))
      ensures needsRestart.Ok? ==> (committed <==> !OwnEnd(m, old(store.rows), PossibleReorg))
      ensures needsRestart.Ok? && !committed ==> needsRestart.value
      ensures committed ==> entityLfuCache.totalWeight <= cacheSize
      ensures fresh(entityLfuCache) || entityLfuCache == old(entityLfuCache)
    {
      RestartMeaning(store.rows, m, fate);
      // Take the cache, leaving an empty placeholder.
      var taken := entityLfuCache;
      entityLfuCache := new LfuCache(weigh);
      var cache := new EntityCache.WithCurrent(store, taken);
      var ok, ending, steps;
      ghost var rows := store.rows;
      assert ScrubAll([]) == [];
      ok, ending, steps, observed := ProcessTriggers(cache, m, 0, []);
      if !ok || ending.Failed? { return Err(Error), false, observed; }
      if ending.PossibleReorg? { return Ok(true), false, observed; }
      ghost var first := Played(cache.View(), steps, ScrubAll(observed), ending);
      needsRestart, committed, observed := FinishBlock(cache, taken, m, fate, first, ending, steps, observed);
    }

    /** `process_block` from the end of the block's own triggers. */
    method FinishBlock(cache: EntityCache, taken: LfuCache<EntityKey, Option<Entity>>, m: Mapping, fate: Fate,
                       ghost p: Played, first: Next, from: nat, before: seq<Option<Entity>>)
      returns (needsRestart: Result<bool, CancelableError>, committed: bool, observed: seq<Option<Entity>>)
      requires cache.Valid() && cache.store == store && cache.current == taken && taken != entityLfuCache
      requires entityLfuCache.queue == map[] && p == Played(cache.View(), from, ScrubAll(before), first)
      requires from <= m.limit && !first.Call? && !first.Failed? && !first.PossibleReorg?
      modifies this`entityLfuCache, taken, store, cache`updates
      ensures store.queries >= old(store.queries)
      ensures Ends(store.Answered(old(store.queries), store.queries), PlayOn(p, m, fate), old(store.rows), store.rows,
                   needsRestart, committed, ScrubAll(observed))
      ensures needsRestart.Ok? ==> Valid()
      ensures committed ==> entityLfuCache.totalWeight <= cacheSize
      ensures entityLfuCache == old(entityLfuCache) || entityLfuCache == taken
    {
      var ok, ending, steps;
      ok, ending, steps, observed := ProcessCreated(cache, m, p, first, from, before);
      if !ok || ending.Failed? { return Err(Error), false, observed; }
      if fate.Canceled? { return Err(Cancel), false, observed; }
      ok, ending, steps, observed := ProcessTriggers(cache, m, steps, observed);
      if !ok || ending.Failed? { return Err(Error), false, observed; }
      committed := CommitBlock(cache, taken, fate);
      needsRestart := if committed then Ok(first.CreatedDataSources?) else Err(Error);
    }

    /** Runs the triggers of created data sources, until none are created or one fails. */
    method ProcessCreated(cache: EntityCache, m: Mapping, ghost p: Played, first: Next, from: nat,
                          before: seq<Option<Entity>>)
      returns (ok: bool, ending: Next, steps: nat, observed: seq<Option<Entity>>)
      requires cache.Valid() && p == Played(cache.View(), from, ScrubAll(before), first)
      requires from <= m.limit && !first.Call? && !first.Failed? && !first.PossibleReorg?
      modifies cache`updates, cache.current, cache.store`queries
      ensures cache.Valid() && cache.store.queries >= old(cache.store.queries)
      ensures ok <==> cache.store.Answered(old(cache.store.queries), cache.store.queries)
      ensures var q := PlayCreated(m, p);
              if ok then q == Played(cache.View(), steps, ScrubAll(observed), ending) else ScrubAll(observed) <= q.seen
    {
      ok, ending, steps, observed := true, first, from, before;
      while ok && ending.CreatedDataSources?
        invariant cache.Valid() && cache.store.queries >= old(cache.store.queries)
        invariant ok <==> cache.store.Answered(old(cache.store.queries), cache.store.queries)
        invariant steps <= m.limit && !ending.Call? && !ending.Failed? && !ending.PossibleReorg?
        invariant ok ==> PlayCreated(m, p) == PlayCreated(m, Played(cache.View(), steps, ScrubAll(observed), ending))
        decreases m.limit - steps
      {
        ok, ending, steps, observed := ProcessTriggers(cache, m, steps, observed);
        if !ok { return; }
        if ending.PossibleReorg? || ending.Failed? { return true, Failed, steps, observed; }
      }
    }

    /** The rest of it: the modifications are made, the cache is evicted and put back, the store written. */
    method CommitBlock(cache: EntityCache, taken: LfuCache<EntityKey, Option<Entity>>, fate: Fate) returns (ok: bool)
      requires cache.Valid() && cache.store == store && cache.current == taken && taken != entityLfuCache
      requires entityLfuCache.queue == map[]
      modifies this`entityLfuCache, taken, store
      ensures store.queries >= old(store.queries)
      ensures ok <==> store.Answered(old(store.queries), store.queries) && !fate.WriteFailed?
      ensures store.rows == if ok then old(cache.View()) else old(store.rows)
      ensures ok ==> Valid() && entityLfuCache.totalWeight <= cacheSize
      ensures entityLfuCache == old(entityLfuCache) || entityLfuCache == taken
    {
      var mods := cache.AsModifications();
      if mods.Err? { return false; }
      EvictFrom(taken, cache.View());
      // The placeholder was not used while the cache was out.
      var empty := entityLfuCache.IsEmpty();
      assert empty;
      entityLfuCache := taken;
      if fate.WriteFailed? { return false; }
      store.TransactBlockOperations(mods.value);
      ok := true;
    }

    /** One round of the loop over the stream's events. */
    method HandleEvent(event: StreamEvent)
      returns (needsRestart: bool, committed: bool, seen: seq<Option<Entity>>, failed: bool)
      requires Valid()
      modifies this`entityLfuCache, entityLfuCache, store
      ensures var before, after := Run(old(store.rows), [], false), Run(store.rows, ScrubAll(seen), failed);
              if store.Answered(old(store.queries), store.queries) then after == Step(before, event)
              else GivenUp(before, event, after)
      ensures if event.Block? then store.queries >= old(store.queries) else store.queries == old(store.queries)
      ensures event.Block? ==>
                (if failed then !committed else committed == !OwnEnd(event.mapping, old(store.rows), PossibleReorg)) &&
                store.rows == if committed then Changed(old(store.rows), event.mapping) else old(store.rows)
      ensures !failed ==> Valid() && needsRestart == Rebuilds(old(store.rows), event)
      ensures committed ==> entityLfuCache.totalWeight <= cacheSize
      ensures fresh(entityLfuCache) || entityLfuCache == old(entityLfuCache)
    {
      needsRestart, committed, seen, failed := false, false, [], false;
      match event {
        case StreamError =>
        case Revert(rows) =>
          store.rows := rows;
          entityLfuCache := new LfuCache(weigh);
        case Block(m, fate) =>
          var result;
          result, committed, seen := ProcessBlock(m, fate);
          match result {
            case Ok(restart) => needsRestart := restart;
            case Err(_) => failed := true;
          }
      }
    }

    /** `run_subgraph`: the outer loop rebuilds the block stream, the inner one consumes it. With its cache it does to
        the store, and shows to the mappings, what `Steps` does without one, until the store fails to answer. */
    method RunSubgraph(events: seq<StreamEvent>)
      returns (observed: seq<Option<Entity>>, failed: bool, streams: seq<nat>, ghost last: nat)
      requires Valid()
      modifies this`entityLfuCache, entityLfuCache, store
      ensures var start, end := Run(old(store.rows), [], false), Run(store.rows, ScrubAll(observed), failed);
              if store.Answered(old(store.queries), store.queries) then end == Steps(start, events)
              else last < |events| && GivenUpAt(start, events, last, end)
      ensures !failed ==> Valid()
      // `streams` are the numbers of the events before which a stream was built.
      ensures last <= |events| && (!failed ==> last == |events|)
      ensures forall i :: i in streams ==> i <= last
      ensures events != [] ==> 0 in streams
      ensures forall i :: 0 < i <= last && i < |events| ==>
                (i in streams <==> RebuiltBefore(Run(old(store.rows), [], false), events, i))
    {
      observed, failed, streams, last := [], false, [], |events|;
      ghost var start := Run(store.rows, [], false);
      var i := 0;
      while i < |events|
        invariant i <= |events| && Valid()
        invariant store.queries >= old(store.queries) && store.Answered(old(store.queries), store.queries)
        invariant fresh(entityLfuCache) || entityLfuCache == old(entityLfuCache)
        invariant Run(store.rows, ScrubAll(observed), false) == Steps(start, events[..i])
        invariant BuiltUpTo(start, events, streams, i)
        invariant 0 < i < |events| ==> RebuiltBefore(start, events, i)
        decreases |events| - i
      {
        streams := streams + [i];
        ghost var first := i;
        i, observed, failed := ConsumeStream(events, start, i, observed);
        BuiltLonger(start, events, streams, first, i);
        if failed { return observed, true, streams, i; }
      }
      assert events[..|events|] == events;
    }

    /** The inner loop: from event `first` on, up to one after which the stream has to be rebuilt, or one that is
        over. */
    method ConsumeStream(events: seq<StreamEvent>, ghost start: Run, first: nat, before: seq<Option<Entity>>)
      returns (i: nat, observed: seq<Option<Entity>>, failed: bool)
      requires Valid() && first < |events|
      requires Run(store.rows, ScrubAll(before), false) == Steps(start, events[..first])
      modifies this`entityLfuCache, entityLfuCache, store
      ensures first <= i <= |events| && (failed ==> i < |events|) && (!failed ==> Valid() && first < i)
      ensures fresh(entityLfuCache) || entityLfuCache == old(entityLfuCache)
      ensures var end := Run(store.rows, ScrubAll(observed), failed);
              if !store.Answered(old(store.queries), store.queries) then failed && GivenUpAt(start, events, i, end)
              else if failed then end == Steps(start, events)
              else end == Steps(start, events[..i]) && (i < |events| ==> RebuiltBefore(start, events, i))
      ensures store.queries >= old(store.queries)
      ensures NoneRebuilt(start, events, first, i) && (failed && first < i ==> !RebuiltBefore(start, events, i))
    {
      i, observed, failed := first, before, false;
      var needsRestart := false;
      while i < |events| && !needsRestart
        invariant first <= i <= |events| && Valid() && (needsRestart ==> first < i)
        invariant store.queries >= old(store.queries) && store.Answered(old(store.queries), store.queries)
        invariant fresh(entityLfuCache) || entityLfuCache == old(entityLfuCache)
        invariant Run(store.rows, ScrubAll(observed), false) == Steps(start, events[..i])
        invariant NoneRebuilt(start, events, first, i)
        invariant first < i ==> (needsRestart <==> RebuiltBefore(start, events, i))
        decreases |events| - i
      {
        needsRestart, observed, failed := Consume(events, start, i, observed);
        if failed { return; }
        i := i + 1;
      }
    }

    method Consume(events: seq<StreamEvent>, ghost start: Run, i: nat, before: seq<Option<Entity>>)
      returns (needsRestart: bool, observed: seq<Option<Entity>>, failed: bool)
      requires Valid() && i < |events| && Run(store.rows, ScrubAll(before), false) == Steps(start, events[..i])
      modifies this`entityLfuCache, entityLfuCache, store
      ensures !failed ==> Valid()
      ensures fresh(entityLfuCache) || entityLfuCache == old(entityLfuCache)
      ensures var end := Run(store.rows, ScrubAll(observed), failed);
              if !store.Answered(old(store.queries), store.queries) then failed && GivenUpAt(start, events, i, end)
              else if failed then end == Steps(start, events)
              else end == Steps(start, events[..i + 1]) && (needsRestart <==> RebuiltBefore(start, events, i + 1))
      ensures store.queries >= old(store.queries)
    {
      ghost var rows := store.rows;
      var restart, _, seen, over := HandleEvent(events[i]);
      StepTaken(start, events, i, rows, before, Run(store.rows, ScrubAll(seen), over),
                store.Answered(old(store.queries), store.queries));
      ScrubAllConcat(before, seen);
      needsRestart, observed, failed := restart, before + seen, over;
    }
  }

  ghost predicate NoneRebuilt(start: Run, events: seq<StreamEvent>, first: nat, i: nat)
    requires first <= i <= |events|
  {
    forall j :: first < j < i ==> !RebuiltBefore(start, events, j)
  }

  lemma BuiltLonger(start: Run, events: seq<StreamEvent>, streams: seq<nat>, first: nat, i: nat)
    requires first <= i <= |events| && streams != [] && BuiltUpTo(start, events, streams[..|streams| - 1], first)
    requires streams[|streams| - 1] == first && (0 < first ==> RebuiltBefore(start, events, first))
    requires NoneRebuilt(start, events, first, i)
    ensures BuiltUpTo(start, events, streams, i) && 0 in streams
    ensures 0 < first ==> first in streams
    ensures first < i ==> i !in streams
  {
    var before := streams[..|streams| - 1];
    assert streams == before + [first];
    forall j | 0 < j < i
      ensures j in streams <==> RebuiltBefore(start, events, j)
    {
      assert j in streams <==> j in before || j == first;
    }
  }

  /** Of the events before number `i`, a stream was built before the first and before those that follow a rebuild. */
  ghost predicate BuiltUpTo(start: Run, events: seq<StreamEvent>, streams: seq<nat>, i: nat)
    requires i <= |events|
  {
    && (forall j :: j in streams ==> j <= i) && (0 < i ==> 0 in streams)
    && forall j :: 0 < j < i ==> (j in streams <==> RebuiltBefore(start, events, j))
  }

  /** How processing a block ends: as without a cache, or with nothing written if the store did not answer. */
  ghost predicate Ends(answered: bool, played: (seq<Option<Entity>>, BlockEnd), rows: Rows, rows': Rows,
                       needsRestart: Result<bool, CancelableError>, committed: bool, seen: seq<Option<Entity>>) {
    var (all, end) := played;
    if !answered then seen <= all && !committed && rows' == rows && needsRestart == Err(Error)
    else
      && seen == all && committed == end.Committed? && rows' == (if committed then end.rows else rows)
      && match end
         case Committed(_, restart) => needsRestart == Ok(restart)
         case Retried => needsRestart == Ok(true)
         case Over(error) => needsRestart == Err(error)
  }
}
