/** Many queries at once through the caches (packages/graph-node/graphql/src/execution/execution.rs and cache.rs). A
    step is what one caller does between two points at which another may go on: under one lock, or up to an `await`. */
module QueryExecutions {
  import opened Common
  import opened LfuCaches
  import opened QueryBlockCaches

  const BlockNumberMax: nat := 0x7FFF_FFFF

  datatype Request = Request(cacheable: bool, network: Option<string>, block: Option<BlockPtr>, query: nat) {
    /** None if the query bypasses the caches. */
    function Key(): Option<QueryHash> {
      if cacheable && block.Some? && network.Some? && block.value.number != BlockNumberMax
      then Some(QueryHash(query, block.value)) else None
    }
  }

  datatype CacheStatus = Hit | Shared | Insert | Miss

  /** An execution in flight: the source's shared future. */
  datatype Flight = Flight(key: QueryHash, result: Option<QueryResult>)

  /** Where a caller is in `execute_root_selection_set` and `cached_query`. */
  datatype Stage =
    | Asking
    | AskingOld(key: QueryHash)
    | Missed(key: QueryHash)
    | Owner(key: QueryHash, flight: nat)
    | Waiting(key: QueryHash, flight: nat)
    | Executing
    | Storing(key: QueryHash, value: QueryResult)
    | StoringOld(key: QueryHash, value: QueryResult)
    | Done(result: QueryResult, status: CacheStatus)

  datatype Caller = Caller(request: Request, stage: Stage)

  datatype CallerId = CallerId(n: nat)

  /** A result the uncached execution could have given: the answer, or an error. */
  ghost predicate Right(answer: QueryHash -> nat, key: QueryHash, r: QueryResult) {
    r.Errors? || r == Data(answer(key))
  }

  ghost predicate InFlight(flights: seq<Flight>, key: QueryHash, f: nat) {
    f < |flights| && flights[f].key == key
  }

  ghost predicate CallerOk(answer: QueryHash -> nat, flights: seq<Flight>, herd: map<QueryHash, nat>,
                           owners: map<QueryHash, CallerId>, c: CallerId, caller: Caller)
  {
    var key := caller.request.Key();
    match caller.stage
    case Asking => true
    case AskingOld(k) => key == Some(k)
    case Missed(k) => key == Some(k)
    case Owner(k, f) =>
      key == Some(k) && InFlight(flights, k, f) && k in herd && herd[k] == f && k in owners && owners[k] == c
    case Waiting(k, f) => key == Some(k) && InFlight(flights, k, f)
    case Executing => key == None
    case Storing(k, v) => key == Some(k) && v == Data(answer(k))
    case StoringOld(k, v) => key == Some(k) && v == Data(answer(k))
    case Done(r, status) =>
      && (key.Some? ==> Right(answer, key.value, r))
      && (status == Hit || status == Insert ==> key.Some? && r.Data?)
      && (status == Shared ==> key.Some?)
      && (status == Miss && key.Some? ==> r.Errors?)
  }

  /** The owner of a herd entry is a caller that is executing its flight. */
  ghost predicate Owned(herd: map<QueryHash, nat>, owners: map<QueryHash, CallerId>, callers: map<CallerId, Caller>,
                        k: QueryHash)
    requires k in herd
  {
    k in owners && owners[k] in callers && callers[owners[k]].stage == Owner(k, herd[k])
  }

  ghost predicate Coherent(answer: QueryHash -> nat, flights: seq<Flight>, herd: map<QueryHash, nat>,
                           owners: map<QueryHash, CallerId>, callers: map<CallerId, Caller>)
  {
    && (forall f :: 0 <= f < |flights| && flights[f].result.Some? ==>
       Right(answer, flights[f].key, flights[f].result.value))
    && (forall c :: c in callers ==> CallerOk(answer, flights, herd, owners, c, callers[c]))
    && (forall k :: k in herd ==> Owned(herd, owners, callers, k))
  }

  /** A query is in the herd cache exactly while a caller owns its execution, and no two callers ever own the same. */
  lemma {:induction false} HerdMeaning(answer: QueryHash -> nat, flights: seq<Flight>, herd: map<QueryHash, nat>,
                                       owners: map<QueryHash, CallerId>, callers: map<CallerId, Caller>)
    requires Coherent(answer, flights, herd, owners, callers)
    ensures forall k, f :: (k in herd && herd[k] == f) <==> exists c :: c in callers && callers[c].stage == Owner(k, f)
    ensures forall c, d, k, f, g ::
              c in callers && d in callers && callers[c].stage == Owner(k, f) && callers[d].stage == Owner(k, g) ==>
                c == d
  {
    forall k, f
      ensures (k in herd && herd[k] == f) <==> exists c :: c in callers && callers[c].stage == Owner(k, f)
    {
      if k in herd && herd[k] == f { assert Owned(herd, owners, callers, k); }
    }
  }

  /** What is left to do before a caller has its result. */
  function Rank(flights: seq<Flight>, stage: Stage): nat {
    match stage
    case Asking => 7
    case AskingOld(_) => 6
    case Missed(_) => 5
    case Owner(_, f) => if f < |flights| && flights[f].result.Some? then 3 else 4
    case Waiting(_, f) => if f < |flights| && flights[f].result.Some? then 3 else 4
    case Storing(_, _) => 2
    case StoringOld(_, _) => 1
    case Executing => 1
    case Done(_, _) => 0
  }

  /** A step of `c` brings it nearer to its result, and takes no other caller further from its own. */
  ghost predicate Advanced(flights: seq<Flight>, callers: map<CallerId, Caller>,
                           flights': seq<Flight>, callers': map<CallerId, Caller>, c: CallerId)
  {
    && c in callers && callers'.Keys == callers.Keys
    && (forall d :: d in callers ==> callers'[d].request == callers[d].request)
    && Rank(flights', callers'[c].stage) < Rank(flights, callers[c].stage)
    && (forall d :: d in callers ==> Rank(flights', callers'[d].stage) <= Rank(flights, callers[d].stage))
  }

  lemma OneAdvanced(flights: seq<Flight>, callers: map<CallerId, Caller>,
                    flights': seq<Flight>, callers': map<CallerId, Caller>, c: CallerId)
    requires c in callers && c in callers' && callers' == callers[c := Caller(callers[c].request, callers'[c].stage)]
    requires Rank(flights', callers'[c].stage) < Rank(flights, callers[c].stage)
    requires flights <= flights'
    requires flights == flights' ||
             forall d :: d in callers && (callers[d].stage.Owner? || callers[d].stage.Waiting?) ==>
               callers[d].stage.flight < |flights|
    ensures Advanced(flights, callers, flights', callers', c)
  {}

  ghost predicate RingsOk(l: Limits, answer: QueryHash -> nat, weigh: QueryResult -> nat, networks: seq<Network>) {
    forall n :: Ring(l, answer, weigh, RingOf(networks, n))
  }

  /** All entries, or all but one, are within the limit. */
  ghost predicate WithinButOne<V(!new)>(queue: map<QueryHash, Entry<V>>, total: nat, limit: nat) {
    total <= limit || exists k :: k in queue && total - queue[k].weight <= limit
  }

  ghost predicate OldRight(answer: QueryHash -> nat, queue: map<QueryHash, Entry<QueryResult>>) {
    forall k :: k in queue ==> queue[k].value == Data(answer(k))
  }

  lemma OldTouched(answer: QueryHash -> nat, queue: map<QueryHash, Entry<QueryResult>>, total: nat, limit: nat,
                   k: QueryHash)
    requires k in queue && OldRight(answer, queue) && WithinButOne(queue, total, limit)
    ensures OldRight(answer, queue[k := Touched(queue[k])]) && WithinButOne(queue[k := Touched(queue[k])], total, limit)
  {
    var queue' := queue[k := Touched(queue[k])];
    if j :| j in queue && total - queue[j].weight <= limit {
      assert j in queue' && queue'[j].weight == queue[j].weight;
    }
  }

  /** An entry put into a cache within its limit is the only one that can bring it above. */
  lemma OldStored(queue: map<QueryHash, Entry<QueryResult>>, limit: nat, k: QueryHash, e: Entry<QueryResult>)
    requires Weight(queue) <= limit
    ensures WithinButOne(queue[k := e], Weight(queue[k := e]), limit)
  {
    WeightWith(queue, k, e);
    if k in queue { WeightWithout(queue, k); } else { assert queue - {k} == queue; }
    assert k in queue[k := e] && queue[k := e][k] == e;
  }

  ghost predicate StoredStep(l: Limits, weigh: QueryResult -> nat, networks: seq<Network>, networks': seq<Network>,
                             network: string, key: QueryHash, value: QueryResult, stage: Stage)
    requires value.Data?
  {
    var (ring, inserted) := Stored(l, RingOf(networks, network), key.block, key, value, weigh(value));
    && RingOf(networks', network) == ring
    && (forall n :: n != network ==> RingOf(networks', n) == RingOf(networks, n))
    && stage == (if inserted then Done(value, Insert) else StoringOld(key, value))
    && (inserted ==> Cached(RingOf(networks', network), key.block, key) == Some(value))
  }

  lemma StoredKeeps(l: Limits, answer: QueryHash -> nat, weigh: QueryResult -> nat, networks: seq<Network>,
                    networks': seq<Network>, network: string, key: QueryHash)
    requires RingsOk(l, answer, weigh, networks)
    requires forall n :: RingOf(networks', n) ==
               if n == network then Stored(l, RingOf(networks, network), key.block, key, Data(answer(key)),
                                           weigh(Data(answer(key)))).0
               else RingOf(networks, n)
    ensures RingsOk(l, answer, weigh, networks')
    ensures var (ring, inserted) := Stored(l, RingOf(networks, network), key.block, key, Data(answer(key)),
                                           weigh(Data(answer(key))));
            inserted ==> Cached(RingOf(networks', network), key.block, key) == Some(Data(answer(key)))
  {
    assert Ring(l, answer, weigh, RingOf(networks, network));
    RingKept(l, answer, weigh, RingOf(networks, network), key);
    StoredIsCached(l, RingOf(networks, network), key, Data(answer(key)), weigh(Data(answer(key))));
    forall n
      ensures Ring(l, answer, weigh, RingOf(networks', n))
    {
      assert Ring(l, answer, weigh, RingOf(networks, n));
    }
  }

  class Executions {
    const limits: Limits
    const stalePeriod: nat
    const answer: QueryHash -> nat
    const weigh: QueryResult -> nat
    const blockCache: QueryBlockCache
    const lfuCache: LfuCache<QueryHash, QueryResult>
    var flights: seq<Flight>
    var herd: map<QueryHash, nat>
    ghost var owners: map<QueryHash, CallerId>
    var callers: map<CallerId, Caller>

    /** Nothing but right answers in the caches, which keep to their sizes, and all callers where they should be. */
    ghost predicate Valid()
      reads this, blockCache, lfuCache
    {
      && blockCache.limits == limits && RingsOk(limits, answer, weigh, blockCache.networks)
      && lfuCache.Valid()
      && OldRight(answer, lfuCache.queue)
      && WithinButOne(lfuCache.queue, lfuCache.totalWeight, limits.maxMem)
      && Coherent(answer, flights, herd, owners, callers)
    }

    constructor (limits: Limits, stalePeriod: nat, answer: QueryHash -> nat, weigh: QueryResult -> nat,
                 lfuWeigh: (QueryHash, QueryResult) -> nat)
      ensures Valid() && callers == map[] && fresh(blockCache) && fresh(lfuCache)
    {
      this.limits, this.stalePeriod, this.answer, this.weigh := limits, stalePeriod, answer, weigh;
      blockCache := new QueryBlockCache(limits);
      lfuCache := new LfuCache(lfuWeigh);
      flights, herd, owners, callers := [], map[], map[], map[];
    }

    method Arrive(c: CallerId, request: Request)
      requires Valid() && c !in callers
      modifies this`callers
      ensures Valid() && callers == old(callers)[c := Caller(request, Asking)]
    {
      callers := callers[c := Caller(request, Asking)];
    }

    method LookUp(c: CallerId)
      requires Valid() && c in callers && callers[c].stage.Asking?
      modifies this`callers
      ensures Valid()
      ensures var req := old(callers)[c].request;
              callers == old(callers)[c := Caller(req,
                match req.Key()
                case None => Executing
                case Some(key) =>
                  match Cached(RingOf(blockCache.networks, req.network.value), key.block, key)
                  case Some(r) => Done(r, Hit)
                  case None => AskingOld(key))]
      ensures Advanced(flights, old(callers), flights, callers, c)
    {
      ghost var was := callers;
      var req := callers[c].request;
      var stage;
      match req.Key() {
        case None => stage := Executing;
        case Some(key) =>
          var r := blockCache.Get(req.network.value, key.block, key);
          assert Ring(limits, answer, weigh, RingOf(blockCache.networks, req.network.value));
          stage := match r case Some(v) => Done(v, Hit) case None => AskingOld(key);
      }
      StageKeeps(answer, flights, herd, owners, callers, c, stage);
      callers := callers[c := Caller(req, stage)];
      OneAdvanced(flights, was, flights, callers, c);
    }

    method LookUpOld(c: CallerId)
      requires Valid() && c in callers && callers[c].stage.AskingOld?
      modifies this`callers, lfuCache
      ensures Valid()
      ensures var Caller(req, stage) := old(callers)[c];
              callers == old(callers)[c := Caller(req,
                match Lookup(old(lfuCache.Contents()), stage.key)
                case Some(r) => Done(r, Hit)
                case None => Missed(stage.key))]
      ensures Advanced(flights, old(callers), flights, callers, c)
    {
      ghost var was := callers;
      var Caller(req, stage) := callers[c];
      var r := GetOld(stage.key);
      var next := match r case Some(v) => Done(v, Hit) case None => Missed(stage.key);
      assert CallerOk(answer, flights, herd, owners, c, callers[c]);
      StageKeeps(answer, flights, herd, owners, callers, c, next);
      callers := callers[c := Caller(req, next)];
      OneAdvanced(flights, was, flights, callers, c);
    }

    method GetOld(key: QueryHash) returns (r: Option<QueryResult>)
      requires lfuCache.Valid() && OldRight(answer, lfuCache.queue)
      requires WithinButOne(lfuCache.queue, lfuCache.totalWeight, limits.maxMem)
      modifies lfuCache
      ensures lfuCache.Valid() && OldRight(answer, lfuCache.queue)
      ensures WithinButOne(lfuCache.queue, lfuCache.totalWeight, limits.maxMem)
      ensures r == Lookup(old(lfuCache.Contents()), key) && (r.Some? ==> r.value == Data(answer(key)))
    {
      if key in lfuCache.queue {
        OldTouched(answer, lfuCache.queue, lfuCache.totalWeight, limits.maxMem, key);
      }
      r := lfuCache.Get(key);
    }

    /** `cached_query` up to the `await`: shares what is in flight, or puts it there. */
    method Join(c: CallerId)
      requires Valid() && c in callers && callers[c].stage.Missed?
      modifies this`callers, this`herd, this`owners, this`flights
      ensures Valid()
      ensures var Caller(req, stage) := old(callers)[c]; var key := stage.key;
              if key in old(herd) then
                flights == old(flights) && herd == old(herd)
                && callers == old(callers)[c := Caller(req, Waiting(key, herd[key]))]
              else
                flights == old(flights) + [Flight(key, None)] && herd == old(herd)[key := |old(flights)|]
                && callers == old(callers)[c := Caller(req, Owner(key, |old(flights)|))]
    {
      var Caller(req, stage) := callers[c];
      var key := stage.key;
      if key in herd {
        assert Owned(herd, owners, callers, key);
        assert CallerOk(answer, flights, herd, owners, owners[key], callers[owners[key]]);
        callers := callers[c := Caller(req, Waiting(key, herd[key]))];
      } else {
        var f := |flights|;
        JoinKeeps(answer, flights, herd, owners, callers, c, key);
        flights := flights + [Flight(key, None)];
        herd := herd[key := f];
        owners := owners[key := c];
        callers := callers[c := Caller(req, Owner(key, f))];
      }
    }

    /** Whoever awaits an execution may be the one to bring it to its end. */
    method Poll(f: nat, errors: Option<seq<nat>>)
      requires Valid() && f < |flights| && flights[f].result.None?
      modifies this`flights
      ensures Valid()
      ensures var key := old(flights)[f].key;
              flights == old(flights)[f := Flight(key, Some(match errors case Some(e) => Errors(e)
                                                                         case None => Data(answer(key))))]
    {
      var key := flights[f].key;
      flights := flights[f := Flight(key, Some(match errors case Some(e) => Errors(e) case None => Data(answer(key))))];
    }

    /** After the `await`; an owner's guard takes its entry out of the herd cache. */
    method Finish(c: CallerId)
      requires Valid() && c in callers && (callers[c].stage.Owner? || callers[c].stage.Waiting?)
      requires flights[callers[c].stage.flight].result.Some?
      modifies this`callers, this`herd, this`owners
      ensures Valid()
      ensures var Caller(req, stage) := old(callers)[c]; var r := flights[stage.flight].result.value;
              && callers == old(callers)[c := Caller(req, if stage.Waiting? then Done(r, Shared)
                                                          else if r.Errors? then Done(r, Miss)
                                                          else Storing(stage.key, r))]
              && herd == if stage.Owner? then old(herd) - {stage.key} else old(herd)
    {
      var Caller(req, stage) := callers[c];
      var r := flights[stage.flight].result.value;
      assert CallerOk(answer, flights, herd, owners, c, callers[c]);
      if stage.Waiting? {
        callers := callers[c := Caller(req, Done(r, Shared))];
      } else {
        OwnerLeaves(answer, flights, herd, owners, callers, c,
                    callers[c := Caller(req, if r.Errors? then Done(r, Miss) else Storing(stage.key, r))]);
        callers := callers[c := Caller(req, if r.Errors? then Done(r, Miss) else Storing(stage.key, r))];
        herd := herd - {stage.key};
        owners := owners - {stage.key};
      }
    }

    /** A query that bypasses the caches ends with whatever its execution gives. */
    method Return(c: CallerId, r: QueryResult)
      requires Valid() && c in callers && callers[c].stage.Executing?
      modifies this`callers
      ensures Valid() && callers == old(callers)[c := Caller(old(callers)[c].request, Done(r, Miss))]
      ensures Advanced(flights, old(callers), flights, callers, c)
    {
      ghost var was := callers;
      callers := callers[c := Caller(callers[c].request, Done(r, Miss))];
      OneAdvanced(flights, was, flights, callers, c);
    }

    method Store(c: CallerId)
      requires Valid() && c in callers && callers[c].stage.Storing?
      modifies this`callers, blockCache
      ensures Valid()
      ensures c in callers && callers == old(callers)[c := Caller(old(callers)[c].request, callers[c].stage)]
      ensures var Caller(req, stage) := old(callers)[c];
              StoredStep(limits, weigh, old(blockCache.networks), blockCache.networks, req.network.value, stage.key,
                         stage.value, callers[c].stage)
      ensures Advanced(flights, old(callers), flights, callers, c)
    {
      ghost var was := callers;
      var Caller(req, stage) := callers[c];
      var key, value, network := stage.key, stage.value, req.network.value;
      assert CallerOk(answer, flights, herd, owners, c, callers[c]);
      ghost var networks := blockCache.networks;
      var inserted := blockCache.Insert(network, key.block, key, value, weigh(value));
      StoredKeeps(limits, answer, weigh, networks, blockCache.networks, network, key);
      callers := callers[c := Caller(req, if inserted then Done(value, Insert) else StoringOld(key, value))];
      OneAdvanced(flights, was, flights, callers, c);
    }

    method StoreOld(c: CallerId)
      requires Valid() && c in callers && callers[c].stage.StoringOld?
      modifies this`callers, lfuCache
      ensures Valid()
      ensures var Caller(req, stage) := old(callers)[c];
              && callers == old(callers)[c := Caller(req, Done(stage.value, Insert))]
              && Lookup(lfuCache.Contents(), stage.key) == Some(stage.value)
      ensures Advanced(flights, old(callers), flights, callers, c)
    {
      ghost var was := callers;
      var Caller(req, stage) := callers[c];
      assert CallerOk(answer, flights, herd, owners, c, callers[c]);
      PutOld(stage.key, stage.value);
      callers := callers[c := Caller(req, Done(stage.value, Insert))];
      OneAdvanced(flights, was, flights, callers, c);
    }

    method PutOld(key: QueryHash, value: QueryResult)
      requires lfuCache.Valid() && OldRight(answer, lfuCache.queue) && value == Data(answer(key))
      modifies lfuCache
      ensures lfuCache.Valid() && OldRight(answer, lfuCache.queue)
      ensures WithinButOne(lfuCache.queue, lfuCache.totalWeight, limits.maxMem)
      ensures Lookup(lfuCache.Contents(), key) == Some(value)
    {
      ghost var before := lfuCache.queue;
      var _, _ := lfuCache.EvictWithPeriod(limits.maxMem, stalePeriod);
      ghost var kept := lfuCache.queue;
      forall k | k in kept
        ensures kept[k].value == Data(answer(k))
      {
        assert kept[k].value == before[k].value;
      }
      lfuCache.Insert(key, value);
      OldStored(kept, limits.maxMem, key, lfuCache.queue[key]);
    }

    /** The caller goes away, wherever it is; the guard of an owner is dropped with it. */
    method Abandon(c: CallerId)
      requires Valid() && c in callers
      modifies this`callers, this`herd, this`owners
      ensures Valid() && callers == old(callers) - {c}
      ensures var stage := old(callers)[c].stage; herd == if stage.Owner? then old(herd) - {stage.key} else old(herd)
    {
      var stage := callers[c].stage;
      assert CallerOk(answer, flights, herd, owners, c, callers[c]);
      if stage.Owner? { OwnerLeaves(answer, flights, herd, owners, callers, c, callers - {c}); }
      callers := callers - {c};
      if stage.Owner? {
        herd := herd - {stage.key};
        owners := owners - {stage.key};
      }
    }

    /** One step of one caller. `outcome` is what the execution gives when this step is the one to end it. */
    method Turn(c: CallerId, outcome: QueryResult)
      requires Valid() && c in callers && !callers[c].stage.Done?
      modifies this`callers, this`herd, this`owners, this`flights, blockCache, lfuCache
      ensures Valid() && Advanced(old(flights), old(callers), flights, callers, c)
    {
      assert CallerOk(answer, flights, herd, owners, c, callers[c]);
      if callers[c].stage.Owner? || callers[c].stage.Waiting? {
        PollOrFinish(c, callers[c].stage.flight, outcome);
      } else if callers[c].stage.Missed? {
        JoinHerd(c);
      } else {
        match callers[c].stage {
          case Asking => LookUp(c);
          case AskingOld(_) => LookUpOld(c);
          case Executing => Return(c, outcome);
          case Storing(_, _) => Store(c);
          case StoringOld(_, _) => StoreOld(c);
        }
      }
    }

    method JoinHerd(c: CallerId)
      requires Valid() && c in callers && callers[c].stage.Missed?
      modifies this`callers, this`herd, this`owners, this`flights
      ensures Valid() && Advanced(old(flights), old(callers), flights, callers, c)
    {
      ghost var was, flying := callers, flights;
      forall d | d in was
        ensures was[d].stage.Owner? || was[d].stage.Waiting? ==> was[d].stage.flight < |flying|
      {
        assert CallerOk(answer, flights, herd, owners, d, was[d]);
      }
      Join(c);
      OneAdvanced(flying, was, flights, callers, c);
    }

    method PollOrFinish(c: CallerId, f: nat, outcome: QueryResult)
      requires Valid() && c in callers && (callers[c].stage.Owner? || callers[c].stage.Waiting?)
      requires f == callers[c].stage.flight && f < |flights|
      modifies this`callers, this`herd, this`owners, this`flights
      ensures Valid() && Advanced(old(flights), old(callers), flights, callers, c)
    {
      ghost var was := callers;
      if flights[f].result.None? {
        Poll(f, if outcome.Errors? then Some(outcome.errors) else None);
        PollAdvanced(old(flights), flights, callers, c, f);
      } else {
        Finish(c);
        OneAdvanced(flights, was, flights, callers, c);
      }
    }

    /** Whatever has happened so far, a caller that goes on gets to its result, in at most seven steps. */
    method Serve(c: CallerId, outcomes: nat -> QueryResult) returns (r: QueryResult)
      requires Valid() && c in callers
      modifies this`callers, this`herd, this`owners, this`flights, blockCache, lfuCache
      ensures Valid() && c in callers && callers[c].request == old(callers)[c].request
      ensures callers[c].stage.Done? && callers[c].stage.result == r
      ensures var key := callers[c].request.Key(); key.Some? ==> Right(answer, key.value, r)
    {
      var n := 0;
      while !callers[c].stage.Done?
        invariant Valid() && c in callers && callers[c].request == old(callers)[c].request
        invariant n + Rank(flights, callers[c].stage) <= 7
        decreases Rank(flights, callers[c].stage)
      {
        Turn(c, outcomes(n));
        n := n + 1;
      }
      assert CallerOk(answer, flights, herd, owners, c, callers[c]);
      r := callers[c].stage.result;
    }

    /** Any interleaving of any queries: results are what uncached execution could give, hits and stored results are
        answers, and the caches and the herd are as they should be. */
    method EveryRun(schedule: seq<Action>)
      requires Valid()
      modifies this`callers, this`herd, this`owners, this`flights, blockCache, lfuCache
      ensures Valid()
      ensures forall c :: c in callers && callers[c].stage.Done? ==>
              Served(answer, callers[c].request, callers[c].stage)
      ensures forall n :: |RingOf(blockCache.networks, n)| <= limits.blocks
                && TotalLoad(RingOf(blockCache.networks, n), weigh) <= limits.maxMem
      ensures forall k, f ::
                (k in herd && herd[k] == f) <==> exists c :: c in callers && callers[c].stage == Owner(k, f)
    {
      for i := 0 to |schedule|
        invariant Valid()
      {
        match schedule[i] {
          case Comes(c, request) => if c !in callers { Arrive(c, request); }
          case Goes(c) => if c in callers { Abandon(c); }
          case Steps(c, outcome) => if c in callers && !callers[c].stage.Done? { Turn(c, outcome); }
        }
      }
      RunsRight(answer, flights, herd, owners, callers);
      HerdMeaning(answer, flights, herd, owners, callers);
      forall n
        ensures |RingOf(blockCache.networks, n)| <= limits.blocks
        ensures TotalLoad(RingOf(blockCache.networks, n), weigh) <= limits.maxMem
      {
        RingFits(limits, answer, weigh, RingOf(blockCache.networks, n));
      }
    }
  }

  datatype Action = Comes(c: CallerId, request: Request) | Goes(c: CallerId) | Steps(c: CallerId, outcome: QueryResult)

  /** Queries on a network may be cached, unless they are executed at no block, or at the one that stands for none. */
  predicate MayBeCached(request: Request) {
    && request.cacheable && request.network.Some? && request.block.Some?
    && request.block.value.number != 0x7FFF_FFFF
  }

  /** What a query gets: if it may be cached, what executing it at its block gives, or errors; a hit is never an error.
      The caches serve exactly such queries, and all of them that do not end with errors. */
  ghost predicate Served(answer: QueryHash -> nat, request: Request, stage: Stage)
    requires stage.Done?
  {
    if !MayBeCached(request) then stage.status == Miss else
    var key := QueryHash(request.query, request.block.value);
    && (stage.result == Data(answer(key)) || stage.result.Errors?)
    && (stage.status == Hit || stage.status == Insert ==> stage.result.Data?)
    && (stage.status == Miss ==> stage.result.Errors?)
  }

  lemma RunsRight(answer: QueryHash -> nat, flights: seq<Flight>, herd: map<QueryHash, nat>,
                  owners: map<QueryHash, CallerId>, callers: map<CallerId, Caller>)
    requires Coherent(answer, flights, herd, owners, callers)
    ensures forall c :: c in callers && callers[c].stage.Done? ==> Served(answer, callers[c].request, callers[c].stage)
  {
    forall c | c in callers
      ensures CallerOk(answer, flights, herd, owners, c, callers[c])
    {}
  }

  lemma PollAdvanced(flights: seq<Flight>, flights': seq<Flight>, callers: map<CallerId, Caller>, c: CallerId, f: nat)
    requires c in callers && (callers[c].stage.Owner? || callers[c].stage.Waiting?) && callers[c].stage.flight == f
    requires f < |flights| && flights[f].result.None? && f < |flights'| && flights' == flights[f := flights'[f]]
             && flights'[f].result.Some?
    ensures Advanced(flights, callers, flights', callers, c)
  {
    forall d | d in callers
      ensures Rank(flights', callers[d].stage) <= Rank(flights, callers[d].stage)
    {
      match callers[d].stage
      case Owner(_, g) => assert g < |flights| && g != f ==> flights'[g] == flights[g];
      case Waiting(_, g) => assert g < |flights| && g != f ==> flights'[g] == flights[g];
      case _ =>
    }
  }

  /** When an owner is done or goes away, its entry goes with it. */
  lemma OwnerLeaves(answer: QueryHash -> nat, flights: seq<Flight>, herd: map<QueryHash, nat>,
                    owners: map<QueryHash, CallerId>, callers: map<CallerId, Caller>, c: CallerId,
                    callers': map<CallerId, Caller>)
    requires Coherent(answer, flights, herd, owners, callers) && c in callers && callers[c].stage.Owner?
    requires callers' - {c} == callers - {c}
    requires c in callers' ==> !callers'[c].stage.Owner? && CallerOk(answer, flights, herd, owners, c, callers'[c])
    ensures var key := callers[c].stage.key; Coherent(answer, flights, herd - {key}, owners - {key}, callers')
  {
    var key := callers[c].stage.key;
    var herd', owners' := herd - {key}, owners - {key};
    assert CallerOk(answer, flights, herd, owners, c, callers[c]);
    forall d | d in callers'
      ensures CallerOk(answer, flights, herd', owners', d, callers'[d])
    {
      if d != c { assert d in callers' - {c} && callers'[d] == (callers' - {c})[d] == callers[d]; }
      assert CallerOk(answer, flights, herd, owners, d, callers'[d]);
    }
    forall k | k in herd'
      ensures Owned(herd', owners', callers', k)
    {
      assert Owned(herd, owners, callers, k);
      assert owners[k] in callers - {c};
    }
  }

  /** A step of a caller that owns nothing before and after it. */
  lemma StageKeeps(answer: QueryHash -> nat, flights: seq<Flight>, herd: map<QueryHash, nat>,
                   owners: map<QueryHash, CallerId>, callers: map<CallerId, Caller>, c: CallerId, next: Stage)
    requires Coherent(answer, flights, herd, owners, callers) && c in callers && !callers[c].stage.Owner?
             && !next.Owner?
    requires CallerOk(answer, flights, herd, owners, c, Caller(callers[c].request, next))
    ensures Coherent(answer, flights, herd, owners, callers[c := Caller(callers[c].request, next)])
  {
    var callers' := callers[c := Caller(callers[c].request, next)];
    forall k | k in herd
      ensures Owned(herd, owners, callers', k)
    {
      assert Owned(herd, owners, callers, k);
    }
  }

  lemma JoinKeeps(answer: QueryHash -> nat, flights: seq<Flight>, herd: map<QueryHash, nat>,
                  owners: map<QueryHash, CallerId>, callers: map<CallerId, Caller>, c: CallerId, key: QueryHash)
    requires Coherent(answer, flights, herd, owners, callers)
    requires c in callers && callers[c].stage == Missed(key) && key !in herd
    ensures Coherent(answer, flights + [Flight(key, None)], herd[key := |flights|], owners[key := c],
                     callers[c := Caller(callers[c].request, Owner(key, |flights|))])
  {
    var f := |flights|;
    var flights', herd', owners' := flights + [Flight(key, None)], herd[key := f], owners[key := c];
    var callers' := callers[c := Caller(callers[c].request, Owner(key, f))];
    forall d | d in callers'
      ensures CallerOk(answer, flights', herd', owners', d, callers'[d])
    {
      assert d in callers && CallerOk(answer, flights, herd, owners, d, callers[d]);
    }
    forall k | k in herd'
      ensures Owned(herd', owners', callers', k)
    {
      if k != key { assert Owned(herd, owners, callers, k); }
    }
  }
}
