/** The cache of packages/graph-node/graph/src/util/lfu_cache.rs: a priority queue of
    weighted entries that evicts stale entries first and then the least frequently used. */
module LfuCaches {
  import opened Common

  /** The source's `(stale, Reverse(frequency))`. */
  datatype Priority = Priority(stale: bool, frequency: nat)

  /** `p` leaves the queue no later than `q`. */
  predicate Before(p: Priority, q: Priority) {
    (p.stale && !q.stale) || (p.stale == q.stale && p.frequency <= q.frequency)
  }

  datatype Entry<V> = Entry(weight: nat, value: V, willStale: bool, priority: Priority)

  /** What happened to a cache, for stating staleness without the flags that track it. */
  datatype Event<K> = Touch(key: K) | Drop(key: K) | Boundary

  /** `k` has been inserted and not dropped since. */
  ghost predicate Present<K>(log: seq<Event<K>>, k: K) {
    log != [] &&
    var rest := log[..|log| - 1];
    match log[|log| - 1]
    case Boundary => Present(rest, k)
    case Touch(key) => key == k || Present(rest, k)
    case Drop(key) => key != k && Present(rest, k)
  }

  /** `k` was present at the latest boundary, and has been neither accessed nor dropped since. */
  ghost predicate Idle<K>(log: seq<Event<K>>, k: K) {
    log != [] &&
    var rest := log[..|log| - 1];
    match log[|log| - 1]
    case Boundary => Present(rest, k)
    case Touch(key) => key != k && Idle(rest, k)
    case Drop(key) => key != k && Idle(rest, k)
  }

  /** `k` was idle when the latest boundary was reached, and is still in the cache. */
  ghost predicate StaleAt<K>(log: seq<Event<K>>, k: K) {
    log != [] &&
    var rest := log[..|log| - 1];
    match log[|log| - 1]
    case Boundary => Idle(rest, k)
    case Touch(_) => StaleAt(rest, k)
    case Drop(key) => key != k && StaleAt(rest, k)
  }

  /** How often `k` was accessed since it was inserted, which counts as an access. */
  ghost function Accesses<K>(log: seq<Event<K>>, k: K): nat {
    if log == [] then 0 else
    var rest := Accesses(log[..|log| - 1], k);
    match log[|log| - 1]
    case Boundary => rest
    case Touch(key) => if key == k then rest + 1 else rest
    case Drop(key) => if key == k then 0 else rest
  }

  /** Position `i` of `log` is a boundary at which `k` was present, and nothing after it concerns `k`
      or is another boundary. */
  ghost predicate IdleFrom<K>(log: seq<Event<K>>, k: K, i: nat) {
    && i < |log| && log[i].Boundary? && Present(log[..i], k)
    && forall j :: i < j < |log| ==> !log[j].Boundary? && log[j].key != k
  }

  /** `Idle`, which follows the log backwards, says what its comment says. */
  lemma {:induction false} IdleMeaning<K>(log: seq<Event<K>>, k: K)
    ensures Idle(log, k) <==> exists i: nat :: IdleFrom(log, k, i)
  {
    if log != [] {
      var n := |log| - 1;
      var rest := log[..n];
      IdleMeaning(rest, k);
      if Idle(log, k) {
        if log[n].Boundary? {
          assert IdleFrom(log, k, n);
        } else {
          var i: nat :| IdleFrom(rest, k, i);
          assert rest[..i] == log[..i];
          assert IdleFrom(log, k, i);
        }
      }
      if i: nat :| IdleFrom(log, k, i) {
        if i < n {
          assert rest[..i] == log[..i];
          assert !log[n].Boundary? && log[n].key != k;
          assert IdleFrom(rest, k, i);
        }
      }
    }
  }

  /** Position `j` of `log` is the latest boundary, `k` had been idle since boundary `i` when it was reached, and has
      not been dropped since. */
  ghost predicate StaleFrom<K>(log: seq<Event<K>>, k: K, i: nat, j: nat) {
    && j < |log| && log[j].Boundary? && IdleFrom(log[..j], k, i)
    && forall l :: j < l < |log| ==> !log[l].Boundary? && log[l] != Drop(k)
  }

  /** So does `StaleAt`: an entry is stale exactly when it was left alone for the whole period before the latest
      boundary, however often it was accessed before that or since. */
  lemma {:induction false} StaleMeaning<K>(log: seq<Event<K>>, k: K)
    ensures StaleAt(log, k) <==> exists i: nat, j: nat :: StaleFrom(log, k, i, j)
  {
    if log != [] {
      var n := |log| - 1;
      var rest := log[..n];
      StaleMeaning(rest, k);
      IdleMeaning(rest, k);
      if StaleAt(log, k) {
        if log[n].Boundary? {
          var i: nat :| IdleFrom(rest, k, i);
          assert StaleFrom(log, k, i, n);
        } else {
          var i: nat, j: nat :| StaleFrom(rest, k, i, j);
          assert rest[..j] == log[..j];
          assert StaleFrom(log, k, i, j);
        }
      }
      if i: nat, j: nat :| StaleFrom(log, k, i, j) {
        if j < n {
          assert rest[..j] == log[..j];
          assert StaleFrom(rest, k, i, j);
        }
      }
    }
  }

  /** That the entries of `keys` were dropped, in this order. */
  function Drops<K>(keys: seq<K>): seq<Event<K>> {
    seq(|keys|, i requires 0 <= i < |keys| => Drop(keys[i]))
  }

  /** `k` stays present and idle while only other keys are touched or dropped. */
  lemma {:induction false} StillIdle<K>(log: seq<Event<K>>, more: seq<Event<K>>, k: K)
    requires Idle(log, k) && forall i :: 0 <= i < |more| ==> !more[i].Boundary? && more[i].key != k
    ensures Idle(log + more, k)
  {
    if more == [] {
      assert log + more == log;
    } else {
      var n := |more| - 1;
      assert (log + more)[..|log + more| - 1] == log + more[..n];
      StillIdle(log, more[..n], k);
    }
  }

  /** The flags kept in the entries of `queue` tell exactly what `log` says. */
  ghost predicate Tracks<K(!new), V(!new)>(queue: map<K, Entry<V>>, log: seq<Event<K>>) {
    forall k ::
      && (k in queue <==> Present(log, k))
      && ((k in queue && queue[k].willStale) <==> Idle(log, k))
      && ((k in queue && queue[k].priority.stale) <==> StaleAt(log, k))
      && Accesses(log, k) == (if k in queue then queue[k].priority.frequency else 0)
  }

  lemma TracksTouch<K(!new), V(!new)>(queue: map<K, Entry<V>>, log: seq<Event<K>>, k: K, e: Entry<V>)
    requires Tracks(queue, log) && !e.willStale
    requires e.priority.stale == (k in queue && queue[k].priority.stale)
    requires e.priority.frequency == if k in queue then queue[k].priority.frequency + 1 else 1
    ensures Tracks(queue[k := e], log + [Touch(k)])
  {
    var log' := log + [Touch(k)];
    assert log'[..|log|] == log;
    forall j
      ensures Present(log', j) == (j == k || Present(log, j))
      ensures Idle(log', j) == (j != k && Idle(log, j))
      ensures StaleAt(log', j) == StaleAt(log, j)
      ensures Accesses(log', j) == Accesses(log, j) + if j == k then 1 else 0
    {}
  }

  lemma TracksDrop<K(!new), V(!new)>(queue: map<K, Entry<V>>, log: seq<Event<K>>, k: K)
    requires Tracks(queue, log)
    ensures Tracks(queue - {k}, log + [Drop(k)])
  {
    var log' := log + [Drop(k)];
    assert log'[..|log|] == log;
    forall j
      ensures Present(log', j) == (j != k && Present(log, j))
      ensures Idle(log', j) == (j != k && Idle(log, j))
      ensures StaleAt(log', j) == (j != k && StaleAt(log, j))
      ensures Accesses(log', j) == if j == k then 0 else Accesses(log, j)
    {}
  }

  lemma TracksBoundary<K(!new), V(!new)>(queue: map<K, Entry<V>>, log: seq<Event<K>>)
    requires Tracks(queue, log)
    ensures Tracks(Marked(queue), log + [Boundary])
    ensures forall k :: k in queue ==> (Marked(queue)[k].priority.stale <==> Idle(log, k))
  {
    var log' := log + [Boundary];
    assert log'[..|log|] == log;
  }

  /** The sum of the weights of all entries. */
  ghost function Weight<K, V>(queue: map<K, Entry<V>>): nat {
    if queue == map[] then 0 else
    var k :| k in queue;
    queue[k].weight + Weight(queue - {k})
  }

  /** The sum does not depend on the order in which entries are taken. */
  lemma {:induction false} WeightWithout<K, V>(queue: map<K, Entry<V>>, k: K)
    requires k in queue
    ensures Weight(queue) == queue[k].weight + Weight(queue - {k})
    decreases |queue|
  {
    var j :| j in queue && Weight(queue) == queue[j].weight + Weight(queue - {j});
    if j != k {
      WeightWithout(queue - {j}, k);
      WeightWithout(queue - {k}, j);
      assert queue - {j} - {k} == queue - {k} - {j};
    }
  }

  lemma WeightWith<K, V>(queue: map<K, Entry<V>>, k: K, e: Entry<V>)
    ensures Weight(queue[k := e]) == e.weight + Weight(queue - {k})
  {
    WeightWithout(queue[k := e], k);
    assert queue[k := e] - {k} == queue - {k};
  }

  lemma WeightReplaced<K, V>(queue: map<K, Entry<V>>, k: K, e: Entry<V>)
    ensures k in queue ==> queue[k].weight <= Weight(queue)
    ensures Weight(queue[k := e]) == Weight(queue) - (if k in queue then queue[k].weight else 0) + e.weight
  {
    WeightWith(queue, k, e);
    if k in queue { WeightWithout(queue, k); } else { assert queue - {k} == queue; }
  }

  /** `k` is what popping the priority queue may return. */
  predicate IsTop<K, V>(queue: map<K, Entry<V>>, k: K) {
    k in queue && forall j :: j in queue ==> Before(queue[k].priority, queue[j].priority)
  }

  lemma {:induction false} TopExists<K, V>(queue: map<K, Entry<V>>)
    requires queue != map[]
    ensures exists k :: IsTop(queue, k)
    decreases |queue|
  {
    var j :| j in queue;
    var rest := queue - {j};
    if rest == map[] {
      forall i | i in queue
        ensures i == j
      {
        assert i != j ==> i in rest;
      }
      assert IsTop(queue, j);
    } else {
      TopExists(rest);
      var t :| IsTop(rest, t);
      var top := if Before(queue[j].priority, queue[t].priority) then j else t;
      forall i | i in queue
        ensures Before(queue[top].priority, queue[i].priority)
      {
        if i != j { assert i in rest && Before(rest[t].priority, rest[i].priority); }
      }
      assert IsTop(queue, top);
    }
  }

  function Touched<V>(e: Entry<V>): Entry<V> {
    e.(priority := Priority(e.priority.stale, e.priority.frequency + 1), willStale := false)
  }

  /** What a period boundary does to every entry. */
  function Marked<K, V>(queue: map<K, Entry<V>>): map<K, Entry<V>> {
    map k | k in queue :: queue[k].(priority := Priority(queue[k].willStale, queue[k].priority.frequency),
                                    willStale := true)
  }

  lemma {:induction false} MarkedWeight<K, V>(queue: map<K, Entry<V>>)
    ensures Weight(Marked(queue)) == Weight(queue)
    decreases |queue|
  {
    if queue == map[] {
      assert Marked(queue) == map[];
    } else {
      var k :| k in queue;
      WeightWithout(queue, k);
      WeightWithout(Marked(queue), k);
      MarkedWeight(queue - {k});
      assert Marked(queue) - {k} == Marked(queue - {k});
    }
  }

  /** `after` is `before` without some entries, none of which had to stay longer than a kept one. */
  ghost predicate DroppedInOrder<K(!new), V(!new)>(before: map<K, Entry<V>>, after: map<K, Entry<V>>) {
    && (forall k :: k in after ==> k in before && after[k] == before[k])
    && (forall d, k :: d in before && d !in after && k in after ==>
          Before(before[d].priority, before[k].priority))
  }

  /** `last` was the last entry to go, and the weight was still above `maxWeight` with it. */
  ghost predicate LastDropped<K(!new), V(!new)>(before: map<K, Entry<V>>, after: map<K, Entry<V>>, maxWeight: nat,
                                                last: K) {
    && last in before && last !in after && Weight(after) + before[last].weight > maxWeight
    && forall d :: d in before && d !in after ==> Before(before[d].priority, before[last].priority)
  }

  /** Entries were dropped in priority order, down to `maxWeight` and no further. */
  ghost predicate EvictedTo<K(!new), V(!new)>(before: map<K, Entry<V>>, after: map<K, Entry<V>>, maxWeight: nat) {
    && DroppedInOrder(before, after)
    && Weight(after) <= maxWeight
    && (before == after || exists last :: LastDropped(before, after, maxWeight, last))
  }

  /** An entry counts as stale if it was left alone for a whole period: the one that ends now, if a boundary is due, or
      else the one before the latest boundary. Stale entries go first, then the ones that were accessed least often. */
  ghost predicate FirstToGo<K(!new)>(log: seq<Event<K>>, due: bool, gone: set<K>, kept: set<K>) {
    forall d, k :: d in gone && k in kept ==>
      var staleGone := if due then Idle(log, d) else StaleAt(log, d);
      var staleKept := if due then Idle(log, k) else StaleAt(log, k);
      && (staleKept ==> staleGone)
      && (staleGone == staleKept ==> Accesses(log, d) <= Accesses(log, k))
  }

  lemma OrderMeaning<K(!new), V(!new)>(queue: map<K, Entry<V>>, log: seq<Event<K>>, due: bool, after: map<K, Entry<V>>)
    requires Tracks(queue, log) && DroppedInOrder(if due then Marked(queue) else queue, after)
    ensures FirstToGo(log, due, queue.Keys - after.Keys, after.Keys)
  {
    var before := if due then Marked(queue) else queue;
    forall k | k in queue
      ensures before[k].priority.stale == if due then Idle(log, k) else StaleAt(log, k)
      ensures before[k].priority.frequency == Accesses(log, k)
    {}
    forall d, k | d in queue.Keys - after.Keys && k in after.Keys
      ensures Before(before[d].priority, before[k].priority) && k in queue
    {}
  }

  lemma EvictionMeaning<K(!new), V(!new)>(queue: map<K, Entry<V>>, log: seq<Event<K>>, due: bool,
                                          after: map<K, Entry<V>>, maxWeight: nat)
    requires Tracks(queue, log) && EvictedTo(if due then Marked(queue) else queue, after, maxWeight)
    ensures FirstToGo(log, due, queue.Keys - after.Keys, after.Keys) && (due ==> StaleIsIdle(after, log))
    ensures forall k :: k in after ==> k in queue && after[k].value == queue[k].value
  {
    OrderMeaning(queue, log, due, after);
  }

  /** Exactly the idle entries are stale. */
  ghost predicate StaleIsIdle<K(!new), V(!new)>(queue: map<K, Entry<V>>, log: seq<Event<K>>) {
    forall k :: k in queue ==> (queue[k].priority.stale <==> Idle(log, k))
  }

  lemma DropTop<K(!new), V(!new)>(before: map<K, Entry<V>>, queue: map<K, Entry<V>>, maxWeight: nat, k: K)
    requires DroppedInOrder(before, queue) && IsTop(queue, k) && Weight(queue) > maxWeight
    ensures DroppedInOrder(before, queue - {k})
    ensures LastDropped(before, queue - {k}, maxWeight, k)
    ensures Weight(queue) == queue[k].weight + Weight(queue - {k})
  {
    WeightWithout(queue, k);
  }

  class LfuCache<K(==, !new), V(!new)> {
    /** The source's `CacheWeight` estimate for an entry. */
    const weigh: (K, V) -> nat
    var queue: map<K, Entry<V>>
    var totalWeight: nat
    var staleCounter: nat
    ghost var log: seq<Event<K>>

    ghost predicate Valid()
      reads this
    {
      && totalWeight == Weight(queue)
      && (forall k :: k in queue ==> queue[k].priority.frequency >= 1 && queue[k].weight == weigh(k, queue[k].value))
      && Tracks(queue, log)
    }

    /** The cached values, without the bookkeeping. */
    ghost function Contents(): map<K, V>
      reads this
    {
      map k | k in queue :: queue[k].value
    }

    constructor (weigh: (K, V) -> nat)
      ensures Valid() && queue == map[] && staleCounter == 0 && this.weigh == weigh
    {
      this.weigh := weigh;
      queue, totalWeight, staleCounter, log := map[], 0, 0, [];
    }

    /** The priority queue's `pop`: any entry of top priority. */
    method Pop() returns (k: K, e: Entry<V>)
      requires queue != map[]
      modifies this`queue
      ensures IsTop(old(queue), k) && e == old(queue)[k] && queue == old(queue) - {k}
    {
      TopExists(queue);
      k :| k in queue && IsTop(queue, k);
      e := queue[k];
      queue := queue - {k};
    }

    method Get(k: K) returns (r: Option<V>)
      requires Valid()
      modifies this
      ensures Valid() && Contents() == old(Contents()) && staleCounter == old(staleCounter)
      ensures r == Lookup(old(Contents()), k)
      ensures queue == if k in old(queue) then old(queue)[k := Touched(old(queue)[k])] else old(queue)
      ensures totalWeight == old(totalWeight)
      ensures log == if k in old(queue) then old(log) + [Touch(k)] else old(log)
    {
      if k !in queue { return None; }
      r := Some(queue[k].value);
      WeightReplaced(queue, k, Touched(queue[k]));
      TracksTouch(queue, log, k, Touched(queue[k]));
      queue := queue[k := Touched(queue[k])];
      log := log + [Touch(k)];
    }

    /** An entry that is there already gets the new value, and counts as accessed once more. */
    method Insert(k: K, v: V)
      requires Valid()
      modifies this
      ensures Valid() && Contents() == old(Contents())[k := v] && staleCounter == old(staleCounter)
      ensures queue == old(queue)[k := if k in old(queue)
                                       then Touched(old(queue)[k]).(weight := weigh(k, v), value := v)
                                       else Entry(weigh(k, v), v, false, Priority(false, 1))]
      ensures log == old(log) + [Touch(k)]
    {
      var w := weigh(k, v);
      if k in queue {
        Place(k, Touched(queue[k]).(weight := w, value := v));
      } else {
        Place(k, Entry(w, v, false, Priority(false, 1)));
      }
    }

    /** Puts an entry for `k`, and its weight in the place of the one that was there. */
    method Place(k: K, entry: Entry<V>)
      requires Valid() && entry.weight == weigh(k, entry.value)
      requires !entry.willStale && entry.priority.stale == (k in queue && queue[k].priority.stale)
      requires entry.priority.frequency == if k in queue then queue[k].priority.frequency + 1 else 1
      modifies this`queue, this`totalWeight, this`log
      ensures Valid() && queue == old(queue)[k := entry] && log == old(log) + [Touch(k)]
    {
      WeightReplaced(queue, k, entry);
      TracksTouch(queue, log, k, entry);
      totalWeight := totalWeight - (if k in queue then queue[k].weight else 0) + entry.weight;
      queue := queue[k := entry];
      log := log + [Touch(k)];
    }

    /** Gives `k` the absolute top priority and pops: the entry popped is the one for `k`. */
    method Remove(k: K) returns (r: Option<V>)
      requires Valid()
      modifies this
      ensures Valid() && Contents() == old(Contents()) - {k} && staleCounter == old(staleCounter)
      ensures r == Lookup(old(Contents()), k)
      ensures queue == old(queue) - {k}
      ensures log == if k in old(queue) then old(log) + [Drop(k)] else old(log)
    {
      if k !in queue {
        assert queue - {k} == queue;
        return None;
      }
      WeightWithout(queue, k);
      var e := PopFirst(k);
      totalWeight := totalWeight - e.weight;
      TracksDrop(old(queue), log, k);
      log := log + [Drop(k)];
      r := Some(e.value);
    }

    method PopFirst(k: K) returns (e: Entry<V>)
      requires k in queue && forall j :: j in queue ==> queue[j].priority.frequency >= 1
      modifies this`queue
      ensures queue == old(queue) - {k} && e.weight == old(queue)[k].weight && e.value == old(queue)[k].value
    {
      queue := queue[k := queue[k].(priority := Priority(true, 0))];
      assert IsTop(queue, k);
      var popped;
      popped, e := Pop();
      assert popped == k;
      assert queue == old(queue) - {k};
    }

    function Contains(k: K): (b: bool)
      reads this
    {
      k in queue
    }

    method IsEmpty() returns (b: bool)
      ensures b <==> queue == map[]
    {
      b := queue == map[];
    }

    method EvictWithPeriod(maxWeight: nat, stalePeriod: nat) returns (r: Option<(nat, nat, nat)>, ghost dropped: seq<K>)
      requires Valid()
      modifies this
      ensures Valid()
      ensures old(totalWeight) <= maxWeight ==> r.None? && dropped == [] && unchanged(this)
      ensures old(totalWeight) > maxWeight ==>
                && r == Some((old(totalWeight) - totalWeight, old(totalWeight), totalWeight))
                && totalWeight <= maxWeight
                && staleCounter == (if old(staleCounter) + 1 == stalePeriod then 0 else old(staleCounter) + 1)
                && EvictedTo(if old(staleCounter) + 1 == stalePeriod then Marked(old(queue)) else old(queue),
                             queue, maxWeight)
                && FirstToGo(old(log), old(staleCounter) + 1 == stalePeriod, old(queue).Keys - queue.Keys, queue.Keys)
      // Right after a period boundary an entry is stale exactly when it was idle for the whole period.
      ensures old(totalWeight) > maxWeight && old(staleCounter) + 1 == stalePeriod ==>
                StaleIsIdle(queue, old(log))
      ensures forall k :: k in queue ==> k in old(queue) && queue[k].value == old(queue)[k].value
      // The history gains the boundary, if one is due, and the keys that were dropped.
      ensures ToSet(dropped) == old(queue).Keys - queue.Keys && NoDuplicates(dropped)
      ensures log == old(log)
                     + (if old(totalWeight) > maxWeight && old(staleCounter) + 1 == stalePeriod then [Boundary] else [])
                     + Drops(dropped)
    {
      dropped := [];
      if totalWeight <= maxWeight {
        assert log == log + [] + Drops(dropped);
        return None, [];
      }
      var oldWeight := totalWeight;
      var evicted;
      evicted, dropped := Evict(maxWeight, stalePeriod);
      r := Some((evicted, oldWeight, totalWeight));
    }

    method Evict(maxWeight: nat, stalePeriod: nat) returns (evicted: nat, ghost dropped: seq<K>)
      requires Valid() && totalWeight > maxWeight
      modifies this
      ensures Valid() && totalWeight <= maxWeight && evicted + totalWeight == old(totalWeight)
      ensures var due, before := old(staleCounter) + 1 == stalePeriod, old(queue);
              && staleCounter == (if due then 0 else old(staleCounter) + 1)
              && EvictedTo(if due then Marked(before) else before, queue, maxWeight)
              && FirstToGo(old(log), due, before.Keys - queue.Keys, queue.Keys)
              && (due ==> StaleIsIdle(queue, old(log)))
              && log == old(log) + (if due then [Boundary] else []) + Drops(dropped)
      ensures forall k :: k in queue ==> k in old(queue) && queue[k].value == old(queue)[k].value
      ensures ToSet(dropped) == old(queue).Keys - queue.Keys && NoDuplicates(dropped)
    {
      ghost var before, log0 := queue, log;
      ghost var due := AdvancePeriod(stalePeriod);
      evicted, dropped := DropUntil(maxWeight);
      EvictionMeaning(before, log0, due, queue, maxWeight);
    }

    /** Counts an eviction, and starts a new period when one is due. */
    method AdvancePeriod(stalePeriod: nat) returns (ghost due: bool)
      requires Valid()
      modifies this`queue, this`log, this`staleCounter
      ensures Valid() && due == (old(staleCounter) + 1 == stalePeriod)
      ensures staleCounter == if due then 0 else old(staleCounter) + 1
      ensures queue == if due then Marked(old(queue)) else old(queue)
      ensures due ==> StaleIsIdle(queue, old(log))
      ensures log == old(log) + if due then [Boundary] else []
    {
      staleCounter := staleCounter + 1;
      due := staleCounter == stalePeriod;
      if staleCounter == stalePeriod {
        staleCounter := 0;
        MarkAll();
      } else {
        assert log == log + [];
      }
    }

    /** At a period boundary: what was not accessed since the last one becomes stale. */
    method MarkAll()
      requires Valid()
      modifies this`queue, this`log
      ensures Valid() && queue == Marked(old(queue)) && StaleIsIdle(queue, old(log)) && log == old(log) + [Boundary]
    {
      MarkedWeight(queue);
      TracksBoundary(queue, log);
      queue := Marked(queue);
      log := log + [Boundary];
    }

    /** The loop of `evict_with_period`. */
    method DropUntil(maxWeight: nat) returns (evicted: nat, ghost dropped: seq<K>)
      requires Valid()
      modifies this`queue, this`totalWeight, this`log
      ensures Valid() && EvictedTo(old(queue), queue, maxWeight)
      ensures evicted + totalWeight == old(totalWeight)
      ensures forall k :: k in queue ==> k in old(queue) && queue[k] == old(queue)[k]
      ensures ToSet(dropped) == old(queue).Keys - queue.Keys && NoDuplicates(dropped)
              && log == old(log) + Drops(dropped)
    {
      evicted, dropped := 0, [];
      ghost var before, last: Option<K> := queue, None;
      while totalWeight > maxWeight
        invariant Valid() && DroppedInOrder(before, queue)
        invariant evicted + totalWeight == old(totalWeight)
        invariant (forall k :: k in dropped <==> k in before && k !in queue) && NoDuplicates(dropped)
        invariant log == old(log) + Drops(dropped)
        invariant match last
                  case None => queue == before
                  case Some(k) => LastDropped(before, queue, maxWeight, k)
        decreases queue.Keys
      {
        var k, weight := DropOne(before, maxWeight);
        evicted := evicted + weight;
        assert Drops(dropped + [k]) == Drops(dropped) + [Drop(k)];
        dropped := dropped + [k];
        last := Some(k);
      }
    }

    /** Its body; the queue is not empty while the weight is above the limit. */
    method DropOne(ghost before: map<K, Entry<V>>, maxWeight: nat) returns (k: K, weight: nat)
      requires Valid() && DroppedInOrder(before, queue) && totalWeight > maxWeight
      modifies this`queue, this`totalWeight, this`log
      ensures Valid() && k in old(queue) && queue == old(queue) - {k} && queue.Keys == old(queue).Keys - {k}
      ensures weight + totalWeight == old(totalWeight) && log == old(log) + [Drop(k)]
      ensures DroppedInOrder(before, queue) && LastDropped(before, queue, maxWeight, k)
    {
      assert queue != map[];
      ghost var kept := queue;
      var e;
      k, e := Pop();
      DropTop(before, kept, maxWeight, k);
      TracksDrop(kept, log, k);
      weight := e.weight;
      totalWeight := totalWeight - e.weight;
      log := log + [Drop(k)];
    }
  }

  /** Two periods of a cache with a boundary at every eviction: an entry that is not looked up in between is stale after
      the second one, if it is still there, however often it was looked up before. */
  method TwoPeriods<K(!new), V(!new)>(c: LfuCache<K, V>, k: K, others: seq<K>, first: nat, second: nat)
    returns (evicted: bool)
    requires c.Valid() && c.staleCounter == 0 && c.totalWeight > first && k in c.queue && k !in others
    modifies c
    ensures c.Valid() && (evicted && k in c.queue ==> c.queue[k].priority.stale)
  {
    FirstPeriod(c, k, first);
    ghost var kept := k in c.queue;
    for i := 0 to |others|
      invariant c.Valid() && (k in c.queue <==> kept) && c.staleCounter == 0
      invariant kept ==> Idle(c.log, k)
    {
      ghost var log := c.log;
      var _ := c.Get(others[i]);
      if kept && c.log != log { StillIdle(log, [Touch(others[i])], k); }
    }
    var r, _ := c.EvictWithPeriod(second, 1);
    evicted := r.Some?;
  }

  method FirstPeriod<K(!new), V(!new)>(c: LfuCache<K, V>, k: K, maxWeight: nat)
    requires c.Valid() && c.staleCounter == 0 && c.totalWeight > maxWeight && k in c.queue
    modifies c
    ensures c.Valid() && c.staleCounter == 0 && (k in c.queue ==> Idle(c.log, k))
  {
    ghost var log := c.log;
    var _, dropped := c.EvictWithPeriod(maxWeight, 1);
    IdleAtBoundary(log, k);
    if k in c.queue {
      DropsSpare(dropped, k);
      StillIdle(log + [Boundary], Drops(dropped), k);
    }
  }

  lemma IdleAtBoundary<K>(log: seq<Event<K>>, k: K)
    ensures Present(log, k) ==> Idle(log + [Boundary], k)
  {
    assert (log + [Boundary])[..|log|] == log;
  }

  lemma DropsSpare<K>(dropped: seq<K>, k: K)
    requires k !in ToSet(dropped)
    ensures forall i :: 0 <= i < |dropped| ==> !Drops(dropped)[i].Boundary? && Drops(dropped)[i].key != k
  {
    forall i | 0 <= i < |dropped|
      ensures dropped[i] in ToSet(dropped)
    {}
  }
}
