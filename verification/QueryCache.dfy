/** The caches in front of query execution (packages/graph-node/graphql/src/execution/execution.rs and cache.rs): a ring
    of recent blocks per network, a cache for older ones, and the sharing of queries in flight. */
module QueryBlockCaches {
  import opened Common

  datatype BlockPtr = BlockPtr(number: nat, hash: nat)

  /** The cache key: all that determines the result of a query, with the block it is executed at. */
  datatype QueryHash = QueryHash(query: nat, block: BlockPtr)

  datatype QueryResult = Data(value: nat) | Errors(errors: seq<nat>)

  datatype Limits = Limits(blocks: nat, maxMem: nat)

  datatype CacheByBlock = CacheByBlock(block: BlockPtr, maxWeight: nat, weight: nat,
                                       cache: map<QueryHash, QueryResult>) {
    /** The cache after an insert, and whether there was room. */
    function Insert(key: QueryHash, value: QueryResult, w: nat): (CacheByBlock, bool)
      requires value.Data?
    {
      if weight + w <= maxWeight then (this.(weight := weight + w, cache := cache[key := value]), true)
      else (this, false)
    }
  }

  function IndexOf(ring: seq<CacheByBlock>, block: BlockPtr): (i: nat)
    ensures i <= |ring| && (i < |ring| ==> ring[i].block == block)
    ensures forall j :: 0 <= j < i ==> ring[j].block != block
  {
    if ring == [] || ring[0].block == block then 0 else
    var i := IndexOf(ring[1..], block);
    assert forall j :: 0 < j <= i ==> ring[j] == ring[1..][j - 1] || j == i;
    assert forall j :: 0 < j < i + 1 ==> ring[j].block == ring[1..][j - 1].block;
    i + 1
  }

  /** The ring of one network after an insert: into the cache of that block if there is one; otherwise into a new one
      at the front, unless the block is older than the newest in the ring. */
  function Stored(l: Limits, ring: seq<CacheByBlock>, block: BlockPtr, key: QueryHash, value: QueryResult, w: nat)
    : (seq<CacheByBlock>, bool)
    requires value.Data?
  {
    var i := IndexOf(ring, block);
    if i < |ring| then
      var (c, ok) := ring[i].Insert(key, value, w);
      (ring[i := c], ok)
    else if l.blocks > 0 && (ring == [] || ring[0].block.number <= block.number) then
      var kept := if |ring| == l.blocks then ring[..|ring| - 1] else ring;
      var (c, ok) := CacheByBlock(block, l.maxMem / l.blocks, 0, map[]).Insert(key, value, w);
      ([c] + kept, ok)
    else
      (ring, false)
  }

  function Cached(ring: seq<CacheByBlock>, block: BlockPtr, key: QueryHash): Option<QueryResult> {
    var i := IndexOf(ring, block);
    if i < |ring| then Lookup(ring[i].cache, key) else None
  }

  /** What an insert does to the ring of a network: the result goes to the cache of its block if that has room, or to a
      new one in front if the block is not older than the newest, for which the oldest makes way when the ring is
      full. */
  lemma StoredMeaning(l: Limits, ring: seq<CacheByBlock>, block: BlockPtr, key: QueryHash, value: QueryResult, w: nat)
    requires value.Data? && forall i, j :: 0 <= i < j < |ring| ==> ring[i].block != ring[j].block
    ensures var (ring', ok) := Stored(l, ring, block, key, value, w);
            && (forall i :: 0 <= i < |ring| && ring[i].block == block ==>
                  && (ok <==> ring[i].weight + w <= ring[i].maxWeight)
                  && ring' == ring[i := if !ok then ring[i] else
                                        ring[i].(weight := ring[i].weight + w, cache := ring[i].cache[key := value])])
            && ((forall i :: 0 <= i < |ring| ==> ring[i].block != block) ==>
                  if l.blocks == 0 || (ring != [] && ring[0].block.number > block.number) then ring' == ring && !ok
                  else
                    && (ok <==> w <= l.maxMem / l.blocks)
                    && ring' == [CacheByBlock(block, l.maxMem / l.blocks, if ok then w else 0,
                                              if ok then map[key := value] else map[])]
                                + if |ring| == l.blocks then ring[..|ring| - 1] else ring)
  {}

  /** The weights of all stored results. */
  ghost function Load(cache: map<QueryHash, QueryResult>, weigh: QueryResult -> nat): nat {
    if cache == map[] then 0 else
    var k :| k in cache;
    weigh(cache[k]) + Load(cache - {k}, weigh)
  }

  lemma {:induction false} LoadWithout(cache: map<QueryHash, QueryResult>, weigh: QueryResult -> nat, k: QueryHash)
    requires k in cache
    ensures Load(cache, weigh) == weigh(cache[k]) + Load(cache - {k}, weigh)
    decreases |cache|
  {
    var j :| j in cache && Load(cache, weigh) == weigh(cache[j]) + Load(cache - {j}, weigh);
    if j != k {
      LoadWithout(cache - {j}, weigh, k);
      LoadWithout(cache - {k}, weigh, j);
      assert cache - {j} - {k} == cache - {k} - {j};
    }
  }

  lemma LoadWith(cache: map<QueryHash, QueryResult>, weigh: QueryResult -> nat, k: QueryHash, r: QueryResult)
    ensures Load(cache[k := r], weigh) <= Load(cache, weigh) + weigh(r)
  {
    LoadWithout(cache[k := r], weigh, k);
    assert cache[k := r] - {k} == cache - {k};
    if k in cache { LoadWithout(cache, weigh, k); } else { assert cache - {k} == cache; }
  }

  /** One block's cache: within its limit, and with nothing but right answers for that block. */
  ghost predicate Sound(l: Limits, answer: QueryHash -> nat, weigh: QueryResult -> nat, c: CacheByBlock) {
    && l.blocks > 0 && c.maxWeight == l.maxMem / l.blocks
    && Load(c.cache, weigh) <= c.weight <= c.maxWeight
    && forall k :: k in c.cache ==> k.block == c.block && c.cache[k] == Data(answer(k))
  }

  /** One network's ring: at most the configured number of distinct blocks, higher numbers first. */
  ghost predicate Ring(l: Limits, answer: QueryHash -> nat, weigh: QueryResult -> nat, ring: seq<CacheByBlock>) {
    && |ring| <= l.blocks
    && (forall i :: 0 <= i < |ring| ==> Sound(l, answer, weigh, ring[i]))
    && NewestFirst(ring)
  }

  ghost predicate NewestFirst(ring: seq<CacheByBlock>) {
    forall i, j :: 0 <= i < j < |ring| ==>
      ring[i].block != ring[j].block && ring[i].block.number >= ring[j].block.number
  }

  lemma NewestFirstPushed(c: CacheByBlock, ring: seq<CacheByBlock>, n: nat)
    requires NewestFirst(ring) && n <= |ring| && IndexOf(ring, c.block) == |ring|
    requires ring == [] || ring[0].block.number <= c.block.number
    ensures NewestFirst([c] + ring[..n])
  {
    var ring' := [c] + ring[..n];
    forall a, b | 0 <= a < b < |ring'|
      ensures ring'[a].block != ring'[b].block && ring'[a].block.number >= ring'[b].block.number
    {
      assert ring'[b] == ring[b - 1];
      if a == 0 {
        assert b - 1 > 0 ==> ring[0].block.number >= ring[b - 1].block.number;
      } else {
        assert ring'[a] == ring[a - 1];
      }
    }
  }

  lemma InsertSound(l: Limits, answer: QueryHash -> nat, weigh: QueryResult -> nat, c: CacheByBlock, key: QueryHash)
    requires Sound(l, answer, weigh, c) && key.block == c.block
    ensures var value := Data(answer(key)); Sound(l, answer, weigh, c.Insert(key, value, weigh(value)).0)
  {
    LoadWith(c.cache, weigh, key, Data(answer(key)));
  }

  lemma RingReplaced(l: Limits, answer: QueryHash -> nat, weigh: QueryResult -> nat, ring: seq<CacheByBlock>, i: nat,
                     c: CacheByBlock)
    requires Ring(l, answer, weigh, ring) && i < |ring| && c.block == ring[i].block && Sound(l, answer, weigh, c)
    ensures Ring(l, answer, weigh, ring[i := c])
  {
    var ring' := ring[i := c];
    forall a | 0 <= a < |ring'|
      ensures Sound(l, answer, weigh, ring'[a]) && ring'[a].block == ring[a].block
    {}
    forall a, b | 0 <= a < b < |ring'|
      ensures ring'[a].block != ring'[b].block && ring'[a].block.number >= ring'[b].block.number
    {
      assert ring'[a].block == ring[a].block && ring'[b].block == ring[b].block;
    }
  }

  lemma RingPushed(l: Limits, answer: QueryHash -> nat, weigh: QueryResult -> nat, ring: seq<CacheByBlock>, n: nat,
                   c: CacheByBlock)
    requires Ring(l, answer, weigh, ring) && Sound(l, answer, weigh, c) && n <= |ring| && n < l.blocks
    requires NewestFirst([c] + ring[..n])
    ensures Ring(l, answer, weigh, [c] + ring[..n])
  {
    var ring' := [c] + ring[..n];
    forall a | 0 <= a < |ring'|
      ensures Sound(l, answer, weigh, ring'[a])
    {
      assert a > 0 ==> ring'[a] == ring[a - 1];
    }
  }

  /** Storing a right answer keeps the ring as it should be. */
  lemma RingKept(l: Limits, answer: QueryHash -> nat, weigh: QueryResult -> nat, ring: seq<CacheByBlock>,
                 key: QueryHash)
    requires Ring(l, answer, weigh, ring)
    ensures var value := Data(answer(key));
            Ring(l, answer, weigh, Stored(l, ring, key.block, key, value, weigh(value)).0)
  {
    var value := Data(answer(key));
    var i := IndexOf(ring, key.block);
    if i < |ring| {
      InsertSound(l, answer, weigh, ring[i], key);
      RingReplaced(l, answer, weigh, ring, i, ring[i].Insert(key, value, weigh(value)).0);
    } else if l.blocks > 0 && (ring == [] || ring[0].block.number <= key.block.number) {
      var c := CacheByBlock(key.block, l.maxMem / l.blocks, 0, map[]);
      var n := if |ring| == l.blocks then |ring| - 1 else |ring|;
      InsertSound(l, answer, weigh, c, key);
      var c' := c.Insert(key, value, weigh(value)).0;
      NewestFirstPushed(c', ring, n);
      RingPushed(l, answer, weigh, ring, n, c');
      assert ring == ring[..|ring|];
    }
  }

  /** Looking up a block depends only on which blocks the ring has, and in what order. */
  lemma SameIndex(ring: seq<CacheByBlock>, ring': seq<CacheByBlock>, block: BlockPtr)
    requires |ring| == |ring'| && forall i :: 0 <= i < |ring| ==> ring[i].block == ring'[i].block
    ensures IndexOf(ring, block) == IndexOf(ring', block)
  {}

  /** What was stored is what a lookup finds, unless there was no room for it. */
  lemma StoredIsCached(l: Limits, ring: seq<CacheByBlock>, key: QueryHash, value: QueryResult, w: nat)
    requires value.Data?
    ensures var (ring', ok) := Stored(l, ring, key.block, key, value, w);
            && (ok ==> Cached(ring', key.block, key) == Some(value))
            && (!ok ==> Cached(ring', key.block, key) == Cached(ring, key.block, key))
  {
    var ring' := Stored(l, ring, key.block, key, value, w).0;
    var i := IndexOf(ring, key.block);
    if i < |ring| {
      SameIndex(ring, ring', key.block);
    } else {
      assert ring' != ring ==> IndexOf(ring', key.block) == 0;
    }
  }

  ghost function TotalLoad(ring: seq<CacheByBlock>, weigh: QueryResult -> nat): nat {
    if ring == [] then 0 else Load(ring[0].cache, weigh) + TotalLoad(ring[1..], weigh)
  }

  lemma OneShareMore(n: nat, share: nat)
    ensures (n + 1) * share == n * share + share
  {}

  lemma {:induction false} TotalLoadBound(l: Limits, answer: QueryHash -> nat, weigh: QueryResult -> nat,
                                          ring: seq<CacheByBlock>)
    requires l.blocks > 0 && forall i :: 0 <= i < |ring| ==> Sound(l, answer, weigh, ring[i])
    ensures TotalLoad(ring, weigh) <= |ring| * (l.maxMem / l.blocks)
  {
    if ring != [] {
      var rest, share := ring[1..], l.maxMem / l.blocks;
      forall i | 0 <= i < |rest|
        ensures Sound(l, answer, weigh, rest[i])
      {
        assert rest[i] == ring[i + 1];
      }
      TotalLoadBound(l, answer, weigh, rest);
      assert Sound(l, answer, weigh, ring[0]);
      OneShareMore(|rest|, share);
    }
  }

  /** A network's results take no more than the configured memory. */
  lemma RingFits(l: Limits, answer: QueryHash -> nat, weigh: QueryResult -> nat, ring: seq<CacheByBlock>)
    requires Ring(l, answer, weigh, ring)
    ensures TotalLoad(ring, weigh) <= l.maxMem
  {
    if ring != [] {
      assert Sound(l, answer, weigh, ring[0]);
      TotalLoadBound(l, answer, weigh, ring);
      SharesFit(|ring|, l.blocks, l.maxMem);
    }
  }

  lemma SharesFit(n: nat, blocks: nat, mem: nat)
    requires 0 < blocks && n <= blocks
    ensures n * (mem / blocks) <= mem
  {
    var share := mem / blocks;
    assert n * share <= blocks * share;
    assert blocks * share <= mem;
  }

  datatype Network = Network(name: string, ring: seq<CacheByBlock>)

  function FindNetwork(networks: seq<Network>, name: string): (i: nat)
    ensures i <= |networks| && (i < |networks| ==> networks[i].name == name)
    ensures forall j :: 0 <= j < i ==> networks[j].name != name
  {
    if networks == [] || networks[0].name == name then 0 else
    var i := FindNetwork(networks[1..], name);
    assert forall j :: 0 < j < i + 1 ==> networks[j].name == networks[1..][j - 1].name;
    i + 1
  }

  function RingOf(networks: seq<Network>, name: string): seq<CacheByBlock> {
    var i := FindNetwork(networks, name);
    if i < |networks| then networks[i].ring else []
  }

  /** Giving one network another ring leaves those of all others. */
  lemma RingOfUpdated(networks: seq<Network>, name: string, ring: seq<CacheByBlock>, other: string)
    ensures var i := FindNetwork(networks, name);
            var networks' := if i < |networks| then networks[i := Network(name, ring)]
              else networks + [Network(name, ring)];
            RingOf(networks', other) == if other == name then ring else RingOf(networks, other)
  {
    var i := FindNetwork(networks, name);
    var networks' := if i < |networks| then networks[i := Network(name, ring)] else networks + [Network(name, ring)];
    var a, b := FindNetwork(networks, other), FindNetwork(networks', other);
    forall j | 0 <= j < |networks|
      ensures networks'[j].name == networks[j].name
    {}
    if other == name {
      assert networks'[i].name == name;
      assert b == i;
    } else if a < |networks| {
      assert networks'[a].name == other;
      assert a == b;
    } else {
      assert b == |networks'|;
    }
  }

  class QueryBlockCache {
    const limits: Limits
    var networks: seq<Network>

    constructor (limits: Limits)
      ensures this.limits == limits && networks == []
    {
      this.limits, networks := limits, [];
    }

    method Insert(network: string, block: BlockPtr, key: QueryHash, result: QueryResult, weight: nat)
      returns (inserted: bool)
      requires result.Data?
      modifies this
      ensures forall other :: RingOf(networks, other) ==
                if other == network then Stored(limits, RingOf(old(networks), network), block, key, result, weight).0
                else RingOf(old(networks), other)
      ensures inserted == Stored(limits, RingOf(old(networks), network), block, key, result, weight).1
    {
      var n := FindNetwork(networks, network);
      if n == |networks| { networks := networks + [Network(network, [])]; }
      var ring := networks[n].ring;
      assert ring == RingOf(old(networks), network);
      inserted := false;
      var i := IndexOf(ring, block);
      if i < |ring| {
        var (c, ok) := ring[i].Insert(key, result, weight);
        ring, inserted := ring[i := c], ok;
      } else if limits.blocks > 0 {
        var shouldInsert := ring == [] || ring[0].block.number <= block.number;
        if shouldInsert {
          if |ring| == limits.blocks { ring := ring[..|ring| - 1]; }
          var (c, ok) := CacheByBlock(block, limits.maxMem / limits.blocks, 0, map[]).Insert(key, result, weight);
          ring, inserted := [c] + ring, ok;
        }
      }
      networks := networks[n := Network(network, ring)];
      assert n == |old(networks)| ==> networks == old(networks) + [Network(network, ring)];
      forall other
        ensures RingOf(networks, other) == if other == network then ring else RingOf(old(networks), other)
      {
        RingOfUpdated(old(networks), network, ring, other);
      }
    }

    method Get(network: string, block: BlockPtr, key: QueryHash) returns (r: Option<QueryResult>)
      ensures r == Cached(RingOf(networks, network), block, key)
    {
      var n := FindNetwork(networks, network);
      if n == |networks| { return None; }
      var i := IndexOf(networks[n].ring, block);
      if i == |networks[n].ring| { return None; }
      r := Lookup(networks[n].ring[i].cache, key);
    }
  }
}
