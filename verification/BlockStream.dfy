/** The block stream of packages/graph-node/chain/ethereum/src/block_stream.rs: how a subgraph's block pointer is
    brought to the chain head, by block number far from the head and by parent hash near it. */
module BlockStreams {
  import opened Common
  import opened BlockTree
  import opened ChainStores

  const U64_MAX: nat := 0xFFFF_FFFF_FFFF_FFFF

  type U64 = n: nat | n <= U64_MAX

  // ---------- The range of a far scan

  function Min(a: nat, b: nat): nat {
    if a <= b then a else b
  }

  /** The lowest start block above `from`, or the largest u64. */
  function NextStartBlock(startBlocks: seq<U64>, from: nat): (next: nat)
    ensures next == U64_MAX || (next in startBlocks && next > from)
    ensures forall b :: b in startBlocks && b > from ==> next <= b
  {
    if startBlocks == [] then U64_MAX else
    var rest := NextStartBlock(startBlocks[1..], from);
    assert startBlocks == [startBlocks[0]] + startBlocks[1..];
    if startBlocks[0] > from then Min(startBlocks[0], rest) else rest
  }

  /** The number of blocks to ask for, given how many triggers per block the last range had. */
  function RangeSize(maxBlockRange: nat, target: nat, previousRate: real, previousSize: nat): (size: nat)
    requires maxBlockRange >= 1 && previousSize >= 1 && previousRate >= 0.0
    ensures 1 <= size <= maxBlockRange && size <= previousSize * 10
  {
    var maxSize := Min(maxBlockRange, previousSize * 10);
    if previousRate == 0.0 then maxSize else
    var wanted := target as real / previousRate;
    var atLeastOne := if wanted < 1.0 then 1.0 else wanted;
    (if atLeastOne > maxSize as real then maxSize as real else atLeastOne).Floor
  }

  /** Without triggers in the last range the next one is as large as it may get. Otherwise it is the largest one that is
      expected to have no more triggers than the target, if that is at least one block and within the limit. */
  lemma RangeSizeMeaning(maxBlockRange: nat, target: nat, previousRate: real, previousSize: nat)
    requires maxBlockRange >= 1 && previousSize >= 1 && previousRate >= 0.0
    ensures var size := RangeSize(maxBlockRange, target, previousRate, previousSize);
            && 1 <= size && (size == maxBlockRange || size <= previousSize * 10)
            && (previousRate == 0.0 ==> size == maxBlockRange || (size == previousSize * 10 && size < maxBlockRange))
            && (size > 1 && previousRate > 0.0 ==> size as real * previousRate <= target as real)
            && (size < maxBlockRange && size < previousSize * 10 && previousRate > 0.0 ==>
                  (size + 1) as real * previousRate > target as real)
  {
    if previousRate > 0.0 {
      var size, wanted := RangeSize(maxBlockRange, target, previousRate, previousSize), target as real / previousRate;
      if size > 1 { Scaled(size, target, previousRate); }
      if size < maxBlockRange && size < previousSize * 10 {
        assert wanted < (size + 1) as real;
        ScaledStrictly(size + 1, target, previousRate);
      }
    }
  }

  lemma Scaled(n: nat, target: nat, rate: real)
    requires rate > 0.0 && n as real <= target as real / rate
    ensures n as real * rate <= target as real
  {
    var q := target as real / rate;
    assert q * rate == target as real;
    assert n as real * rate <= q * rate;
  }

  lemma ScaledStrictly(n: nat, target: nat, rate: real)
    requires rate > 0.0 && n as real > target as real / rate
    ensures n as real * rate > target as real
  {
    var q := target as real / rate;
    assert q * rate == target as real;
    assert n as real * rate > q * rate;
  }

  /** The range [from, to] scanned when the pointer is at number `ptr` and the head at `head`. */
  function ScanRange(head: nat, threshold: nat, ptr: Option<nat>, startBlocks: seq<U64>, size: nat): (nat, nat)
    requires threshold <= head < U64_MAX && size >= 1
    requires ptr.Some? ==> ptr.value + threshold < head
  {
    var from := if ptr.Some? then ptr.value + 1 else 0;
    var next := NextStartBlock(startBlocks, from);
    (from, Min(from + size - 1, Min(head - threshold, next - 1)))
  }

  /** A scan starts right after the pointer, is not empty, not larger than asked for, stays at or below the reorg
      threshold and does not run into a later start block; and it is as long as that allows. */
  lemma ScanRangeMeaning(head: nat, threshold: nat, ptr: Option<nat>, startBlocks: seq<U64>, size: nat)
    requires threshold <= head < U64_MAX && size >= 1
    requires ptr.Some? ==> ptr.value + threshold < head
    ensures var (from, to) := ScanRange(head, threshold, ptr, startBlocks, size);
            && from == (if ptr.Some? then ptr.value + 1 else 0)
            && from <= to < from + size && to <= head - threshold
            && (forall b :: b in startBlocks ==> !(from < b <= to))
            && (to + 1 == from + size || to == head - threshold || to + 1 in startBlocks)
  {
    var from := if ptr.Some? then ptr.value + 1 else 0;
    var next := NextStartBlock(startBlocks, from);
    assert next > from;
  }

  /** All the ranges scanned while the head does not move, from a pointer at `ptr` on. `rates` are the trigger rates
      met. */
  function FarScans(head: nat, threshold: nat, ptr: Option<nat>, startBlocks: seq<U64>,
                    maxBlockRange: nat, target: nat, rates: nat -> real, count: nat, rate: real,
                    size: nat): seq<(nat, nat)>
    requires threshold <= head < U64_MAX && maxBlockRange >= 1 && size >= 1 && rate >= 0.0
    requires forall i :: rates(i) >= 0.0
    decreases if ptr.Some? then head - ptr.value else head + 1
  {
    if ptr.Some? && ptr.value + threshold >= head then [] else
    var size' := RangeSize(maxBlockRange, target, rate, size);
    var range := ScanRange(head, threshold, ptr, startBlocks, size');
    ScanRangeMeaning(head, threshold, ptr, startBlocks, size');
    [range] + FarScans(head, threshold, Some(range.1), startBlocks, maxBlockRange, target, rates, count + 1,
                       rates(count), size')
  }

  /** The ranges cover every number above the pointer up to the threshold exactly once and in order. */
  ghost predicate Partition(ranges: seq<(nat, nat)>, from: nat, end: nat) {
    if ranges == [] then from == end
    else ranges[0].0 == from && from <= ranges[0].1 < end && Partition(ranges[1..], ranges[0].1 + 1, end)
  }

  lemma {:induction false} FarScansPartition(head: nat, threshold: nat, ptr: Option<nat>, startBlocks: seq<U64>,
      maxBlockRange: nat, target: nat, rates: nat -> real, count: nat, rate: real, size: nat)
    requires threshold <= head < U64_MAX && maxBlockRange >= 1 && size >= 1 && rate >= 0.0
    requires forall i :: rates(i) >= 0.0
    requires ptr.Some? ==> ptr.value + threshold <= head
    ensures Partition(FarScans(head, threshold, ptr, startBlocks, maxBlockRange, target, rates, count, rate, size),
                      if ptr.Some? then ptr.value + 1 else 0, head - threshold + 1)
    decreases if ptr.Some? then head - ptr.value else head + 1
  {
    if !(ptr.Some? && ptr.value + threshold >= head) {
      var size' := RangeSize(maxBlockRange, target, rate, size);
      var range := ScanRange(head, threshold, ptr, startBlocks, size');
      ScanRangeMeaning(head, threshold, ptr, startBlocks, size');
      var rest := FarScans(head, threshold, Some(range.1), startBlocks, maxBlockRange, target, rates, count + 1,
                           rates(count), size');
      FarScansPartition(head, threshold, Some(range.1), startBlocks, maxBlockRange, target, rates, count + 1,
                        rates(count), size');
      assert ([range] + rest)[1..] == rest;
    }
  }

  /** Range `i` is the only one that `n` lies in. */
  ghost predicate OnlyIn(ranges: seq<(nat, nat)>, n: nat, i: nat) {
    i < |ranges| && ranges[i].0 <= n <= ranges[i].1 &&
    forall j :: 0 <= j < |ranges| && ranges[j].0 <= n <= ranges[j].1 ==> j == i
  }

  /** In a partition every number lies in exactly one range. */
  lemma {:induction false} PartitionMeaning(ranges: seq<(nat, nat)>, from: nat, end: nat, n: nat)
    requires Partition(ranges, from, end) && from <= n < end
    ensures exists i: nat :: OnlyIn(ranges, n, i)
    decreases |ranges|
  {
    if n <= ranges[0].1 {
      PartitionAbove(ranges[1..], ranges[0].1 + 1, end);
      forall j | 0 < j < |ranges|
        ensures n < ranges[j].0
      {
        assert ranges[j] == ranges[1..][j - 1];
      }
      assert OnlyIn(ranges, n, 0);
    } else {
      PartitionMeaning(ranges[1..], ranges[0].1 + 1, end, n);
      var i: nat :| OnlyIn(ranges[1..], n, i);
      assert ranges[i + 1] == ranges[1..][i];
      forall j | 0 <= j < |ranges| && ranges[j].0 <= n <= ranges[j].1
        ensures j == i + 1
      {
        assert j > 0 ==> ranges[j] == ranges[1..][j - 1];
      }
      assert OnlyIn(ranges, n, i + 1);
    }
  }

  lemma {:induction false} PartitionAbove(ranges: seq<(nat, nat)>, from: nat, end: nat)
    requires Partition(ranges, from, end)
    ensures forall j :: 0 <= j < |ranges| ==> from <= ranges[j].0
    decreases |ranges|
  {
    if ranges != [] {
      PartitionAbove(ranges[1..], ranges[0].1 + 1, end);
      assert forall j :: 0 < j < |ranges| ==> ranges[j] == ranges[1..][j - 1];
    }
  }

  // ---------- One reconciliation step

  /** What a step reads: the subgraph pointer, the head and the stored blocks of the chain store, and the Ethereum
      node's answers by block number. */
  datatype View = View(ptr: Option<Block>, head: Option<Block>, blocks: Blocks, node: nat -> Block)

  datatype Config = Config(threshold: nat, startBlocks: seq<U64>, maxBlockRange: nat, target: nat)

  datatype ReconciliationStep =
    | RevertBlock(ptr: Block)
    | ProcessDescendantBlocks(blocks: seq<Block>, rangeSize: nat)
    | Retry
    | Done

  /** The blocks a scan of [from, to] yields: those of the numbers in `interesting`, and always the last one. */
  function BlocksWithTriggers(node: nat -> Block, interesting: set<nat>, from: nat, to: nat): (blocks: seq<Block>)
    requires from <= to
    decreases (to - from)
  {
    if from == to then [node(to)]
    else (if from in interesting then [node(from)] else []) + BlocksWithTriggers(node, interesting, from + 1, to)
  }

  /** Whether the step works by block number, beyond the reorg threshold, which never includes the genesis block. */
  predicate IsFar(c: Config, head: Block, ptr: Option<Block>)
    requires ptr.Some? ==> ptr.value.number <= head.number
  {
    ptr.None? || head.number - ptr.value.number > Min(c.threshold, head.number)
  }

  /** `get_next_step`. */
  function NextStep(c: Config, v: View, interesting: set<nat>, rate: real, size: nat): ReconciliationStep
    requires c.maxBlockRange >= 1 && size >= 1 && rate >= 0.0
    requires v.head.Some? ==> v.head.value.number < U64_MAX
  {
    if v.head.None? then Done else
    var head := v.head.value;
    if v.ptr.Some? && v.ptr.value.number >= head.number then Done
    else if IsFar(c, head, v.ptr) then
      if v.ptr.Some? && v.node(v.ptr.value.number) != v.ptr.value then RevertBlock(v.ptr.value) else
      var rangeSize := RangeSize(c.maxBlockRange, c.target, rate, size);
      var number := if v.ptr.Some? then Some(v.ptr.value.number) else None;
      var (from, to) := ScanRange(head.number, Min(c.threshold, head.number), number, c.startBlocks, rangeSize);
      ScanRangeMeaning(head.number, Min(c.threshold, head.number), number, c.startBlocks, rangeSize);
      ProcessDescendantBlocks(BlocksWithTriggers(v.node, interesting, from, to), rangeSize)
    else
      var ptr := v.ptr.value;
      match AncestorBlock(v.blocks, head.hash, head.number - ptr.number - 1)
      case None => Retry
      case Some(ancestor) =>
        if ancestor.parent == ptr.hash then ProcessDescendantBlocks([ancestor], 1) else RevertBlock(ptr)
  }

  /** How many blocks the next step looks through: one near the head, otherwise as many as the triggers found
      suggest. */
  function ScanSize(c: Config, v: View, rate: real, size: nat): (n: nat)
    requires c.maxBlockRange >= 1 && size >= 1 && rate >= 0.0
    ensures n >= 1
  {
    if v.ptr.Some? && v.head.Some? && v.head.value.number <= v.ptr.value.number + Min(c.threshold, v.head.value.number)
    then 1 else RangeSize(c.maxBlockRange, c.target, rate, size)
  }

  lemma StepSize(c: Config, v: View, interesting: set<nat>, rate: real, size: nat)
    requires c.maxBlockRange >= 1 && size >= 1 && rate >= 0.0
    requires v.head.Some? ==> v.head.value.number < U64_MAX
    ensures var step := NextStep(c, v, interesting, rate, size);
            step.ProcessDescendantBlocks? ==> step.rangeSize == ScanSize(c, v, rate, size)
  {}

  /** What a step may rely on: blocks are blocks of the network, the ingestor keeps enough ancestors of the head, and
      the node is right about the blocks that are beyond the reorg threshold. */
  ghost predicate Sane(tree: Blocks, genesis: Hash, c: Config, v: View)
    requires IsTree(tree, genesis)
  {
    && Stores(tree, v.blocks)
    && (v.ptr.Some? ==> v.ptr.value.hash in tree && tree[v.ptr.value.hash] == v.ptr.value)
    && (v.head.Some? ==>
          var head := v.head.value;
          && head.hash in tree && tree[head.hash] == head && head.number < U64_MAX
          && StoredDown(tree, genesis, v.blocks, head.hash, c.threshold)
          && RightBelow(tree, genesis, c.threshold, head.hash, v.node))
  }

  /** The node's answers are blocks of the chain of `head`, from the reorg threshold on down. */
  ghost predicate RightBelow(tree: Blocks, genesis: Hash, threshold: nat, head: Hash, node: nat -> Block)
    requires IsTree(tree, genesis) && head in tree
  {
    forall n :: 0 <= n <= tree[head].number - Min(threshold, tree[head].number) ==>
      node(n) == tree[AncestorAt(tree, genesis, head, n)]
  }

  /** Strictly ascending numbers, each block an ancestor of the next. */
  ghost predicate Chained(tree: Blocks, genesis: Hash, blocks: seq<Block>)
    requires IsTree(tree, genesis)
  {
    && (forall i :: 0 <= i < |blocks| ==> blocks[i].hash in tree && tree[blocks[i].hash] == blocks[i])
    && forall i, j :: 0 <= i < j < |blocks| ==>
         blocks[i].number < blocks[j].number && IsAncestor(tree, genesis, blocks[i].hash, blocks[j].hash)
  }

  lemma ChainedCons(tree: Blocks, genesis: Hash, first: Block, rest: seq<Block>)
    requires IsTree(tree, genesis) && Chained(tree, genesis, rest) && first.hash in tree && tree[first.hash] == first
    requires forall i :: 0 <= i < |rest| ==>
               first.number < rest[i].number && IsAncestor(tree, genesis, first.hash, rest[i].hash)
    ensures Chained(tree, genesis, [first] + rest)
  {
    var blocks := [first] + rest;
    assert forall i :: 0 < i < |blocks| ==> blocks[i] == rest[i - 1];
  }

  /** Every block is an ancestor of `h` with a number in [from, to]. */
  ghost predicate OnChain(tree: Blocks, genesis: Hash, h: Hash, blocks: seq<Block>, from: nat, to: nat)
    requires IsTree(tree, genesis) && h in tree
  {
    forall i :: 0 <= i < |blocks| ==>
      && from <= blocks[i].number <= to && blocks[i].hash in tree && tree[blocks[i].hash] == blocks[i]
      && IsAncestor(tree, genesis, blocks[i].hash, h)
  }

  /** The node's answers for [from, to] are the blocks of the chain below `h`. */
  ghost predicate Truthful(tree: Blocks, genesis: Hash, h: Hash, node: nat -> Block, from: nat, to: nat)
    requires IsTree(tree, genesis) && h in tree && to <= tree[h].number
  {
    forall n :: from <= n <= to ==> node(n) == tree[AncestorAt(tree, genesis, h, n)]
  }

  lemma {:induction false} ScannedOnChain(tree: Blocks, genesis: Hash, h: Hash, node: nat -> Block,
                                          interesting: set<nat>, from: nat, to: nat)
    requires IsTree(tree, genesis) && h in tree && from <= to <= tree[h].number
    requires Truthful(tree, genesis, h, node, from, to)
    ensures var blocks := BlocksWithTriggers(node, interesting, from, to);
            OnChain(tree, genesis, h, blocks, from, to) && |blocks| >= 1 && blocks[|blocks| - 1] == node(to)
    decreases (to - from)
  {
    if from < to { ScannedOnChain(tree, genesis, h, node, interesting, from + 1, to); }
  }

  /** A scan yields one ascending chain that ends with the last block of the range. */
  lemma {:induction false} ScannedBlocks(tree: Blocks, genesis: Hash, h: Hash, node: nat -> Block,
                                         interesting: set<nat>, from: nat, to: nat)
    requires IsTree(tree, genesis) && h in tree && from <= to <= tree[h].number
    requires Truthful(tree, genesis, h, node, from, to)
    ensures Chained(tree, genesis, BlocksWithTriggers(node, interesting, from, to))
    decreases (to - from)
  {
    if from < to {
      var rest := BlocksWithTriggers(node, interesting, from + 1, to);
      ScannedBlocks(tree, genesis, h, node, interesting, from + 1, to);
      ScannedOnChain(tree, genesis, h, node, interesting, from + 1, to);
      FirstOfScan(tree, genesis, h, node(from), rest, from, to);
      assert [] + rest == rest;
    }
  }

  lemma FirstOfScan(tree: Blocks, genesis: Hash, h: Hash, first: Block, rest: seq<Block>, from: nat, to: nat)
    requires IsTree(tree, genesis) && h in tree && from <= tree[h].number
    requires first == tree[AncestorAt(tree, genesis, h, from)]
    requires Chained(tree, genesis, rest) && OnChain(tree, genesis, h, rest, from + 1, to)
    ensures Chained(tree, genesis, [first] + rest)
  {
    forall i | 0 <= i < |rest|
      ensures first.number < rest[i].number && IsAncestor(tree, genesis, first.hash, rest[i].hash)
    {
      AncestorsOrdered(tree, genesis, first.hash, rest[i].hash, h);
    }
    ChainedCons(tree, genesis, first, rest);
  }

  /** No block with triggers is left out. */
  lemma {:induction false} ScannedAll(node: nat -> Block, interesting: set<nat>, from: nat, to: nat, n: nat)
    requires from <= n <= to && (n in interesting || n == to)
    ensures node(n) in BlocksWithTriggers(node, interesting, from, to)
    decreases (to - from)
  {
    if from < n { ScannedAll(node, interesting, from + 1, to, n); }
  }

  /** And no other block but the last is yielded. */
  lemma {:induction false} ScannedOnly(node: nat -> Block, interesting: set<nat>, from: nat, to: nat, b: Block)
    requires from <= to && b in BlocksWithTriggers(node, interesting, from, to)
    ensures exists n :: from <= n <= to && (n in interesting || n == to) && node(n) == b
    decreases (to - from)
  {
    if from < to && !(from in interesting && b == node(from)) { ScannedOnly(node, interesting, from + 1, to, b); }
  }

  /** Whether the pointer is on the chain of the head. */
  ghost predicate OnMainChain(tree: Blocks, genesis: Hash, v: View)
    requires IsTree(tree, genesis) && v.head.Some? && v.head.value.hash in tree
    requires v.ptr.Some? ==> v.ptr.value.hash in tree
  {
    v.ptr.Some? ==> IsAncestor(tree, genesis, v.ptr.value.hash, v.head.value.hash)
  }

  /** A step goes forward exactly when the pointer is on the chain of the head, and back to the parent exactly when it
      is not; it never has to be retried. Going forward it adds, far from the head, a chain of final blocks above
      the pointer, and near it the next block of the head's chain, a child of the pointer. */
  lemma NextStepSound(tree: Blocks, genesis: Hash, c: Config, v: View, interesting: set<nat>, rate: real, size: nat)
    requires IsTree(tree, genesis) && c.maxBlockRange >= 1 && size >= 1 && rate >= 0.0 && Sane(tree, genesis, c, v)
    ensures match NextStep(c, v, interesting, rate, size)
            case Retry => false
            case Done => v.head.None? || (v.ptr.Some? && v.ptr.value.number >= v.head.value.number)
            case RevertBlock(ptr) =>
              && v.ptr == Some(ptr) && v.head.Some? && ptr.number < v.head.value.number
              && !OnMainChain(tree, genesis, v) && ptr.hash != genesis
            case ProcessDescendantBlocks(blocks, rangeSize) =>
              && v.head.Some? && (v.ptr.Some? ==> v.ptr.value.number < v.head.value.number)
              && OnMainChain(tree, genesis, v)
              && |blocks| >= 1 && 1 <= rangeSize <= size * 10
              && Forward(tree, genesis, c, v, blocks)
  {
    if v.head.Some? && (v.ptr.Some? ==> v.ptr.value.number < v.head.value.number) {
      if IsFar(c, v.head.value, v.ptr) {
        FarStepSound(tree, genesis, c, v, interesting, rate, size);
      } else {
        NearStepSound(tree, genesis, c, v, interesting, rate, size);
      }
    }
  }

  /** Where forward steps may go. */
  ghost predicate Forward(tree: Blocks, genesis: Hash, c: Config, v: View, blocks: seq<Block>)
    requires IsTree(tree, genesis) && v.head.Some? && v.head.value.hash in tree
    requires v.ptr.Some? ==> v.ptr.value.number <= v.head.value.number
  {
    var head := v.head.value;
    var from := if v.ptr.Some? then v.ptr.value.number + 1 else 0;
    && Chained(tree, genesis, blocks)
    && OnChain(tree, genesis, head.hash, blocks, from, head.number)
    && if IsFar(c, head, v.ptr)
       then forall b :: b in blocks ==> b.number <= head.number - Min(c.threshold, head.number)
       else |blocks| == 1 && v.ptr.Some? && blocks[0].parent == v.ptr.value.hash
  }

  lemma FarStepSound(tree: Blocks, genesis: Hash, c: Config, v: View, interesting: set<nat>, rate: real, size: nat)
    requires IsTree(tree, genesis) && c.maxBlockRange >= 1 && size >= 1 && rate >= 0.0 && Sane(tree, genesis, c, v)
    requires v.head.Some? && (v.ptr.Some? ==> v.ptr.value.number < v.head.value.number) && IsFar(c, v.head.value, v.ptr)
    ensures if !OnMainChain(tree, genesis, v) then
              NextStep(c, v, interesting, rate, size) == RevertBlock(v.ptr.value) && v.ptr.value.hash != genesis
            else
              var step := NextStep(c, v, interesting, rate, size);
              step.ProcessDescendantBlocks? && |step.blocks| >= 1 && 1 <= step.rangeSize <= size * 10
              && Forward(tree, genesis, c, v, step.blocks)
  {
    var head := v.head.value;
    var threshold := Min(c.threshold, head.number);
    if !OnMainChain(tree, genesis, v) {
      GenesisIsAncestor(tree, genesis, head.hash);
    } else {
      var rangeSize := RangeSize(c.maxBlockRange, c.target, rate, size);
      var number := if v.ptr.Some? then Some(v.ptr.value.number) else None;
      ScanRangeMeaning(head.number, threshold, number, c.startBlocks, rangeSize);
      var (from, to) := ScanRange(head.number, threshold, number, c.startBlocks, rangeSize);
      ScannedBlocks(tree, genesis, head.hash, v.node, interesting, from, to);
      ScannedOnChain(tree, genesis, head.hash, v.node, interesting, from, to);
    }
  }

  lemma NearStepSound(tree: Blocks, genesis: Hash, c: Config, v: View, interesting: set<nat>, rate: real, size: nat)
    requires IsTree(tree, genesis) && c.maxBlockRange >= 1 && size >= 1 && rate >= 0.0 && Sane(tree, genesis, c, v)
    requires v.head.Some? && v.ptr.Some? && v.ptr.value.number < v.head.value.number && !IsFar(c, v.head.value, v.ptr)
    ensures if !OnMainChain(tree, genesis, v) then
              NextStep(c, v, interesting, rate, size) == RevertBlock(v.ptr.value) && v.ptr.value.hash != genesis
            else
              var step := NextStep(c, v, interesting, rate, size);
              step.ProcessDescendantBlocks? && |step.blocks| >= 1 && 1 <= step.rangeSize <= size * 10
              && Forward(tree, genesis, c, v, step.blocks)
  {
    var head, ptr := v.head.value, v.ptr.value;
    var above := tree[AncestorAt(tree, genesis, head.hash, ptr.number + 1)];
    ChildToward(tree, genesis, c, v);
    GenesisIsAncestor(tree, genesis, head.hash);
    if OnMainChain(tree, genesis, v) {
      assert Chained(tree, genesis, [above]);
      assert OnChain(tree, genesis, head.hash, [above], ptr.number + 1, head.number);
    }
  }

  /** The block the near mode looks up is the one above the pointer on the chain of the head. */
  lemma ChildToward(tree: Blocks, genesis: Hash, c: Config, v: View)
    requires IsTree(tree, genesis) && Sane(tree, genesis, c, v)
    requires v.head.Some? && v.ptr.Some? && v.ptr.value.number < v.head.value.number && !IsFar(c, v.head.value, v.ptr)
    ensures var head, ptr := v.head.value, v.ptr.value;
            var above := tree[AncestorAt(tree, genesis, head.hash, ptr.number + 1)];
            && AncestorBlock(v.blocks, head.hash, head.number - ptr.number - 1) == Some(above)
            && (above.parent == ptr.hash <==> OnMainChain(tree, genesis, v))
  {
    var head, ptr := v.head.value, v.ptr.value;
    AncestorBlockFound(tree, genesis, v.blocks, head.hash, c.threshold, head.number - ptr.number - 1);
    ParentOnChain(tree, genesis, head.hash, ptr.number);
  }

  /** How far the pointer is from the head, counting the way back first when it is on another chain. */
  ghost function Distance(tree: Blocks, genesis: Hash, v: View): nat
    requires IsTree(tree, genesis) && v.head.Some? && v.head.value.hash in tree
             && tree[v.head.value.hash] == v.head.value
    requires v.ptr.Some? ==> v.ptr.value.hash in tree && tree[v.ptr.value.hash] == v.ptr.value
  {
    if v.ptr.None? then v.head.value.number + 1
    else if OnMainChain(tree, genesis, v) then v.head.value.number - v.ptr.value.number
    else v.head.value.number + 1 + v.ptr.value.number
  }

  /** Each step brings the pointer closer, whichever way it goes. */
  lemma StepComesCloser(tree: Blocks, genesis: Hash, c: Config, v: View, interesting: set<nat>, rate: real, size: nat)
    requires IsTree(tree, genesis) && c.maxBlockRange >= 1 && size >= 1 && rate >= 0.0 && Sane(tree, genesis, c, v)
    ensures match NextStep(c, v, interesting, rate, size)
            case ProcessDescendantBlocks(blocks, _) =>
              |blocks| >= 1 && forall b :: b in blocks ==>
                b.hash in tree && tree[b.hash] == b && v.head.Some? &&
                Distance(tree, genesis, v.(ptr := Some(b))) < Distance(tree, genesis, v)
            case RevertBlock(ptr) =>
              ptr.parent in tree && v.head.Some? &&
              Distance(tree, genesis, v.(ptr := Some(tree[ptr.parent]))) < Distance(tree, genesis, v)
            case _ => true
  {
    NextStepSound(tree, genesis, c, v, interesting, rate, size);
    if v.ptr.Some? { assert Linked(tree, genesis, v.ptr.value.hash); }
  }
}
