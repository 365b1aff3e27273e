/** The block stream as it runs: `poll` turns its state, the indexer commits the blocks it yields, and the chain head
    moves independently (packages/graph-node/chain/ethereum/src/block_stream.rs). */
module StreamRuns {
  import opened Common
  import opened BlockTree
  import opened ChainStores
  import opened BlockStreams

  /** The subgraph's own store: its block pointer, and the blocks whose changes it holds. */
  class SubgraphStore {
    var ptr: Option<Block>
    var applied: seq<Block>

    constructor ()
      ensures ptr == None && applied == []
    {
      ptr, applied := None, [];
    }

    method TransactBlock(b: Block)
      modifies this
      ensures ptr == Some(b) && applied == old(applied) + [b]
    {
      ptr, applied := Some(b), applied + [b];
    }

    /** Takes the changes of block `from` back, if it made any, and moves the pointer to its parent. */
    method RevertBlockOperations(from: Block, to: Block)
      requires ptr == Some(from) && from.parent == to.hash
      modifies this
      ensures ptr == Some(to) && applied == Reverted(old(applied), from)
    {
      applied := Reverted(applied, from);
      ptr := Some(to);
    }
  }

  function Reverted(applied: seq<Block>, b: Block): seq<Block> {
    if applied != [] && applied[|applied| - 1] == b then applied[..|applied| - 1] else applied
  }

  datatype StreamState =
    | New
    | Reconciliation
    | YieldingBlocks(queue: seq<Block>)
    | RetryAfterDelay
    | Idle

  datatype TurnEvent = Nothing | BlockEvent(block: Block) | RevertEvent | ErrorEvent

  /** The applied blocks are ancestors of the pointer, or the pointer itself. */
  ghost predicate AppliedBelow(tree: Blocks, genesis: Hash, applied: seq<Block>, ptr: Option<Block>)
    requires IsTree(tree, genesis)
  {
    && Chained(tree, genesis, applied)
    && (ptr.None? ==> applied == [])
    && (ptr.Some? ==> ptr.value.hash in tree && tree[ptr.value.hash] == ptr.value)
    && (ptr.Some? ==> forall i :: 0 <= i < |applied| ==> IsAncestor(tree, genesis, applied[i].hash, ptr.value.hash))
  }

  /** The blocks to come continue the chain above the pointer. */
  ghost predicate ComingAbove(tree: Blocks, genesis: Hash, ptr: Option<Block>, coming: seq<Block>)
    requires IsTree(tree, genesis)
  {
    && Chained(tree, genesis, coming)
    && (ptr.Some? ==> ptr.value.hash in tree)
    && (ptr.Some? ==> forall i :: 0 <= i < |coming| ==>
          ptr.value.number < coming[i].number && IsAncestor(tree, genesis, ptr.value.hash, coming[i].hash))
  }

  /** Nothing the stream works on is above the head, or beside it. */
  ghost predicate BehindHead(tree: Blocks, head: Option<Hash>, b: Block) {
    head.Some? && head.value in tree && (b.number < tree[head.value].number || b == tree[head.value])
  }

  lemma CommitNext(tree: Blocks, genesis: Hash, applied: seq<Block>, ptr: Option<Block>, coming: seq<Block>)
    requires IsTree(tree, genesis) && coming != []
    requires AppliedBelow(tree, genesis, applied, ptr) && ComingAbove(tree, genesis, ptr, coming)
    ensures AppliedBelow(tree, genesis, applied + [coming[0]], Some(coming[0]))
    ensures ComingAbove(tree, genesis, Some(coming[0]), coming[1..])
  {
    var b := coming[0];
    forall i | 0 <= i < |applied|
      ensures applied[i].number < b.number && IsAncestor(tree, genesis, applied[i].hash, b.hash)
    {
      AncestorTransitive(tree, genesis, applied[i].hash, ptr.value.hash, b.hash);
    }
  }

  lemma RevertTop(tree: Blocks, genesis: Hash, applied: seq<Block>, ptr: Block)
    requires IsTree(tree, genesis) && AppliedBelow(tree, genesis, applied, Some(ptr)) && ptr.hash != genesis
    ensures ptr.parent in tree
    ensures AppliedBelow(tree, genesis, Reverted(applied, ptr), Some(tree[ptr.parent]))
  {
    ParentIsAncestor(tree, genesis, ptr.hash);
    var rest := Reverted(applied, ptr);
    forall i | 0 <= i < |rest|
      ensures IsAncestor(tree, genesis, rest[i].hash, ptr.parent)
    {
      assert rest[i] == applied[i];
      AncestorsOrdered(tree, genesis, applied[i].hash, ptr.parent, ptr.hash);
    }
  }

  /** What holds between any two turns of the stream. */
  ghost predicate Consistent(tree: Blocks, genesis: Hash, head: Option<Hash>, ptr: Option<Block>, applied: seq<Block>,
                             coming: seq<Block>)
    requires IsTree(tree, genesis)
  {
    && AppliedBelow(tree, genesis, applied, ptr)
    && ComingAbove(tree, genesis, ptr, coming)
    && (ptr.Some? ==> BehindHead(tree, head, ptr.value))
    && (forall b :: b in coming ==> BehindHead(tree, head, b))
  }

  /** A higher head, on whatever chain, leaves everything behind it. */
  lemma HeadRises(tree: Blocks, genesis: Hash, head: Option<Hash>, to: Hash, ptr: Option<Block>, applied: seq<Block>,
                  coming: seq<Block>)
    requires IsTree(tree, genesis) && Consistent(tree, genesis, head, ptr, applied, coming) && to in tree
    requires head.Some? && head.value in tree ==> tree[head.value].number < tree[to].number
    ensures Consistent(tree, genesis, Some(to), ptr, applied, coming)
  {}

  lemma ForwardConsistent(tree: Blocks, genesis: Hash, c: Config, v: View, applied: seq<Block>, blocks: seq<Block>)
    requires IsTree(tree, genesis) && Sane(tree, genesis, c, v) && v.head.Some?
    requires v.ptr.Some? ==> v.ptr.value.number < v.head.value.number
    requires OnMainChain(tree, genesis, v) && Forward(tree, genesis, c, v, blocks)
    requires Consistent(tree, genesis, Some(v.head.value.hash), v.ptr, applied, [])
    ensures Consistent(tree, genesis, Some(v.head.value.hash), v.ptr, applied, blocks)
  {
    var head := v.head.value;
    forall i | 0 <= i < |blocks|
      ensures v.ptr.Some? ==> IsAncestor(tree, genesis, v.ptr.value.hash, blocks[i].hash)
      ensures BehindHead(tree, Some(head.hash), blocks[i])
    {
      if v.ptr.Some? { AncestorsOrdered(tree, genesis, v.ptr.value.hash, blocks[i].hash, head.hash); }
    }
  }

  lemma RevertConsistent(tree: Blocks, genesis: Hash, head: Option<Hash>, ptr: Block, applied: seq<Block>)
    requires IsTree(tree, genesis) && Consistent(tree, genesis, head, Some(ptr), applied, []) && ptr.hash != genesis
    ensures ptr.parent in tree && tree[ptr.parent].hash == ptr.parent
    ensures Consistent(tree, genesis, head, Some(tree[ptr.parent]), Reverted(applied, ptr), [])
  {
    RevertTop(tree, genesis, applied, ptr);
    ParentIsAncestor(tree, genesis, ptr.hash);
  }

  // ---------- Nothing is skipped

  /** Block `h` has triggers, and is `top` or below it. */
  ghost predicate Due(tree: Blocks, genesis: Hash, wanted: Block -> bool, h: Hash, top: Hash)
    requires IsTree(tree, genesis) && top in tree
  {
    h in tree && wanted(tree[h]) && IsAncestor(tree, genesis, h, top)
  }

  /** Up to the pointer every block with triggers has been applied. */
  ghost predicate AllApplied(tree: Blocks, genesis: Hash, wanted: Block -> bool, applied: seq<Block>,
                             ptr: Option<Block>)
    requires IsTree(tree, genesis) && Known(tree, ptr)
  {
    ptr.Some? ==> forall h :: Due(tree, genesis, wanted, h, ptr.value.hash) ==> tree[h] in applied
  }

  /** Above the pointer and up to `top`, every block with triggers is among those to come. */
  ghost predicate AllComing(tree: Blocks, genesis: Hash, wanted: Block -> bool, ptr: Option<Block>,
                            coming: seq<Block>, top: Hash)
    requires IsTree(tree, genesis) && top in tree
  {
    forall h :: Due(tree, genesis, wanted, h, top) && (ptr.Some? ==> ptr.value.number < tree[h].number) ==>
      tree[h] in coming
  }

  ghost predicate Complete(tree: Blocks, genesis: Hash, wanted: Block -> bool, ptr: Option<Block>,
                           applied: seq<Block>, coming: seq<Block>)
    requires IsTree(tree, genesis)
  {
    && Known(tree, ptr) && AllApplied(tree, genesis, wanted, applied, ptr)
    && (coming != [] ==>
          var last := coming[|coming| - 1];
          last.hash in tree && AllComing(tree, genesis, wanted, ptr, coming, last.hash))
  }

  ghost predicate InOrder(tree: Blocks, genesis: Hash, wanted: Block -> bool, head: Option<Hash>, ptr: Option<Block>,
                          applied: seq<Block>, coming: seq<Block>)
    requires IsTree(tree, genesis)
  {
    Consistent(tree, genesis, head, ptr, applied, coming) && Complete(tree, genesis, wanted, ptr, applied, coming)
  }

  /** What is to come can be forgotten. */
  lemma NothingComing(tree: Blocks, genesis: Hash, wanted: Block -> bool, head: Option<Hash>, ptr: Option<Block>,
                      applied: seq<Block>, coming: seq<Block>)
    requires IsTree(tree, genesis) && InOrder(tree, genesis, wanted, head, ptr, applied, coming)
    ensures InOrder(tree, genesis, wanted, head, ptr, applied, [])
  {}

  lemma CommitComplete(tree: Blocks, genesis: Hash, wanted: Block -> bool, applied: seq<Block>, ptr: Option<Block>,
                       coming: seq<Block>)
    requires IsTree(tree, genesis) && coming != [] && Complete(tree, genesis, wanted, ptr, applied, coming)
    requires ComingAbove(tree, genesis, ptr, coming)
    ensures Complete(tree, genesis, wanted, Some(coming[0]), applied + [coming[0]], coming[1..])
  {
    var b, last := coming[0], coming[|coming| - 1];
    forall h | Due(tree, genesis, wanted, h, b.hash)
      ensures tree[h] in applied + [b]
    {
      if ptr.Some? && tree[h].number <= ptr.value.number {
        AncestorsOrdered(tree, genesis, h, ptr.value.hash, b.hash);
        assert Due(tree, genesis, wanted, h, ptr.value.hash);
      } else {
        AncestorTransitive(tree, genesis, h, b.hash, last.hash);
        assert Due(tree, genesis, wanted, h, last.hash);
        assert forall j :: 0 < j < |coming| ==> b.number < coming[j].number;
      }
    }
    forall h | coming[1..] != [] && Due(tree, genesis, wanted, h, last.hash) && b.number < tree[h].number
      ensures tree[h] in coming[1..]
    {
      assert tree[h] in coming && tree[h] != b;
      assert coming == [b] + coming[1..];
    }
  }

  lemma RevertComplete(tree: Blocks, genesis: Hash, wanted: Block -> bool, applied: seq<Block>, ptr: Block)
    requires IsTree(tree, genesis) && Complete(tree, genesis, wanted, Some(ptr), applied, []) && ptr.hash != genesis
    ensures ptr.parent in tree
    ensures Complete(tree, genesis, wanted, Some(tree[ptr.parent]), Reverted(applied, ptr), [])
  {
    ParentIsAncestor(tree, genesis, ptr.hash);
    forall h | Due(tree, genesis, wanted, h, ptr.parent)
      ensures tree[h] in Reverted(applied, ptr)
    {
      AncestorTransitive(tree, genesis, h, ptr.parent, ptr.hash);
      assert Due(tree, genesis, wanted, h, ptr.hash);
      assert tree[h] in applied && tree[h] != ptr;
      if applied[|applied| - 1] == ptr { assert applied == applied[..|applied| - 1] + [ptr]; }
    }
  }

  /** A scan finds the blocks with triggers: at least those beyond the reorg threshold, by their numbers. */
  ghost predicate Finds(c: Config, wanted: Block -> bool, v: View, interesting: set<nat>) {
    v.head.Some? ==>
      forall n :: 0 <= n <= v.head.value.number - Min(c.threshold, v.head.value.number) && wanted(v.node(n)) ==>
        n in interesting
  }

  /** Going forward leaves no block with triggers out. */
  lemma ForwardComplete(tree: Blocks, genesis: Hash, c: Config, v: View, wanted: Block -> bool,
                        step: ReconciliationStep, interesting: set<nat>, rate: real, size: nat)
    requires IsTree(tree, genesis) && c.maxBlockRange >= 1 && size >= 1 && rate >= 0.0 && Sane(tree, genesis, c, v)
    requires Finds(c, wanted, v, interesting)
    requires step == NextStep(c, v, interesting, rate, size) && step.ProcessDescendantBlocks?
    ensures step.blocks != [] && step.blocks[|step.blocks| - 1].hash in tree
    ensures AllComing(tree, genesis, wanted, v.ptr, step.blocks, step.blocks[|step.blocks| - 1].hash)
  {
    NextStepSound(tree, genesis, c, v, interesting, rate, size);
    var head, last := v.head.value, step.blocks[|step.blocks| - 1];
    forall h | Due(tree, genesis, wanted, h, last.hash) && (v.ptr.Some? ==> v.ptr.value.number < tree[h].number)
      ensures tree[h] in step.blocks
    {
      AncestorTransitive(tree, genesis, h, last.hash, head.hash);
      if IsFar(c, head, v.ptr) {
        assert tree[h].number <= last.number;
        assert v.node(tree[h].number) == tree[h];
        ScannedDue(tree, genesis, c, v, interesting, rate, size, h);
      } else {
        assert Linked(tree, genesis, last.hash);
      }
    }
  }

  lemma ScannedDue(tree: Blocks, genesis: Hash, c: Config, v: View, interesting: set<nat>, rate: real, size: nat,
                   h: Hash)
    requires IsTree(tree, genesis) && c.maxBlockRange >= 1 && size >= 1 && rate >= 0.0 && Sane(tree, genesis, c, v)
    requires v.head.Some? && (v.ptr.Some? ==> v.ptr.value.number < v.head.value.number) && IsFar(c, v.head.value, v.ptr)
    requires var step := NextStep(c, v, interesting, rate, size);
             && step.ProcessDescendantBlocks? && step.blocks != [] && h in tree
             && tree[h].number <= step.blocks[|step.blocks| - 1].number
    requires IsAncestor(tree, genesis, h, v.head.value.hash) && (v.ptr.Some? ==> v.ptr.value.number < tree[h].number)
    requires tree[h].number <= v.head.value.number - Min(c.threshold, v.head.value.number) ==>
             tree[h].number in interesting
    ensures tree[h] in NextStep(c, v, interesting, rate, size).blocks
  {
    var head := v.head.value;
    var rangeSize := RangeSize(c.maxBlockRange, c.target, rate, size);
    var number := if v.ptr.Some? then Some(v.ptr.value.number) else None;
    ScanRangeMeaning(head.number, Min(c.threshold, head.number), number, c.startBlocks, rangeSize);
    var (from, to) := ScanRange(head.number, Min(c.threshold, head.number), number, c.startBlocks, rangeSize);
    ScannedOnChain(tree, genesis, head.hash, v.node, interesting, from, to);
    ScannedAll(v.node, interesting, from, to, tree[h].number);
  }

  /** What a turn in state `Reconciliation` may do, given what it read. */
  ghost predicate Reconciled(tree: Blocks, genesis: Hash, c: Config, v: View, applied: seq<Block>, failed: bool,
                             state: StreamState, event: TurnEvent, ptr: Option<Block>, applied': seq<Block>)
    requires IsTree(tree, genesis) && Sane(tree, genesis, c, v)
  {
    match state
    case New => false
    case RetryAfterDelay => failed && event == ErrorEvent && ptr == v.ptr && applied' == applied
    case Idle => event == Nothing && ptr == v.ptr && applied' == applied && (v.head.None? || v.ptr == v.head)
    case Reconciliation =>
      // A revert moves the pointer, which is off the chain of the head, to its parent.
      && event == RevertEvent && v.ptr.Some? && v.head.Some?
      && !OnMainChain(tree, genesis, v)
      && v.ptr.value.parent in tree && ptr == Some(tree[v.ptr.value.parent])
      && applied' == Reverted(applied, v.ptr.value)
    case YieldingBlocks(queue) =>
      // Going forward queues blocks of the chain of the head, on which the pointer is.
      && event == Nothing && ptr == v.ptr && applied' == applied && queue != []
      && v.head.Some? && (v.ptr.Some? ==> v.ptr.value.number < v.head.value.number)
      && OnMainChain(tree, genesis, v)
      && Forward(tree, genesis, c, v, queue)
  }

  /** Whatever step is chosen, taking it is allowed and keeps things consistent. */
  lemma StepTaken(tree: Blocks, genesis: Hash, c: Config, v: View, applied: seq<Block>, step: ReconciliationStep,
                  interesting: set<nat>, rate: real, size: nat)
    requires IsTree(tree, genesis) && c.maxBlockRange >= 1 && size >= 1 && rate >= 0.0 && Sane(tree, genesis, c, v)
    requires step == NextStep(c, v, interesting, rate, size)
    requires Consistent(tree, genesis, if v.head.Some? then Some(v.head.value.hash) else None, v.ptr, applied, [])
    ensures !step.Retry?
    ensures step.Done? ==> Reconciled(tree, genesis, c, v, applied, false, Idle, Nothing, v.ptr, applied)
    ensures step.RevertBlock? ==>
              && v.head.Some? && v.ptr == Some(step.ptr) && step.ptr.parent in tree
                 && tree[step.ptr.parent].hash == step.ptr.parent
              && Consistent(tree, genesis, Some(v.head.value.hash), Some(tree[step.ptr.parent]),
                            Reverted(applied, step.ptr), [])
              && Reconciled(tree, genesis, c, v, applied, false, Reconciliation, RevertEvent,
                            Some(tree[step.ptr.parent]), Reverted(applied, step.ptr))
    ensures step.ProcessDescendantBlocks? ==>
              && v.head.Some? && step.rangeSize >= 1
              && Consistent(tree, genesis, Some(v.head.value.hash), v.ptr, applied, step.blocks)
              && Reconciled(tree, genesis, c, v, applied, false, YieldingBlocks(step.blocks), Nothing, v.ptr, applied)
  {
    NextStepSound(tree, genesis, c, v, interesting, rate, size);
    match step {
      case RevertBlock(ptr) => RevertConsistent(tree, genesis, Some(v.head.value.hash), ptr, applied);
      case ProcessDescendantBlocks(blocks, _) => ForwardConsistent(tree, genesis, c, v, applied, blocks);
      case _ =>
    }
  }

  /** Where the pointer will be once everything queued is committed. */
  ghost function Destination(ptr: Option<Block>, state: StreamState): Option<Block> {
    if state.YieldingBlocks? && state.queue != [] then Some(state.queue[|state.queue| - 1]) else ptr
  }

  ghost predicate Known(tree: Blocks, b: Option<Block>) {
    b.Some? ==> b.value.hash in tree && tree[b.value.hash] == b.value
  }

  ghost function Rank(state: StreamState): nat {
    match state
    case Idle => 0
    case Reconciliation => 1
    case YieldingBlocks(queue) => 2 + |queue|
    case _ => 2
  }

  /** Reconciling brings the destination closer to the head, or ends at the head. */
  lemma ReconciledCloser(tree: Blocks, genesis: Hash, c: Config, v: View, applied: seq<Block>,
                         state: StreamState, event: TurnEvent, ptr: Option<Block>, applied': seq<Block>)
    requires IsTree(tree, genesis) && Sane(tree, genesis, c, v) && v.head.Some?
    requires Reconciled(tree, genesis, c, v, applied, false, state, event, ptr, applied')
    ensures state.YieldingBlocks? || state.Reconciliation? || (state == Idle && ptr == v.head)
    ensures state != Idle ==> Known(tree, Destination(ptr, state))
    ensures state != Idle ==> Distance(tree, genesis, v.(ptr := Destination(ptr, state))) < Distance(tree, genesis, v)
  {
    if v.ptr.Some? { assert Linked(tree, genesis, v.ptr.value.hash); }
    GenesisIsAncestor(tree, genesis, v.head.value.hash);
  }

  class BlockStream {
    const chain: ChainStore
    const store: SubgraphStore
    const config: Config
    /** The blocks with triggers for the data sources there are from the start; more may be found by later ones. */
    ghost const wanted: Block -> bool
    var state: StreamState
    var previousTriggersPerBlock: real
    var previousBlockRangeSize: nat
    var consecutiveErrCount: nat
    /** A block handed to the indexer that it has not committed yet. */
    var inFlight: Option<Block>

    ghost function Coming(): seq<Block>
      reads this
    {
      (if inFlight.Some? then [inFlight.value] else []) + (if state.YieldingBlocks? then state.queue else [])
    }

    ghost predicate Valid()
      reads this, chain, store
    {
      && chain.Valid() && chain.kept >= config.threshold && config.maxBlockRange >= 1
      && (forall h :: h in chain.tree ==> chain.tree[h].number < U64_MAX)
      && previousBlockRangeSize >= 1 && previousTriggersPerBlock >= 0.0
      && InOrder(chain.tree, chain.genesis, wanted, chain.head, store.ptr, store.applied, Coming())
    }

    constructor (chain: ChainStore, store: SubgraphStore, config: Config, ghost wanted: Block -> bool)
      requires chain.Valid() && chain.kept >= config.threshold && config.maxBlockRange >= 1
      requires forall h :: h in chain.tree ==> chain.tree[h].number < U64_MAX
      requires Consistent(chain.tree, chain.genesis, chain.head, store.ptr, store.applied, [])
      requires AllApplied(chain.tree, chain.genesis, wanted, store.applied, store.ptr)
      ensures Valid() && this.chain == chain && this.store == store && this.config == config
      ensures this.wanted == wanted
      ensures state == New && inFlight == None && previousTriggersPerBlock == 1_000_000.0
      ensures previousBlockRangeSize == 1 && consecutiveErrCount == 0
    {
      this.chain, this.store, this.config := chain, store, config;
      this.wanted := wanted;
      // So many triggers per block that the first scan takes a single block.
      state, previousTriggersPerBlock, previousBlockRangeSize := New, 1_000_000.0, 1;
      consecutiveErrCount, inFlight := 0, None;
    }

    /** What the next step reads. */
    function CurrentView(node: nat -> Block): View
      reads this, chain, store
      requires chain.head.Some? ==> chain.head.value in chain.tree
    {
      View(store.ptr, if chain.head.Some? then Some(chain.tree[chain.head.value]) else None, chain.blocks, node)
    }

    /** The node's answers are right beyond the reorg threshold of the current head. */
    ghost predicate NodeIsRight(node: nat -> Block)
      reads this, chain, store
    {
      && IsTree(chain.tree, chain.genesis) && (chain.head.Some? ==> chain.head.value in chain.tree)
      && Sane(chain.tree, chain.genesis, config, CurrentView(node))
    }

    /** A scan finds the blocks that have triggers for the data sources there are from the start. */
    ghost predicate Scans(node: nat -> Block, interesting: set<nat>)
      reads this, chain, store
      requires chain.head.Some? ==> chain.head.value in chain.tree
    {
      Finds(config, wanted, CurrentView(node), interesting)
    }

    /** Another process moves the chain head. */
    method HeadMoved(to: Hash, blocks: Blocks)
      requires Valid() && to in chain.tree && Stores(chain.tree, blocks)
      requires StoredDown(chain.tree, chain.genesis, blocks, to, chain.kept)
      requires chain.head.Some? ==> chain.tree[chain.head.value].number < chain.tree[to].number
      modifies chain`head, chain`blocks
      ensures Valid() && chain.head == Some(to) && chain.blocks == blocks
    {
      HeadRises(chain.tree, chain.genesis, chain.head, to, store.ptr, store.applied, Coming());
      chain.head, chain.blocks := Some(to), blocks;
    }

    /** The indexer commits the block it was handed. */
    method Commit()
      requires Valid() && inFlight.Some?
      modifies this`inFlight, store
      ensures Valid() && inFlight == None && state == old(state)
      ensures store.ptr == old(inFlight) && store.applied == old(store.applied) + [old(inFlight).value]
    {
      ghost var coming := Coming();
      assert coming[0] == inFlight.value && coming[0] in coming;
      CommitNext(chain.tree, chain.genesis, store.applied, store.ptr, coming);
      CommitComplete(chain.tree, chain.genesis, wanted, store.applied, store.ptr, coming);
      store.TransactBlock(inFlight.value);
      inFlight := None;
      assert Coming() == coming[1..];
    }

    /** The indexer drops the stream and builds a new one, committing nothing. */
    method Restart()
      requires Valid()
      modifies this
      ensures Valid() && state == New && inFlight == None && previousBlockRangeSize == 1
      ensures previousTriggersPerBlock == 1_000_000.0 && consecutiveErrCount == 0
    {
      NothingComing(chain.tree, chain.genesis, wanted, chain.head, store.ptr, store.applied, Coming());
      state, previousTriggersPerBlock, previousBlockRangeSize := New, 1_000_000.0, 1;
      consecutiveErrCount, inFlight := 0, None;
      assert Coming() == [];
    }

    /** One turn of the loop in `poll`. `interesting` are the numbers of the blocks with triggers, `triggers` how many
        triggers the scanned blocks have; `failed` says that a request failed, `headUpdate` that the head moved. */
    method Turn(node: nat -> Block, interesting: set<nat>, triggers: nat, failed: bool, headUpdate: bool)
      returns (event: TurnEvent)
      requires Valid() && inFlight == None && NodeIsRight(node)
      requires state.Reconciliation? && !failed ==> Scans(node, interesting)
      modifies this, store
      ensures Valid()
      ensures match old(state)
              case New => event == Nothing && state == Reconciliation
              case RetryAfterDelay => event == Nothing && state == Reconciliation
              case Idle => event == Nothing && state == if headUpdate then Reconciliation else Idle
              case YieldingBlocks(queue) =>
                if queue == [] then event == Nothing && state == Reconciliation
                else event == BlockEvent(queue[0]) && state == YieldingBlocks(queue[1..])
              case Reconciliation =>
                Reconciled(chain.tree, chain.genesis, config, old(CurrentView(node)), old(store.applied), failed,
                           state, event, store.ptr, store.applied)
      ensures inFlight == if event.BlockEvent? then Some(event.block) else None
      ensures !old(state).Reconciliation? ==> store.ptr == old(store.ptr) && store.applied == old(store.applied)
    {
      event := Nothing;
      match state {
        case New => state := Reconciliation;
        case RetryAfterDelay => state := Reconciliation;
        case Idle => if headUpdate { state := Reconciliation; }
        case YieldingBlocks(queue) => event := YieldNext(queue);
        case Reconciliation =>
          event := Reconcile(node, interesting, triggers, failed);
      }
    }

    method YieldNext(queue: seq<Block>) returns (event: TurnEvent)
      requires Valid() && inFlight == None && state == YieldingBlocks(queue)
      modifies this`state, this`inFlight
      ensures Valid() && !event.ErrorEvent? && !event.RevertEvent?
      ensures if queue == [] then event == Nothing && state == Reconciliation
              else event == BlockEvent(queue[0]) && state == YieldingBlocks(queue[1..])
      ensures inFlight == if event.BlockEvent? then Some(event.block) else None
    {
      if queue == [] {
        state, event := Reconciliation, Nothing;
      } else {
        ghost var coming := Coming();
        assert InOrder(chain.tree, chain.genesis, wanted, chain.head, store.ptr, store.applied, coming);
        state, inFlight, event := YieldingBlocks(queue[1..]), Some(queue[0]), BlockEvent(queue[0]);
        assert Coming() == coming;
        assert InOrder(chain.tree, chain.genesis, wanted, chain.head, store.ptr, store.applied, Coming());
      }
    }

    method Reconcile(node: nat -> Block, interesting: set<nat>, triggers: nat, failed: bool) returns (event: TurnEvent)
      requires Valid() && state == Reconciliation && inFlight == None && NodeIsRight(node)
      requires !failed ==> Scans(node, interesting)
      modifies this, store
      ensures Valid() && inFlight == None && !event.BlockEvent?
      // Going forward sets how many blocks were looked through, and how many triggers each of them had on average.
      ensures var size := ScanSize(config, old(CurrentView(node)), old(previousTriggersPerBlock),
                                   old(previousBlockRangeSize));
              if state.YieldingBlocks? then
                previousBlockRangeSize == size && previousTriggersPerBlock == triggers as real / size as real
              else
                && previousTriggersPerBlock == old(previousTriggersPerBlock)
                && previousBlockRangeSize == old(previousBlockRangeSize)
      ensures consecutiveErrCount ==
              if failed then old(consecutiveErrCount) + 1
              else if event.RevertEvent? then old(consecutiveErrCount) else 0
      ensures Reconciled(chain.tree, chain.genesis, config, old(CurrentView(node)), old(store.applied), failed,
                         state, event, store.ptr, store.applied)
    {
      if failed {
        consecutiveErrCount := consecutiveErrCount + 1;
        state := RetryAfterDelay;
        return ErrorEvent;
      }
      var v := CurrentView(node);
      var step := NextStep(config, v, interesting, previousTriggersPerBlock, previousBlockRangeSize);
      StepSize(config, v, interesting, previousTriggersPerBlock, previousBlockRangeSize);
      assert Coming() == [];
      StepTaken(chain.tree, chain.genesis, config, v, store.applied, step, interesting, previousTriggersPerBlock,
                previousBlockRangeSize);
      match step {
        case Retry =>
          assert false;
        case Done =>
          consecutiveErrCount := 0;
          state, event := Idle, Nothing;
        case RevertBlock(ptr) =>
          GenesisIsAncestor(chain.tree, chain.genesis, v.head.value.hash);
          GoBack(ptr);
          event := RevertEvent;
        case ProcessDescendantBlocks(blocks, rangeSize) =>
          ForwardComplete(chain.tree, chain.genesis, config, v, wanted, step, interesting, previousTriggersPerBlock,
                          previousBlockRangeSize);
          GoForward(blocks, rangeSize, triggers);
          event := Nothing;
      }
    }

    method GoBack(ptr: Block)
      requires Valid() && state == Reconciliation && inFlight == None && store.ptr == Some(ptr)
      requires ptr.hash != chain.genesis
      requires ptr.parent in chain.tree && chain.tree[ptr.parent].hash == ptr.parent
      requires Consistent(chain.tree, chain.genesis, chain.head, Some(chain.tree[ptr.parent]),
                          Reverted(store.applied, ptr), [])
      modifies store
      ensures Valid() && store.ptr == Some(chain.tree[ptr.parent]) && store.applied == Reverted(old(store.applied), ptr)
    {
      assert Coming() == [];
      RevertComplete(chain.tree, chain.genesis, wanted, store.applied, ptr);
      store.RevertBlockOperations(ptr, chain.tree[ptr.parent]);
    }

    method GoForward(blocks: seq<Block>, rangeSize: nat, triggers: nat)
      requires Valid() && state == Reconciliation && inFlight == None && rangeSize >= 1
      requires InOrder(chain.tree, chain.genesis, wanted, chain.head, store.ptr, store.applied, blocks)
      modifies this
      ensures Valid() && inFlight == None && state == YieldingBlocks(blocks) && consecutiveErrCount == 0
      ensures previousBlockRangeSize == rangeSize && previousTriggersPerBlock == triggers as real / rangeSize as real
    {
      consecutiveErrCount := 0;
      previousTriggersPerBlock := triggers as real / rangeSize as real;
      previousBlockRangeSize := rangeSize;
      state := YieldingBlocks(blocks);
      assert Coming() == blocks;
    }

    /** With the chain head fixed and no request failing, whatever each scan finds, a stream in any state reaches its
        idle state after finitely many turns, and then the subgraph is at the head. */
    method CatchUp(node: nat -> Block, interesting: nat -> set<nat>, triggers: nat -> nat)
      requires Valid() && NodeIsRight(node) && chain.head.Some? && forall turn :: Scans(node, interesting(turn))
      modifies this, store
      ensures Valid() && state == Idle && inFlight == None && store.ptr == Some(chain.tree[chain.head.value])
      ensures Chained(chain.tree, chain.genesis, store.applied)
      ensures AllApplied(chain.tree, chain.genesis, wanted, store.applied, Some(chain.tree[chain.head.value]))
    {
      SetOff(node);
      var turn := 0;
      while state != Idle
        invariant Valid() && inFlight == None && NodeIsRight(node) && Progressing()
        invariant forall t :: Scans(node, interesting(t))
        decreases (Left(node)), Rank(state)
      {
        Round(node, interesting(turn), triggers(turn));
        turn := turn + 1;
      }
    }

    method CommitYielded(ghost node: nat -> Block)
      requires Valid() && inFlight.Some? && NodeIsRight(node) && chain.head.Some?
      modifies this`inFlight, store
      ensures Valid() && inFlight == None && NodeIsRight(node) && store.ptr == old(inFlight)
      ensures CurrentView(node) == old(CurrentView(node)).(ptr := store.ptr)
    {
      ghost var v := CurrentView(node);
      Commit();
      assert CurrentView(node) == v.(ptr := store.ptr);
    }

    /** The block at hand is committed, and an idle stream learns that the head moved. */
    method SetOff(node: nat -> Block)
      requires Valid() && NodeIsRight(node) && chain.head.Some?
      modifies this, store
      ensures Valid() && inFlight == None && NodeIsRight(node) && Progressing()
    {
      ghost var v := CurrentView(node);
      if inFlight.Some? { CommitYielded(node); }
      if state == Idle { var _ := Turn(node, {}, 0, false, true); }
      assert CurrentView(node) == v.(ptr := store.ptr);
      DestinationKnown();
    }

    lemma DestinationKnown()
      requires Valid() && inFlight == None
      ensures Known(chain.tree, Destination(store.ptr, state))
    {
      if state.YieldingBlocks? { assert Coming() == state.queue; }
    }

    /** On the way to the head, or there. */
    ghost predicate Progressing()
      reads this, chain, store
      requires Valid() && chain.head.Some?
    {
      && (state == Idle ==> store.ptr == Some(chain.tree[chain.head.value]))
      && Known(chain.tree, Destination(store.ptr, state))
    }

    /** How far the destination is from the head. */
    ghost function Left(node: nat -> Block): nat
      reads this, chain, store
      requires Valid() && chain.head.Some? && NodeIsRight(node) && Progressing()
    {
      Distance(chain.tree, chain.genesis, CurrentView(node).(ptr := Destination(store.ptr, state)))
    }

    /** A turn, and the commit of the block it yields. */
    method Round(node: nat -> Block, interesting: set<nat>, triggers: nat)
      requires Valid() && inFlight == None && NodeIsRight(node) && chain.head.Some? && Progressing() && state != Idle
      requires Scans(node, interesting)
      modifies this, store
      ensures Valid() && inFlight == None && NodeIsRight(node) && Progressing()
      ensures Left(node) < old(Left(node)) || (Left(node) == old(Left(node)) && Rank(state) < old(Rank(state)))
    {
      ghost var v := CurrentView(node);
      if state == Reconciliation {
        ReconcileRound(node, interesting, triggers);
      } else if state.YieldingBlocks? && state.queue != [] {
        YieldRound(node, interesting, triggers);
      } else {
        var _ := Turn(node, interesting, triggers, false, false);
        assert CurrentView(node) == v;
      }
    }

    method ReconcileRound(node: nat -> Block, interesting: set<nat>, triggers: nat)
      requires Valid() && inFlight == None && NodeIsRight(node) && chain.head.Some? && Progressing()
      requires state == Reconciliation && Scans(node, interesting)
      modifies this, store
      ensures Valid() && inFlight == None && NodeIsRight(node) && Progressing()
      ensures Left(node) < old(Left(node)) || (Left(node) == old(Left(node)) && state == Idle)
    {
      ghost var v, applied := CurrentView(node), store.applied;
      var event := Turn(node, interesting, triggers, false, false);
      ReconciledCloser(chain.tree, chain.genesis, config, v, applied, state, event, store.ptr, store.applied);
      assert CurrentView(node) == v.(ptr := store.ptr);
    }

    method YieldRound(node: nat -> Block, interesting: set<nat>, triggers: nat)
      requires Valid() && inFlight == None && NodeIsRight(node) && chain.head.Some? && Progressing()
      requires state.YieldingBlocks? && state.queue != []
      modifies this, store
      ensures Valid() && inFlight == None && NodeIsRight(node) && Progressing()
      ensures Left(node) == old(Left(node)) && Rank(state) < old(Rank(state))
    {
      ghost var v, before := CurrentView(node), state;
      var _ := Turn(node, interesting, triggers, false, false);
      CommitYielded(node);
      assert Destination(store.ptr, state) == Destination(v.ptr, before);
      assert CurrentView(node) == v.(ptr := store.ptr);
    }
  }
}
