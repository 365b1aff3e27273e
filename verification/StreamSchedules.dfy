/** Whole runs of a block stream, its indexer, the ingestor and other processes, in any order
    (packages/graph-node/chain/ethereum/src/block_stream.rs with
    packages/graph-node/chain/ethereum/src/block_ingestor.rs). */
module StreamSchedules {
  import opened Common
  import opened BlockTree
  import opened ChainStores
  import opened BlockStreams
  import opened StreamRuns

  /** A step of somebody: the stream is polled, the indexer commits the block at hand or builds a new stream, the
      ingestor polls the node, or another process moves the head. What the node answers may depend on the head. */
  datatype Action =
    | PollStream(node: (Hash, nat) -> Block, interesting: set<nat>, triggers: nat, failed: bool, headUpdate: bool)
    | CommitBlock
    | RestartStream
    | PollNode(latestHeader: Hash, latest: Block, available: Blocks, ancestorCount: nat)
    | MoveHead(to: Hash, blocks: Blocks)

  /** The node is right about what is beyond the reorg threshold, and everybody keeps enough blocks. */
  ghost predicate Possible(chain: ChainStore, c: Config, wanted: Block -> bool, a: Action)
    requires IsTree(chain.tree, chain.genesis)
  {
    match a
    case PollStream(node, interesting, _, failed, _) =>
      forall h :: h in chain.tree ==> NodeRight(chain, c, wanted, node, if failed then None else Some(interesting), h)
    case PollNode(_, latest, available, ancestorCount) =>
      ancestorCount == chain.kept && Stores(chain.tree, available) && Known(chain.tree, Some(latest))
    case MoveHead(to, blocks) =>
      to in chain.tree && Stores(chain.tree, blocks) && StoredDown(chain.tree, chain.genesis, blocks, to, chain.kept)
    case _ => true
  }

  /** The node as it is while `head` is the head. */
  function NodeAt(node: (Hash, nat) -> Block, head: Option<Hash>, genesis: Hash): nat -> Block {
    (n: nat) => node(if head.Some? then head.value else genesis, n)
  }

  ghost predicate NodeRight(chain: ChainStore, c: Config, wanted: Block -> bool, node: (Hash, nat) -> Block,
                            interesting: Option<set<nat>>, h: Hash)
    requires IsTree(chain.tree, chain.genesis) && h in chain.tree
  {
    && RightBelow(chain.tree, chain.genesis, c.threshold, h, NodeAt(node, Some(h), chain.genesis))
    && (interesting.Some? ==> forall n :: 0 <= n <= chain.tree[h].number && wanted(node(h, n)) ==>
       n in interesting.value)
  }

  /** The stream and the stores between two steps. */
  datatype Snapshot = Snapshot(head: Option<Hash>, ptr: Option<Block>, applied: seq<Block>, coming: seq<Block>)

  ghost function Now(s: BlockStream): Snapshot
    reads s, s.chain, s.store
  {
    Snapshot(s.chain.head, s.store.ptr, s.store.applied, s.Coming())
  }

  ghost predicate Sound(tree: Blocks, genesis: Hash, wanted: Block -> bool, s: Snapshot)
    requires IsTree(tree, genesis)
  {
    InOrder(tree, genesis, wanted, s.head, s.ptr, s.applied, s.coming)
  }

  /** What one step does to the pointer, the applied blocks and the head. */
  ghost predicate Follows(tree: Blocks, genesis: Hash, s: Snapshot, t: Snapshot)
    requires IsTree(tree, genesis)
  {
    || (t.ptr == s.ptr && t.applied == s.applied && HeadRose(tree, s.head, t.head))
    || (t.head == s.head && s.coming != [] && t.ptr == Some(s.coming[0]) && t.applied == s.applied + [s.coming[0]])
    || (t.head == s.head && Undone(tree, genesis, s, t))
  }

  ghost predicate HeadRose(tree: Blocks, before: Option<Hash>, after: Option<Hash>) {
    after == before ||
    (after.Some? && after.value in tree &&
     (before.Some? ==> before.value in tree && tree[before.value].number < tree[after.value].number))
  }

  /** The pointer, off the chain of the head, went to its parent; if its block was applied, that was undone. */
  ghost predicate Undone(tree: Blocks, genesis: Hash, s: Snapshot, t: Snapshot)
    requires IsTree(tree, genesis)
  {
    && s.ptr.Some? && s.ptr.value.hash in tree && s.ptr.value.parent in tree
    && s.head.Some? && s.head.value in tree && !IsAncestor(tree, genesis, s.ptr.value.hash, s.head.value)
    && t.ptr == Some(tree[s.ptr.value.parent]) && t.applied == Reverted(s.applied, s.ptr.value)
  }

  ghost predicate IsRun(tree: Blocks, genesis: Hash, wanted: Block -> bool, run: seq<Snapshot>)
    requires IsTree(tree, genesis)
  {
    && (forall i :: 0 <= i < |run| ==> SoundAt(tree, genesis, wanted, run, i))
    && forall i :: 0 < i < |run| ==> FollowsAt(tree, genesis, run, i)
  }

  ghost predicate SoundAt(tree: Blocks, genesis: Hash, wanted: Block -> bool, run: seq<Snapshot>, i: nat)
    requires IsTree(tree, genesis) && i < |run|
  {
    Sound(tree, genesis, wanted, run[i])
  }

  ghost predicate FollowsAt(tree: Blocks, genesis: Hash, run: seq<Snapshot>, i: nat)
    requires IsTree(tree, genesis) && 0 < i < |run|
  {
    Follows(tree, genesis, run[i - 1], run[i])
  }

  /** Block `f` is on the chain of the head. */
  ghost predicate Under(tree: Blocks, genesis: Hash, f: Hash, head: Option<Hash>)
    requires IsTree(tree, genesis) && f in tree
  {
    head.Some? && head.value in tree && IsAncestor(tree, genesis, f, head.value)
  }

  /** From `s` on the pointer stayed where it was or went up, and nothing was undone. */
  ghost predicate Extends(tree: Blocks, genesis: Hash, s: Snapshot, t: Snapshot)
    requires IsTree(tree, genesis)
  {
    && s.applied <= t.applied && s.ptr.Some? && t.ptr.Some? && s.ptr.value.hash in tree && t.ptr.value.hash in tree
    && IsAncestor(tree, genesis, s.ptr.value.hash, t.ptr.value.hash)
  }

  lemma StepExtends(tree: Blocks, genesis: Hash, first: Snapshot, s: Snapshot, t: Snapshot)
    requires IsTree(tree, genesis) && AppliedBelow(tree, genesis, first.applied, first.ptr)
    requires Consistent(tree, genesis, s.head, s.ptr, s.applied, s.coming) && Follows(tree, genesis, s, t)
    requires Extends(tree, genesis, first, s) && Under(tree, genesis, first.ptr.value.hash, t.head)
    ensures Extends(tree, genesis, first, t)
  {
    var f, ptr := first.ptr.value, s.ptr.value;
    if s.coming != [] && t.ptr == Some(s.coming[0]) && t.applied == s.applied + [s.coming[0]] {
      AncestorTransitive(tree, genesis, f.hash, ptr.hash, s.coming[0].hash);
    } else if t.head == s.head && Undone(tree, genesis, s, t) {
      GenesisIsAncestor(tree, genesis, s.head.value);
      ParentIsAncestor(tree, genesis, ptr.hash);
      assert f.number < ptr.number;
      AncestorsOrdered(tree, genesis, f.hash, ptr.parent, ptr.hash);
      if s.applied != [] && s.applied[|s.applied| - 1] == ptr {
        assert |first.applied| < |s.applied|;
      }
    }
  }

  /** Once the pointer is on a block that is on the chain of every later head, it stays there or above, and what was
      applied by then stays applied, whatever happens in between. */
  lemma {:induction false} NeverUndone(tree: Blocks, genesis: Hash, wanted: Block -> bool, run: seq<Snapshot>,
                                       i: nat, j: nat)
    requires IsTree(tree, genesis) && IsRun(tree, genesis, wanted, run) && i <= j < |run| && run[i].ptr.Some?
    requires run[i].ptr.value.hash in tree
    requires forall k :: i < k <= j ==> Under(tree, genesis, run[i].ptr.value.hash, run[k].head)
    ensures Extends(tree, genesis, run[i], run[j])
  {
    if i == j {
      ExtendsItself(tree, genesis, run[i]);
    } else {
      NeverUndone(tree, genesis, wanted, run, i, j - 1);
      AtStep(tree, genesis, wanted, run, i);
      AtStep(tree, genesis, wanted, run, j - 1);
      assert Under(tree, genesis, run[i].ptr.value.hash, run[j].head);
      StepExtends(tree, genesis, run[i], run[j - 1], run[j]);
    }
  }

  lemma ExtendsItself(tree: Blocks, genesis: Hash, s: Snapshot)
    requires IsTree(tree, genesis) && s.ptr.Some? && s.ptr.value.hash in tree
    ensures Extends(tree, genesis, s, s)
  {}

  lemma AtStep(tree: Blocks, genesis: Hash, wanted: Block -> bool, run: seq<Snapshot>, i: nat)
    requires IsTree(tree, genesis) && IsRun(tree, genesis, wanted, run) && i < |run|
    ensures AppliedBelow(tree, genesis, run[i].applied, run[i].ptr)
    ensures Consistent(tree, genesis, run[i].head, run[i].ptr, run[i].applied, run[i].coming)
    ensures i + 1 < |run| ==> Follows(tree, genesis, run[i], run[i + 1])
  {
    assert SoundAt(tree, genesis, wanted, run, i);
    if i + 1 < |run| { assert FollowsAt(tree, genesis, run, i + 1); }
  }

  // ---------- Runs of the stream

  /** One step, if it can be taken now. */
  method Act(s: BlockStream, a: Action)
    requires s.Valid() && Possible(s.chain, s.config, s.wanted, a)
    modifies s, s.store, s.chain`head, s.chain`blocks
    ensures s.Valid() && Follows(s.chain.tree, s.chain.genesis, old(Now(s)), Now(s))
  {
    match a {
      case PollStream(_, _, _, _, _) =>
        if s.inFlight == None { Poll(s, a); }
      case CommitBlock => if s.inFlight.Some? { s.Commit(); }
      case RestartStream => s.Restart();
      case PollNode(latestHeader, latest, available, ancestorCount) =>
        Ingest(s, latestHeader, latest, available, ancestorCount);
      case MoveHead(to, blocks) =>
        if s.chain.head.None? || s.chain.tree[s.chain.head.value].number < s.chain.tree[to].number {
          s.HeadMoved(to, blocks);
        }
    }
  }

  method Poll(s: BlockStream, a: Action)
    requires s.Valid() && s.inFlight == None && a.PollStream? && Possible(s.chain, s.config, s.wanted, a)
    modifies s, s.store
    ensures s.Valid() && Follows(s.chain.tree, s.chain.genesis, old(Now(s)), Now(s))
  {
    RightNow(s, a);
    var _ := s.Turn(NodeAt(a.node, s.chain.head, s.chain.genesis), a.interesting, a.triggers, a.failed, a.headUpdate);
  }

  /** What is possible for every head is right for the one there is. */
  lemma RightNow(s: BlockStream, a: Action)
    requires s.Valid() && Possible(s.chain, s.config, s.wanted, a) && a.PollStream?
    ensures s.NodeIsRight(NodeAt(a.node, s.chain.head, s.chain.genesis))
    ensures !a.failed ==> s.Scans(NodeAt(a.node, s.chain.head, s.chain.genesis), a.interesting)
  {
    if h :| s.chain.head == Some(h) {
      assert NodeRight(s.chain, s.config, s.wanted, a.node, if a.failed then None else Some(a.interesting), h);
    }
  }

  method Ingest(s: BlockStream, latestHeader: Hash, latest: Block, available: Blocks, ancestorCount: nat)
    requires s.Valid() && Possible(s.chain, s.config, s.wanted,
                                   PollNode(latestHeader, latest, available, ancestorCount))
    modifies s.chain`head, s.chain`blocks
    ensures s.Valid() && Follows(s.chain.tree, s.chain.genesis, old(Now(s)), Now(s))
    ensures s.store.applied == old(s.store.applied)
  {
    ghost var before := Now(s);
    var _, _ := s.chain.DoPoll(latestHeader, latest, available, ancestorCount);
    if s.chain.head != before.head {
      HeadRises(s.chain.tree, s.chain.genesis, before.head, s.chain.head.value, s.store.ptr, s.store.applied,
                s.Coming());
    }
  }

  /** Under every schedule, after every step: the applied blocks are one chain up to the pointer, no block with triggers
      is missing among them, and blocks are undone only while they are off the chain of the head. */
  method EveryRun(s: BlockStream, schedule: seq<Action>) returns (ghost run: seq<Snapshot>)
    requires s.Valid() && forall a :: a in schedule ==> Possible(s.chain, s.config, s.wanted, a)
    modifies s, s.store, s.chain`head, s.chain`blocks
    ensures s.Valid() && |run| == |schedule| + 1 && run[0] == old(Now(s)) && run[|schedule|] == Now(s)
    ensures IsRun(s.chain.tree, s.chain.genesis, s.wanted, run)
  {
    run := [Now(s)];
    assert SoundAt(s.chain.tree, s.chain.genesis, s.wanted, run, 0);
    for i := 0 to |schedule|
      invariant s.Valid() && |run| == i + 1 && run[0] == old(Now(s)) && run[i] == Now(s)
      invariant IsRun(s.chain.tree, s.chain.genesis, s.wanted, run)
    {
      Act(s, schedule[i]);
      assert Sound(s.chain.tree, s.chain.genesis, s.wanted, Now(s));
      RunLonger(s.chain.tree, s.chain.genesis, s.wanted, run, Now(s));
      run := run + [Now(s)];
    }
  }

  lemma RunLonger(tree: Blocks, genesis: Hash, wanted: Block -> bool, run: seq<Snapshot>, s: Snapshot)
    requires IsTree(tree, genesis) && IsRun(tree, genesis, wanted, run) && run != []
    requires Sound(tree, genesis, wanted, s) && Follows(tree, genesis, run[|run| - 1], s)
    ensures IsRun(tree, genesis, wanted, run + [s])
  {
    var longer := run + [s];
    forall i | 0 <= i < |longer|
      ensures SoundAt(tree, genesis, wanted, longer, i)
    {
      if i < |run| { assert SoundAt(tree, genesis, wanted, run, i); }
    }
    forall i | 0 < i < |longer|
      ensures FollowsAt(tree, genesis, longer, i)
    {
      if i < |run| { assert FollowsAt(tree, genesis, run, i); }
    }
  }
}
