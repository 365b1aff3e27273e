/** The store of recent blocks, and the ingestor that fills it and moves the chain head
    (packages/graph-node/chain/ethereum/src/block_ingestor.rs, with the contracts of `ChainStore` in
    packages/graph-node/graph/src/components/store.rs). */
module ChainStores {
  import opened Common
  import opened BlockTree

  /** The `offset`th ancestor of `h` found by following parent hashes through the stored blocks. */
  function AncestorBlock(blocks: Blocks, h: Hash, offset: nat): Option<Block>
    decreases offset
  {
    if h !in blocks then None
    else if offset == 0 then Some(blocks[h])
    else AncestorBlock(blocks, blocks[h].parent, offset - 1)
  }

  /** The stored blocks are blocks of the network. */
  ghost predicate Stores(tree: Blocks, blocks: Blocks) {
    forall h :: h in blocks ==> h in tree && blocks[h] == tree[h]
  }

  /** `h` and its `count` most recent ancestors, as far as there are any, are stored. */
  ghost predicate StoredDown(tree: Blocks, genesis: Hash, blocks: Blocks, h: Hash, count: nat)
    requires IsTree(tree, genesis) && h in tree
  {
    forall n :: 0 <= n <= tree[h].number && tree[h].number <= n + count ==> AncestorAt(tree, genesis, h, n) in blocks
  }

  /** Looking up an ancestor that is stored with everything above it succeeds, and finds that ancestor. */
  lemma {:induction false} AncestorBlockFound(tree: Blocks, genesis: Hash, blocks: Blocks, h: Hash, count: nat,
                                              offset: nat)
    requires IsTree(tree, genesis) && h in tree && Stores(tree, blocks)
    requires StoredDown(tree, genesis, blocks, h, count) && offset <= count && offset <= tree[h].number
    ensures AncestorBlock(blocks, h, offset) == Some(tree[AncestorAt(tree, genesis, h, tree[h].number - offset)])
    decreases offset
  {
    assert AncestorAt(tree, genesis, h, tree[h].number) in blocks;
    if offset > 0 {
      assert Linked(tree, genesis, h);
      var p := tree[h].parent;
      forall n | 0 <= n <= tree[p].number && tree[p].number <= n + (count - 1)
        ensures AncestorAt(tree, genesis, p, n) in blocks
      {
        assert AncestorAt(tree, genesis, h, n) in blocks;
      }
      AncestorBlockFound(tree, genesis, blocks, p, count - 1, offset - 1);
    }
  }

  /** A stored block is above its parent, if that is stored. */
  ghost predicate Descending(blocks: Blocks, genesis: Hash) {
    forall h :: h in blocks && h != genesis && blocks[h].parent in blocks ==>
      blocks[blocks[h].parent].number < blocks[h].number
  }

  /** The highest missing block on the way from `h` down to number `low`: the recursive query inside
      `attempt_chain_head_update`, which always looks at the parent of its first block. */
  function FirstMissing(blocks: Blocks, genesis: Hash, h: Hash, low: nat): Option<Hash>
    requires h in blocks && Descending(blocks, genesis)
    decreases blocks[h].number
  {
    if h == genesis then None else
    var p := blocks[h].parent;
    if p !in blocks then Some(p)
    else if blocks[p].number <= low || p == genesis then None
    else FirstMissing(blocks, genesis, p, low)
  }

  /** `m` is the highest block missing on the way from `h` down. */
  ghost predicate MissingBelow(tree: Blocks, genesis: Hash, blocks: Blocks, h: Hash, m: Hash)
    requires IsTree(tree, genesis) && h in tree
  {
    && m in tree && m !in blocks && IsAncestor(tree, genesis, m, h) && m != h
    && forall n :: tree[m].number < n <= tree[h].number ==> AncestorAt(tree, genesis, h, n) in blocks
  }

  lemma StoredDescending(tree: Blocks, genesis: Hash, blocks: Blocks)
    requires IsTree(tree, genesis) && Stores(tree, blocks)
    ensures Descending(blocks, genesis)
  {
    forall h | h in blocks && h != genesis && blocks[h].parent in blocks
      ensures blocks[blocks[h].parent].number < blocks[h].number
    {
      assert Linked(tree, genesis, h);
    }
  }

  lemma {:induction false} FirstMissingMeaning(tree: Blocks, genesis: Hash, blocks: Blocks, h: Hash, low: nat)
    requires IsTree(tree, genesis) && Stores(tree, blocks) && h in blocks
    ensures Descending(blocks, genesis)
    ensures match FirstMissing(blocks, genesis, h, low)
            case None => forall n :: low <= n <= tree[h].number ==> AncestorAt(tree, genesis, h, n) in blocks
            case Some(m) =>
              MissingBelow(tree, genesis, blocks, h, m)
                && (low <= tree[m].number || tree[m].number + 1 == tree[h].number)
    decreases tree[h].number
  {
    StoredDescending(tree, genesis, blocks);
    assert Linked(tree, genesis, h);
    if h != genesis {
      var p := tree[h].parent;
      ParentIsAncestor(tree, genesis, h);
      assert Linked(tree, genesis, p);
      assert AncestorAt(tree, genesis, h, tree[p].number) == p;
      if p in blocks && tree[p].number > low && p != genesis {
        FirstMissingMeaning(tree, genesis, blocks, p, low);
        assert forall n :: 0 <= n <= tree[p].number ==>
          AncestorAt(tree, genesis, h, n) == AncestorAt(tree, genesis, p, n);
        if m :| FirstMissing(blocks, genesis, p, low) == Some(m) {
          AncestorTransitive(tree, genesis, m, p, h);
        }
      }
    }
  }

  /** Once a missing block is stored, the next one missing is further down. */
  lemma NextMissingIsLower(tree: Blocks, genesis: Hash, blocks: Blocks, blocks': Blocks, h: Hash, m: Hash, m': Hash)
    requires IsTree(tree, genesis) && h in tree
    requires MissingBelow(tree, genesis, blocks, h, m) && MissingBelow(tree, genesis, blocks', h, m')
    requires m in blocks' && blocks.Keys <= blocks'.Keys
    ensures tree[m'].number < tree[m].number
  {
    assert AncestorAt(tree, genesis, h, tree[m'].number) == m';
  }

  /** Whether `a` is a better chain head than `b`: higher, or the first of several equally high blocks. */
  predicate Better(a: Block, b: Block) {
    a.number > b.number || (a.number == b.number && a.hash.bits <= b.hash.bits)
  }

  predicate IsCandidate(blocks: Blocks, h: Hash) {
    h in blocks && forall x :: x in blocks ==> Better(blocks[h], blocks[x])
  }

  lemma {:induction false} CandidateExists(blocks: Blocks)
    requires blocks != map[]
    ensures exists h :: IsCandidate(blocks, h)
    decreases |blocks|
  {
    var h :| h in blocks;
    var rest := blocks - {h};
    if rest == map[] {
      forall x | x in blocks
        ensures x == h
      {
        assert x != h ==> x in rest;
      }
      assert IsCandidate(blocks, h);
    } else {
      CandidateExists(rest);
      var c :| IsCandidate(rest, c);
      var best := if Better(blocks[h], blocks[c]) then h else c;
      forall x | x in blocks
        ensures Better(blocks[best], blocks[x])
      {
        assert x != h ==> x in rest;
      }
      assert IsCandidate(blocks, best);
    }
  }

  /** A missing block that keeps candidate `c` from becoming the head: it is among the `count` most recent ancestors,
      or the parent, which is looked at even for a count of 0. */
  ghost predicate HoldsBack(tree: Blocks, genesis: Hash, blocks: Blocks, c: Hash, m: Hash, count: nat)
    requires IsTree(tree, genesis)
  {
    && Stores(tree, blocks) && IsCandidate(blocks, c)
    && MissingBelow(tree, genesis, blocks, c, m)
    && (tree[c].number <= tree[m].number + count || tree[m].number + 1 == tree[c].number)
  }

  /** Storing the missing block leaves the candidate what it was, and whatever is missing next is further down. */
  lemma FilledIn(tree: Blocks, genesis: Hash, blocks: Blocks, c: Hash, m: Hash, count: nat, c': Hash, m': Hash)
    requires IsTree(tree, genesis) && HoldsBack(tree, genesis, blocks, c, m, count)
    requires HoldsBack(tree, genesis, blocks[m := tree[m]], c', m', count)
    ensures c' == c && tree[m'].number < tree[m].number
  {
    var blocks' := blocks[m := tree[m]];
    assert Better(blocks'[c'], blocks'[c]);
    assert tree[m].number < tree[c].number;
    assert Better(blocks[c], blocks[c']);
    NextMissingIsLower(tree, genesis, blocks, blocks', c, m, m');
  }

  datatype IngestError = BlockUnavailable(hash: Hash) | AdapterError

  class ChainStore {
    /** All blocks of the network, stored or not. */
    const tree: Blocks
    const genesis: Hash
    var blocks: Blocks
    var head: Option<Hash>
    /** How many ancestors of the head are kept, as the ingestor was told. */
    ghost const kept: nat

    ghost predicate Valid()
      reads this
    {
      && IsTree(tree, genesis)
      && Stores(tree, blocks)
      && (head.Some? ==> head.value in tree && StoredDown(tree, genesis, blocks, head.value, kept))
    }

    /** The head has the highest number of all stored blocks. */
    predicate HeadIsHighest()
      reads this
    {
      forall h :: h in blocks ==> head.Some? && head.value in blocks && blocks[h].number <= blocks[head.value].number
    }

    constructor (tree: Blocks, genesis: Hash, ghost kept: nat)
      requires IsTree(tree, genesis)
      ensures Valid() && this.tree == tree && this.genesis == genesis && this.kept == kept
      ensures blocks == map[] && head == None
    {
      this.tree, this.genesis, this.kept := tree, genesis, kept;
      blocks, head := map[], None;
    }

    method UpsertBlock(b: Block)
      requires Valid() && b.hash in tree && tree[b.hash] == b
      modifies this`blocks
      ensures Valid() && blocks == old(blocks)[b.hash := b]
    {
      blocks := blocks[b.hash := b];
    }

    /** Since `before`, the head stayed or moved up. */
    ghost predicate HeadMovedUpFrom(before: Option<Hash>)
      reads this
    {
      head == before ||
      (head.Some? && head.value in tree &&
       (before.Some? ==> before.value in tree && tree[before.value].number < tree[head.value].number))
    }

    /** Moves the head to the best stored block if that is higher and its `ancestorCount` most recent ancestors are
        stored; otherwise reports a missing one. */
    method AttemptChainHeadUpdate(ancestorCount: nat) returns (missing: Option<Hash>, ghost c: Hash)
      requires Valid() && kept == ancestorCount
      modifies this`head
      ensures Valid() && HeadMovedUpFrom(old(head))
      ensures missing.None? ==> HeadIsHighest()
      ensures head != old(head) ==>
                head.Some? && head.value in blocks &&
                forall h :: h in blocks && blocks[h].number == blocks[head.value].number ==> head.value.bits <= h.bits
      ensures missing.Some? ==> head == old(head) && HoldsBack(tree, genesis, blocks, c, missing.value, ancestorCount)
    {
      c := genesis;
      assert head.Some? ==> AncestorAt(tree, genesis, head.value, tree[head.value].number) in blocks;
      if blocks == map[] { return None, c; }
      CandidateExists(blocks);
      var best :| best in blocks && IsCandidate(blocks, best);
      c := best;
      if head.Some? && blocks[best].number <= blocks[head.value].number { return None, c; }
      var low := if blocks[best].number > ancestorCount then blocks[best].number - ancestorCount else 0;
      FirstMissingMeaning(tree, genesis, blocks, best, low);
      missing := FirstMissing(blocks, genesis, best, low);
      if missing.None? { head := Some(best); }
    }

    /** One poll of the ingestor for the latest block the node reports. `available` are the blocks the node serves;
        `rounds` counts how often missing parents were fetched. */
    method DoPoll(latestHeader: Hash, latest: Block, available: Blocks, ancestorCount: nat)
      returns (r: Result<bool, IngestError>, rounds: nat)
      requires Valid() && kept == ancestorCount
      requires Stores(tree, available) && latest.hash in tree && tree[latest.hash] == latest
      modifies this`blocks, this`head
      ensures Valid() && HeadMovedUpFrom(old(head)) && old(blocks).Keys <= blocks.Keys
      ensures rounds <= if ancestorCount == 0 then 1 else ancestorCount
      ensures r == Ok(false) <==> Some(latestHeader) == old(head)
      ensures r == Ok(true) ==> latest.hash in blocks && HeadIsHighest()
      ensures r.Err? ==> r.error.BlockUnavailable? && r.error.hash !in available
    {
      rounds := 0;
      if Some(latestHeader) == head { return Ok(false), 0; }
      UpsertBlock(latest);
      var missing: Option<Hash>;
      ghost var c;
      missing, c := AttemptChainHeadUpdate(ancestorCount);
      while missing.Some?
        invariant Valid() && old(blocks).Keys <= blocks.Keys && latest.hash in blocks && HeadMovedUpFrom(old(head))
        invariant missing.None? ==> HeadIsHighest()
        invariant missing.Some? ==>
                    && head == old(head)
                    && HoldsBack(tree, genesis, blocks, c, missing.value, ancestorCount)
                    && tree[missing.value].number + rounds < tree[c].number
        invariant rounds <= if ancestorCount == 0 then 1 else ancestorCount
        decreases if missing.Some? then tree[missing.value].number + 1 else 0
      {
        var m := missing.value;
        if m !in available { return Err(BlockUnavailable(m)), rounds; }
        ghost var before, best := blocks, c;
        UpsertBlock(available[m]);
        missing, c := AttemptChainHeadUpdate(ancestorCount);
        rounds := rounds + 1;
        if missing.Some? {
          FilledIn(tree, genesis, before, best, m, ancestorCount, c, missing.value);
        }
      }
      r := Ok(true);
    }
  }
}
