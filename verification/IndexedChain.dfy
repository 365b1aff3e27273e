/** The block stream and the indexing loop together: what the store of a subgraph holds after any number of turns
    (packages/graph-node/core/src/subgraph/instance_manager.rs on top of
    packages/graph-node/chain/ethereum/src/block_stream.rs). */
module IndexedChain {
  import opened Common
  import opened Entities
  import opened BlockTree
  import opened ChainStores
  import opened StreamRuns
  import opened StreamSchedules
  import BlockStreams
  import Indexing

  /** The mappings for a block: which data sources there are depends on what is stored. */
  type Mappings = (Block, Rows) -> Indexing.Mapping

  /** What is stored once the mappings have run for these blocks, one after the other, on an empty store. */
  function RowsOf(mappings: Mappings, applied: seq<Block>): Rows {
    if applied == [] then map[] else
    var before := RowsOf(mappings, applied[..|applied| - 1]);
    Indexing.Changed(before, mappings(applied[|applied| - 1], before))
  }

  /** The store is what the applied blocks make of it, and knows what it was before each of them. */
  ghost predicate Rebuilt(mappings: Mappings, applied: seq<Block>, rows: Rows, earlier: seq<Rows>) {
    && rows == RowsOf(mappings, applied) && |earlier| == |applied|
    && forall i :: 0 <= i < |applied| ==> earlier[i] == RowsOf(mappings, applied[..i])
  }

  lemma RebuiltNext(mappings: Mappings, applied: seq<Block>, rows: Rows, earlier: seq<Rows>, b: Block)
    requires Rebuilt(mappings, applied, rows, earlier)
    ensures Rebuilt(mappings, applied + [b], Indexing.Changed(rows, mappings(b, rows)), earlier + [rows])
  {
    var applied' := applied + [b];
    assert applied'[..|applied|] == applied;
    forall i | 0 <= i < |applied'|
      ensures (earlier + [rows])[i] == RowsOf(mappings, applied'[..i])
    {
      if i < |applied| { assert applied'[..i] == applied[..i]; }
    }
  }

  lemma RebuiltBack(mappings: Mappings, applied: seq<Block>, rows: Rows, earlier: seq<Rows>)
    requires Rebuilt(mappings, applied, rows, earlier) && applied != []
    ensures Rebuilt(mappings, applied[..|applied| - 1], earlier[|applied| - 1], earlier[..|applied| - 1])
  {
    var rest := applied[..|applied| - 1];
    forall i | 0 <= i < |rest|
      ensures earlier[..|applied| - 1][i] == RowsOf(mappings, rest[..i])
    {
      assert rest[..i] == applied[..i];
    }
  }

  class IndexedSubgraph {
    const mappings: Mappings
    const stream: BlockStream
    const indexer: Indexing.IndexingContext
    /** The versions of the store before each applied block, as far as they can be gone back to. */
    var earlier: seq<Rows>

    ghost predicate StoreRight()
      reads this, stream, stream.store, indexer, indexer.store`rows
    {
      Rebuilt(mappings, stream.store.applied, indexer.store.rows, earlier)
    }

    ghost predicate Valid()
      reads this, stream, stream.chain, stream.store, indexer, indexer.store`rows, indexer.entityLfuCache
    {
      stream.Valid() && stream.inFlight == None && indexer.Valid() && StoreRight()
    }

    /** The rows are what running the mappings for the applied blocks in order on an empty store gives; the applied
        blocks are one chain, and up to the pointer no block with triggers is missing among them. */
    ghost predicate Right()
      reads this, stream, stream.chain, stream.store, indexer, indexer.store`rows
    {
      && stream.Valid() && indexer.store.rows == RowsOf(mappings, stream.store.applied)
      && BlockStreams.Chained(stream.chain.tree, stream.chain.genesis, stream.store.applied)
      && AllApplied(stream.chain.tree, stream.chain.genesis, stream.wanted, stream.store.applied, stream.store.ptr)
    }

    /** A subgraph that has not indexed anything yet. */
    constructor (mappings: Mappings, stream: BlockStream, indexer: Indexing.IndexingContext)
      requires stream.Valid() && stream.inFlight == None && stream.store.applied == []
      requires indexer.Valid() && indexer.store.rows == map[]
      ensures Valid() && this.mappings == mappings && this.stream == stream && this.indexer == indexer
    {
      this.mappings, this.stream, this.indexer, this.earlier := mappings, stream, indexer, [];
    }

    /** All queries since the one of that number were answered. */
    ghost predicate Answered(since: nat)
      reads indexer.store`queries
    {
      indexer.store.Answered(since, indexer.store.queries)
    }

    /** The stream yields a block that ends the run: its mappings fail, the stream was shut down, the write fails or the
        store does not answer. */
    ghost predicate EndsRun(state: StreamState, fate: Indexing.Fate, rows: Rows, answered: bool) {
      && state.YieldingBlocks? && state.queue != []
      && (!answered || Indexing.PlayBlock(rows, mappings(state.queue[0], rows), fate).1.Over?)
    }

    /** The run ended at the block at hand, with nothing of it in the store. */
    ghost predicate Stopped(fate: Indexing.Fate, answered: bool)
      reads stream, indexer, indexer.store`rows
    {
      && stream.inFlight.Some?
      && (answered ==>
            Indexing.PlayBlock(indexer.store.rows, mappings(stream.inFlight.value, indexer.store.rows), fate).1.Over?)
    }

    /** A block that does not end the run is applied unless it is tried again; the stream is rebuilt if it is, and if
        the block created data sources. */
    ghost predicate Handled(queue: seq<Block>, fate: Indexing.Fate, rows: Rows, answered: bool, applied: seq<Block>,
                            over: bool, state: StreamState, applied': seq<Block>)
      requires queue != []
    {
      var m := mappings(queue[0], rows);
      && over == EndsRun(YieldingBlocks(queue), fate, rows, answered)
      && applied' == (if over || Indexing.OwnEnd(m, rows, Indexing.PossibleReorg) then applied
                      else applied + [queue[0]])
      && state == (if !over && Indexing.Rebuilds(rows, Indexing.Block(m, fate)) then New
                   else YieldingBlocks(queue[1..]))
    }

    /** One turn of the stream, and what the indexer makes of its event. */
    method Turn(node: nat -> Block, interesting: set<nat>, triggers: nat, failed: bool, headUpdate: bool,
                fate: Indexing.Fate)
      returns (over: bool)
      requires Valid() && stream.NodeIsRight(node)
      requires stream.state.Reconciliation? && !failed ==> stream.Scans(node, interesting)
      modifies this`earlier, stream, stream.store, indexer`entityLfuCache, indexer.entityLfuCache, indexer.store
      ensures Right()
      ensures !over ==> Valid()
      ensures match old(stream.state)
              case YieldingBlocks(queue) =>
                if queue == [] then !over else
                Handled(queue, fate, old(indexer.store.rows), Answered(old(indexer.store.queries)),
                        old(stream.store.applied), over, stream.state, stream.store.applied)
              case _ => !over
      ensures over ==> Stopped(fate, Answered(old(indexer.store.queries)))
      ensures indexer.store.queries >= old(indexer.store.queries)
      ensures !over ==> Answered(old(indexer.store.queries))
      ensures fresh(indexer.entityLfuCache) || indexer.entityLfuCache == old(indexer.entityLfuCache)
    {
      var event := Advanced(node, interesting, triggers, failed, headUpdate);
      over := Index(event, old(stream.store.applied), fate);
    }

    /** The indexer's part of a turn. */
    method Index(event: TurnEvent, ghost applied: seq<Block>, fate: Indexing.Fate) returns (over: bool)
      requires stream.Valid() && stream.inFlight == if event.BlockEvent? then Some(event.block) else None
      requires indexer.Valid() && Rebuilt(mappings, applied, indexer.store.rows, earlier)
      requires stream.store.applied == applied || (applied != [] && stream.store.applied == applied[..|applied| - 1])
      requires !event.RevertEvent? ==> stream.store.applied == applied
      requires event.BlockEvent? ==> stream.state.YieldingBlocks?
      modifies this`earlier, stream, stream.store, indexer`entityLfuCache, indexer.entityLfuCache, indexer.store
      ensures Right()
      ensures !over ==> Valid()
      ensures if event.BlockEvent? then
                Handled([event.block] + old(stream.state).queue, fate, old(indexer.store.rows),
                        Answered(old(indexer.store.queries)), old(stream.store.applied), over,
                        stream.state, stream.store.applied)
              else !over
      ensures over ==> Stopped(fate, Answered(old(indexer.store.queries)))
      ensures indexer.store.queries >= old(indexer.store.queries)
      ensures !over ==> Answered(old(indexer.store.queries))
      ensures fresh(indexer.entityLfuCache) || indexer.entityLfuCache == old(indexer.entityLfuCache)
    {
      over := false;
      match event {
        case Nothing =>
        case ErrorEvent =>
        case RevertEvent => TakeBack(applied);
        case BlockEvent(b) => over := Process(b, fate);
      }
    }

    /** The stream's part of a turn, as far as it matters to the indexer. */
    method Advanced(node: nat -> Block, interesting: set<nat>, triggers: nat, failed: bool, headUpdate: bool)
      returns (event: TurnEvent)
      requires stream.Valid() && stream.inFlight == None && stream.NodeIsRight(node)
      requires stream.state.Reconciliation? && !failed ==> stream.Scans(node, interesting)
      modifies stream, stream.store
      ensures stream.Valid() && stream.inFlight == if event.BlockEvent? then Some(event.block) else None
      ensures event.BlockEvent? <==> old(stream.state).YieldingBlocks? && old(stream.state).queue != []
      ensures event.BlockEvent? ==>
                stream.state.YieldingBlocks? && old(stream.state).queue == [event.block] + stream.state.queue
      ensures !event.RevertEvent? ==> stream.store.applied == old(stream.store.applied)
      ensures var applied := old(stream.store.applied);
              stream.store.applied == applied || (applied != [] && stream.store.applied == applied[..|applied| - 1])
    {
      event := stream.Turn(node, interesting, triggers, failed, headUpdate);
    }

    /** The stream has reverted its block; the store goes back with it. */
    method TakeBack(ghost applied: seq<Block>)
      requires stream.Valid() && stream.inFlight == None && indexer.Valid()
      requires Rebuilt(mappings, applied, indexer.store.rows, earlier)
      requires stream.store.applied == applied || (applied != [] && stream.store.applied == applied[..|applied| - 1])
      modifies this`earlier, indexer`entityLfuCache, indexer.entityLfuCache, indexer.store
      ensures Valid() && (fresh(indexer.entityLfuCache) || indexer.entityLfuCache == old(indexer.entityLfuCache))
      ensures indexer.store.queries == old(indexer.store.queries)
    {
      var rows := indexer.store.rows;
      if |stream.store.applied| < |earlier| {
        RebuiltBack(mappings, applied, rows, earlier);
        rows, earlier := earlier[|earlier| - 1], earlier[..|earlier| - 1];
      }
      var _, _, _, _ := indexer.HandleEvent(Indexing.Revert(rows));
    }

    method Process(b: Block, fate: Indexing.Fate) returns (over: bool)
      requires stream.Valid() && stream.inFlight == Some(b) && indexer.Valid() && StoreRight()
      requires stream.state.YieldingBlocks?
      modifies this`earlier, stream, stream.store, indexer`entityLfuCache, indexer.entityLfuCache, indexer.store
      ensures stream.Valid() && StoreRight()
      ensures !over ==> Valid()
      ensures Handled([b] + old(stream.state).queue, fate, old(indexer.store.rows),
                      Answered(old(indexer.store.queries)), old(stream.store.applied), over,
                      stream.state, stream.store.applied)
      ensures over ==> Stopped(fate, Answered(old(indexer.store.queries)))
      ensures indexer.store.queries >= old(indexer.store.queries)
      ensures !over ==> Answered(old(indexer.store.queries))
      ensures fresh(indexer.entityLfuCache) || indexer.entityLfuCache == old(indexer.entityLfuCache)
    {
      var rows := indexer.store.rows;
      var needsRestart, committed, _, failed := indexer.HandleEvent(Indexing.Block(mappings(b, rows), fate));
      over := failed;
      if !failed { Advance(b, rows, committed, needsRestart); }
    }

    method Advance(b: Block, rows: Rows, committed: bool, needsRestart: bool)
      requires stream.Valid() && stream.inFlight == Some(b) && Rebuilt(mappings, stream.store.applied, rows, earlier)
      requires indexer.Valid() && indexer.store.rows == if committed then Indexing.Changed(rows, mappings(b, rows))
               else rows
      requires committed || needsRestart
      modifies this`earlier, stream, stream.store
      ensures Valid() && stream.state == if needsRestart then New else old(stream.state)
      ensures stream.store.applied == old(stream.store.applied) + if committed then [b] else []
    {
      if committed { Commit(b, rows); }
      if needsRestart { stream.Restart(); }
    }

    /** The block that the store now holds the changes of becomes the one the subgraph points to. */
    method Commit(b: Block, rows: Rows)
      requires stream.Valid() && stream.inFlight == Some(b) && Rebuilt(mappings, stream.store.applied, rows, earlier)
      requires indexer.store.rows == Indexing.Changed(rows, mappings(b, rows))
      modifies this`earlier, stream`inFlight, stream.store
      ensures stream.Valid() && stream.inFlight == None && StoreRight()
      ensures stream.store.applied == old(stream.store.applied) + [b]
    {
      RebuiltNext(mappings, stream.store.applied, rows, earlier, b);
      stream.Commit();
      earlier := earlier + [rows];
    }

    /** Another process moves the chain head. */
    method HeadMoved(to: Hash, blocks: Blocks)
      requires Valid() && to in stream.chain.tree && Stores(stream.chain.tree, blocks)
      requires StoredDown(stream.chain.tree, stream.chain.genesis, blocks, to, stream.chain.kept)
      requires stream.chain.head.Some? ==>
               stream.chain.tree[stream.chain.head.value].number < stream.chain.tree[to].number
      modifies stream.chain`head, stream.chain`blocks
      ensures Valid() && stream.chain.head == Some(to) && stream.chain.blocks == blocks
    {
      stream.HeadMoved(to, blocks);
    }

    /** Every schedule of polls, ingested blocks and moving heads, whatever becomes of each block. */
    method EveryRun(schedule: seq<(Action, Indexing.Fate)>) returns (over: bool, taken: nat)
      requires Valid()
      requires forall a :: a in schedule ==> Possible(stream.chain, stream.config, stream.wanted, a.0)
      modifies this`earlier, stream, stream.store, stream.chain`head, stream.chain`blocks
      modifies indexer`entityLfuCache, indexer.entityLfuCache, indexer.store
      ensures Right()
      ensures !over ==> Valid() && taken == |schedule|
      ensures over ==> 0 < taken <= |schedule| && schedule[taken - 1].0.PollStream?
      ensures over ==> Stopped(schedule[taken - 1].1, Answered(old(indexer.store.queries)))
    {
      over, taken := false, 0;
      for i := 0 to |schedule|
        invariant taken == i && Valid()
        invariant indexer.store.queries >= old(indexer.store.queries) && Answered(old(indexer.store.queries))
        invariant fresh(indexer.entityLfuCache) || indexer.entityLfuCache == old(indexer.entityLfuCache)
      {
        taken := i + 1;
        over := Act(schedule[i].0, schedule[i].1);
        if over { return; }
      }
    }

    method Act(a: Action, fate: Indexing.Fate) returns (over: bool)
      requires Valid() && Possible(stream.chain, stream.config, stream.wanted, a)
      modifies this`earlier, stream, stream.store, stream.chain`head, stream.chain`blocks
      modifies indexer`entityLfuCache, indexer.entityLfuCache, indexer.store
      ensures Right()
      ensures !over ==> Valid()
      ensures over <==> a.PollStream? && EndsRun(old(stream.state), fate, old(indexer.store.rows),
                                                 Answered(old(indexer.store.queries)))
      ensures over ==> Stopped(fate, Answered(old(indexer.store.queries)))
      ensures indexer.store.queries >= old(indexer.store.queries)
      ensures !over ==> Answered(old(indexer.store.queries))
      ensures fresh(indexer.entityLfuCache) || indexer.entityLfuCache == old(indexer.entityLfuCache)
    {
      over := false;
      match a {
        case PollStream(node, interesting, triggers, failed, headUpdate) =>
          RightNow(stream, a);
          over := Turn(NodeAt(node, stream.chain.head, stream.chain.genesis), interesting, triggers, failed,
                       headUpdate, fate);
        case PollNode(latestHeader, latest, available, ancestorCount) =>
          Ingest(stream, latestHeader, latest, available, ancestorCount);
        case MoveHead(to, blocks) =>
          if stream.chain.head.None?
            || stream.chain.tree[stream.chain.head.value].number < stream.chain.tree[to].number {
            HeadMoved(to, blocks);
          }
        // Committing and restarting are what a turn ends with.
        case _ =>
      }
    }
  }
}
