# Verified model of graph-node's core

The vendored `graph-node` keeps copies of state in many places and must keep them consistent while chains reorganize,
transactions abort and queries run side by side. This project models those places and proves what they are relied on
for. Each module follows a part of the program.

* **Caches of entities.** `LfuCaches` is the weighted cache with staleness periods. `Entities` and `EntityCaches` are
  the buffered writes of a block and their compilation into store modifications. `Indexing` runs blocks, reverts and
  restarts through both, for mappings that react to what they read: up to null fields, a run with the cache is
  indistinguishable from one without. `IndexedChain` puts the block stream in front of it.
* **Versions and assignments.** `SubgraphMetadata` has the guarded metadata operations, version summaries and assignment
  reconciliation; `Registrar` the transactions built from them, and every run of them; `StaleReads`, `StaleCreations`
  and `StalePromotions` what their guards do and do not protect against when others commit in between.
* **Following the chain.** `BlockTree` is the tree of blocks, `ChainStores` the store of recent blocks and its ingestor,
  `BlockStreams` the choice of the next reconciliation step, `StreamRuns` the stream as a state machine together with
  the indexer and a moving head, `StreamSchedules` whole runs of it, `RangeScans` the log and trace scans.
* **Queries.** `CollectFields` collects fields through fragments (section 6.3.2 of the GraphQL specification, June 2018),
  and `SelectedFields` says what a single selection gives.
  `Conformance` says what a response must look like (section 6.4.3), `ValueCompletion` and `SelectionSetExecution`
  produce one, for any resolver, and `PossibleResponses` shows that any conforming one can be produced.
  `QueryComplexity`, `ResponseEntities`, `ComplexityBounds` and `ResponseSizes` relate the complexity of a query to the
  size of its responses; `ComplexityExamples` has queries for which it is no bound. `QueryBlockCaches` and
  `QueryExecutions` are the three caches in front of execution, under every interleaving of callers.
* **Smaller pieces.** `SchemaImports`, `EventSignatures`, `MovingStatistics` and `EntityQueries`.

Objects whose methods change them in the source are classes; the methods are proved against functions on values, and
what the source promises is proved about those. The network, the database, resolvers and clocks are arguments: a result
holds for whatever they answer. A function argument stands for the answers of the other side; where the same request
may be answered differently at another time, it takes the place or the number of the attempt as well.

Where the code and its promises differ, the model follows the code:

* `EntityCache::get` returns null fields of a new entity that the store never sees (`Entities.NullVisibleAfterCreate`).
* The guards of the registrar's transactions do not notice that another version has become current
  (`StaleReads.StaleRemovalExample`, `StaleCreations.StaleCreationExample`).
* A list of scalars or enums whose resolution fails with an empty list of errors disappears from the response; responses
  conform exactly when this does not happen (`ValueCompletion.ExecuteExact`). The `Resolver` trait allows it, but no
  resolver of the repository overrides `resolve_scalar_values` or `resolve_enum_values`, whose defaults never fail
  (packages/graph-node/graphql/src/execution/resolver.rs:64-82); `ValueCompletion.LoudIsNotSilent` covers those that
  there are.
* The complexity is zero for queries it finds invalid although validation accepts them, counts merged fields as if each
  decided its own number of items, and has one unchecked addition (`ComplexityExamples`). `ResponseSizes.ComplexityExact`
  says exactly when it is a bound.

## Model

| member | source | states |
|---|---|---|
| `LfuCaches.LfuCache.Get` | packages/graph-node/graph/src/util/lfu_cache.rs:122-135 | the value is found exactly when present; the access raises the frequency and clears the mark that would make the entry stale; the total weight stays the sum of all weights |
| `LfuCaches.LfuCache.Insert` | packages/graph-node/graph/src/util/lfu_cache.rs:88-112 | exactly one entry changes, an existing one keeps its staleness and gains frequency; the total weight follows the new weight |
| `LfuCaches.LfuCache.Remove` | packages/graph-node/graph/src/util/lfu_cache.rs:137-150 | giving a key the absolute top priority and popping pops that very key and nothing else; the history gains its removal |
| `LfuCaches.LfuCache.EvictWithPeriod` | packages/graph-node/graph/src/util/lfu_cache.rs:179-214 | does nothing within the limit; otherwise ends within it and goes no further than needed, dropping, in terms of the history of the cache, entries left alone for a whole period before all others, and of two that are alike in this never the one accessed more often; never pops an empty queue, and right after a period boundary an entry is stale exactly when it was idle for the whole period |
| `LfuCaches.TwoPeriods` | packages/graph-node/graph/src/util/lfu_cache.rs:281-297 | with a boundary at every eviction: an entry that nobody looks up between two of them is stale after the second, however often it was looked up before |
| `LfuCaches.StillIdle` | packages/graph-node/graph/src/util/lfu_cache.rs:179-201 | accesses of other keys and evictions leave an idle entry idle |
| `LfuCaches.IdleMeaning` | packages/graph-node/graph/src/util/lfu_cache.rs:179-201 | what "not accessed in this period" means, in terms of the history of the cache: present at the latest boundary, and nothing about the key since |
| `LfuCaches.StaleMeaning` | packages/graph-node/graph/src/util/lfu_cache.rs:179-201 | over any history: an entry is stale exactly when it was left alone for the whole period before the latest boundary, however often it was accessed before that or since |
| `LfuCaches.WeightWithout` | packages/graph-node/graph/src/util/lfu_cache.rs:62-66 | the total weight is a sum over the entries that does not depend on their order |
| `LfuCaches.TopExists` | packages/graph-node/graph/src/util/lfu_cache.rs:199-210 | a non-empty queue has an entry to pop, so the `expect` in the eviction loop cannot fire while the weight is above the limit |
| `Entities.MergeComposes` | packages/graph-node/graph/src/components/store.rs:1561-1590 | merging two updates and applying the result is applying one after the other, with null deleting a field |
| `Entities.CombinedMeaning` | packages/graph-node/graph/src/components/store.rs:1538-1555 | `get` agrees with the operations performed so far up to null fields, and agrees exactly unless the entity is new and was created with a null field |
| `Entities.NullVisibleAfterCreate` | packages/graph-node/graph/src/components/store.rs:1545-1549 | a concrete read of a new entity that returns a null field the store will never hold |
| `Entities.ClearedMeaning` | packages/graph-node/graph/src/components/store.rs:1569-1586 | a `set` after a `remove` starts from nothing: fields the stored entity has and the new data lacks are nulled |
| `Entities.PendingSet` | packages/graph-node/graph/src/components/store.rs:1561-1590 | one more `set` on the accumulated updates is one more `set` on the state they stand for |
| `Entities.PendingRemove` | packages/graph-node/graph/src/components/store.rs:1557-1559 | the same for `remove` |
| `Entities.SoundApplied` | packages/graph-node/graph/src/components/store.rs:1622-1696 | sound modifications change each of their keys to its target and no other |
| `Entities.DeltaApplied` | packages/graph-node/graph/src/components/store.rs:1622-1696 | applying the modifications to the store gives exactly the target state |
| `Entities.DeltaMinimal` | packages/graph-node/graph/src/components/store.rs:1622-1696 | no other list of modifications that reaches the target is shorter |
| `EntityCaches.EntityCache.GetEntity` | packages/graph-node/graph/src/components/store.rs:1699-1718 | the cached read is the stored entity, and the cache keeps agreeing with the store; the store is queried exactly if the key is not cached, and only a query that is not answered makes the read fail, which then changes nothing |
| `EntityCaches.EntityCache.Get` | packages/graph-node/graph/src/components/store.rs:1538-1555 | what a mapping reads is, up to null fields, what the operations so far have made of the store; it fails exactly if the key is not cached and the store does not answer |
| `EntityCaches.EntityCache.Set` | packages/graph-node/graph/src/components/store.rs:1561-1590 | the buffered state is the one after performing the operation directly; it fails exactly if the store is asked, which happens only after a removal, and does not answer, and then nothing is buffered |
| `EntityCaches.EntityCache.Remove` | packages/graph-node/graph/src/components/store.rs:1557-1559 | the same for removals |
| `EntityCaches.EntityCache.Append` | packages/graph-node/graph/src/components/store.rs:1592-1604 | the same for a list of operations, in order, up to the first one that fails |
| `EntityCaches.EntityCache.AsModifications` | packages/graph-node/graph/src/components/store.rs:1622-1696 | the modifications are the exact difference between the store and the buffered state, at most one per key and none that changes nothing; afterwards the read cache agrees with the new state; there are none exactly if a query is not answered, and no query is made if nothing is missing in the cache |
| `Indexing.IndexingContext.ProcessTriggers` | packages/graph-node/core/src/subgraph/instance_manager.rs:896-940 | the mappings, which decide what to do next from what they have read so far (null fields left out), make the calls, read the values and leave the state that they would without a cache, and stop early exactly if a query of theirs is not answered |
| `Indexing.IndexingContext.ProcessBlock` | packages/graph-node/core/src/subgraph/instance_manager.rs:600-849 | a block commits all its changes or none: the mappings it has, then those of the data sources they create, for as long as they create some, then the proof of indexing; it restarts on a possible reorganization in the first of these and after creating data sources, ends the run when a mapping fails or the store does not answer, and leaves a cache that agrees with the store |
| `Indexing.RestartMeaning` | packages/graph-node/core/src/subgraph/instance_manager.rs:637-687 | by the calls of the mappings one after the other: a block is tried again exactly if its own triggers end with a possible reorganization, and a committed one has the stream rebuilt exactly if they end with created data sources |
| `Indexing.BlockMeaning` | packages/graph-node/core/src/subgraph/instance_manager.rs:637-787 | how a block ends, by how its triggers, then those of created data sources for as long as some are created, and then the proof of indexing end: retried, failed, canceled before the proof, or committed with what all calls in turn make of the store |
| `Indexing.IndexingContext.HandleEvent` | packages/graph-node/core/src/subgraph/instance_manager.rs:499-583 | a revert event drops the cache, since the store went back; every other event keeps it in agreement; the stream is to be rebuilt after a block that created data sources or has to be tried again, and after no other |
| `Indexing.IndexingContext.RunSubgraph` | packages/graph-node/core/src/subgraph/instance_manager.rs:453-598 | over every run of blocks, reverts, errors and restarts, and for any mappings that decide what to do next from what they have read, null fields left out, indexing with the cache leaves the store, and up to null fields shows the mappings, exactly what indexing without any cache would, if all queries are answered; otherwise it is given up at one block, which then changes nothing; the stream is built at the start and after exactly those blocks that created data sources or have to be tried again |
| `Indexing.FailedBefore` | packages/graph-node/core/src/subgraph/instance_manager.rs:499-583 | a run that has failed is over: no later event matters |
| `IndexedChain.RebuiltNext` | packages/graph-node/core/src/subgraph/instance_manager.rs:789-841 | committing a block leaves what performing the applied blocks in order gives |
| `IndexedChain.RebuiltBack` | packages/graph-node/chain/ethereum/src/block_stream.rs:560-603 | so does going back to before the last one |
| `IndexedChain.IndexedSubgraph.Turn` | packages/graph-node/core/src/subgraph/instance_manager.rs:499-583 | whatever the stream yields and whatever becomes of its block, the rows of the store are those of running the mappings for the applied blocks in order on an empty store; these are one chain, and up to the pointer no block with triggers is missing among them; a block ends the run exactly if it fails without a cache or a query is not answered; one that does not is applied unless it has to be tried again, and the stream starts anew after exactly those and the ones that created data sources |
| `IndexedChain.IndexedSubgraph.EveryRun` | packages/graph-node/core/src/subgraph/instance_manager.rs:453-598 | the same after every schedule of polls of the stream, polls of the ingestor and moves of the head, all of which is gone through unless a block ends the run; nothing of that block is in the store |
| `SubgraphMetadata.GuardsOnly` | packages/graph-node/graph/src/components/store.rs:671-704 | guards leave the state alone, and a transaction that commits has passed all of them |
| `SubgraphMetadata.ReadSummariesSafe` | packages/graph-node/graph/src/components/store.rs:914-1016 | in a state that keeps the invariant, reading version summaries trips none of its assertions, and its own guards hold |
| `SubgraphMetadata.SummaryAssertion` | packages/graph-node/graph/src/components/store.rs:914-1016 | they are tripped exactly when a version that is read is used by a subgraph it does not belong to |
| `SubgraphMetadata.SummariesSeeNeeded` | packages/graph-node/graph/src/components/store.rs:914-1016 | summaries tell exactly which of the deployments asked for are needed |
| `SubgraphMetadata.ReconcileCorrect` | packages/graph-node/graph/src/components/store.rs:1024-1091 | reconciling a slice of deployments makes the assignments of the whole store fit the new versions, provided only the slice changed |
| `Registrar.CreateSimulationExact` | packages/graph-node/core/src/subgraph/registrar.rs:563-735 | the simulated summaries are the ones that reading again after the commit would give, in both switching modes |
| `Registrar.CreateVersionCorrect` | packages/graph-node/core/src/subgraph/registrar.rs:737-908 | creating a version fails no assertion and no guard, and leads to the state it is for: switched at once or pending, needed deployments assigned and no others |
| `Registrar.CreatedVersion` | packages/graph-node/core/src/subgraph/registrar.rs:611-696 | in terms of the stored entities: the new version waits exactly if it was asked to and the current version has a synced deployment, which then stays current; otherwise it is current at once and nothing waits; other subgraphs, versions and synced flags stay, the deployment exists, not synced if it is new, and is assigned, to the given node if it was not; no other assignment is added or moved |
| `Registrar.CreateKeepsInv` | packages/graph-node/core/src/subgraph/registrar.rs:737-908 | that state keeps the invariant |
| `Registrar.CreateSubgraphCorrect` | packages/graph-node/core/src/subgraph/registrar.rs:435-480 | a new name gives a subgraph without versions, a known one an error |
| `Registrar.RemovalSimulationExact` | packages/graph-node/core/src/subgraph/registrar.rs:994-1063 | the simulated summaries after a removal are exact |
| `Registrar.RemoveCorrect` | packages/graph-node/core/src/subgraph/registrar.rs:930-1063 | removing a subgraph needs no node, and unassigns exactly what it alone needed |
| `Registrar.RemovedSubgraph` | packages/graph-node/core/src/subgraph/registrar.rs:930-1063 | the subgraph and exactly its versions are gone; everything else stays, but for assignments |
| `Registrar.ReassignCorrect` | packages/graph-node/core/src/subgraph/registrar.rs:1069-1113 | only an assigned deployment can be reassigned, and only to another node; nothing else changes |
| `Registrar.ActiveAfterPromotion` | packages/graph-node/chain/ethereum/src/block_stream.rs:624-771 | promotion makes exactly the demoted versions inactive |
| `Registrar.SyncedCorrect` | packages/graph-node/chain/ethereum/src/block_stream.rs:624-771 | when a deployment is synced every version waiting for it takes over, and the `expect` about a missing node id never fires although none is passed |
| `Registrar.PromotedVersions` | packages/graph-node/chain/ethereum/src/block_stream.rs:624-771 | exactly the subgraphs whose pending version points to the synced deployment have it as their current one and wait for nothing; no assignment is added or moved |
| `Registrar.TransactionCorrect` | packages/graph-node/core/src/subgraph/registrar.rs:563-735 | each transaction either changes nothing, for a reason its caller can see, or reaches its target and keeps the invariant |
| `Registrar.MetadataStore.Execute` | packages/graph-node/core/src/subgraph/registrar.rs:291-372 | one committed transaction, read and guarded write, on the store |
| `Registrar.EveryRun` | packages/graph-node/core/src/subgraph/registrar.rs:798-843 | in every run of transactions from the empty store a deployment is assigned exactly when a current or pending version points to it, a version waits only behind one whose deployment is synced, and no assertion ever fails |
| `StaleReads.StaleOpsApplied` | packages/graph-node/core/src/subgraph/registrar.rs:930-1063 | the operations read from one state have the same effect on any state whose guards they pass |
| `StaleReads.RemovalCommits` | packages/graph-node/core/src/subgraph/registrar.rs:930-1063 | a removal commits exactly if the name still stands for the subgraph alone, its versions are the ones that were read, and their deployments are used by the same versions and subgraphs |
| `StaleReads.ReassignCommits` | packages/graph-node/core/src/subgraph/registrar.rs:1069-1113 | a reassignment commits exactly if the deployment is still on the node that was read |
| `StaleReads.CreateSubgraphCommits` | packages/graph-node/core/src/subgraph/registrar.rs:435-480 | creating a subgraph commits exactly if there is still none of that name |
| `StaleReads.StaleRemoval` | packages/graph-node/core/src/subgraph/registrar.rs:930-1063 | when others commit between the reads and the commit, the invariant survives if and only if no needed deployment has become, or ceased to be, needed by the removed subgraph alone: which versions are active is what the guards do not pin |
| `StaleReads.ActiveVersionsGuard` | packages/graph-node/core/src/subgraph/registrar.rs:1000-1060 | with a guard on the active versions of the deployments concerned, stale removals would be right |
| `StaleReads.SharedReached` | packages/graph-node/core/src/subgraph/registrar.rs:798-843 | the state from which a removal goes wrong is reached from the empty store by seven transactions |
| `StaleReads.StaleRemovalExample` | packages/graph-node/core/src/subgraph/registrar.rs:930-1063 | two states in which every guard passes and the invariant breaks: a deployment stays assigned that nothing needs |
| `StaleCreations.StaleCreationApplied` | packages/graph-node/core/src/subgraph/registrar.rs:737-908 | the operations for creating a version, read from one state, do the same to any state whose guards they pass; the role of the version is the one that the earlier reads gave it |
| `StaleCreations.CreationCommits` | packages/graph-node/core/src/subgraph/registrar.rs:611-908 | and commit exactly if the subgraph is what it was, the deployments that were read are used by the same versions and subgraphs, and the new one still exists or still does not |
| `StaleCreations.StaleCreation` | packages/graph-node/core/src/subgraph/registrar.rs:737-908 | when others commit between the reads and the commit, the invariant survives if and only if the deployment is still needed in case it was, and no other needed deployment has become, or ceased to be, needed only by versions that give way |
| `StaleCreations.StaleCreationExample` | packages/graph-node/core/src/subgraph/registrar.rs:737-908 | a creation for which every guard passes and the invariant breaks, from the same reachable state |
| `StalePromotions.StalePromotionApplied` | packages/graph-node/chain/ethereum/src/block_stream.rs:624-771 | the operations of a promotion, read from one state, do the same to any state whose guards they pass |
| `StalePromotions.PromotionCommits` | packages/graph-node/chain/ethereum/src/block_stream.rs:624-771 | and commit exactly if the deployment exists, the same versions point to it, the same subgraphs wait for it, and what is demoted has the same users |
| `StalePromotions.StalePromotion` | packages/graph-node/chain/ethereum/src/block_stream.rs:624-771 | and the invariant survives if and only if no needed deployment has become, or ceased to be, needed only by versions that are demoted |
| `StalePromotions.GuardsSuffice` | packages/graph-node/chain/ethereum/src/block_stream.rs:624-771 | it does survive if all subgraphs that wait run on one deployment, another than the one they wait for: then the guards pin enough |
| `ChainStores.AncestorBlockFound` | packages/graph-node/graph/src/components/store.rs:1394-1402 | looking up an ancestor that is stored together with all blocks above it succeeds and finds that ancestor |
| `ChainStores.FirstMissingMeaning` | packages/graph-node/graph/src/components/store.rs:1362-1378 | the block reported missing is the highest one missing on the way down from the candidate |
| `ChainStores.FilledIn` | packages/graph-node/chain/ethereum/src/block_ingestor.rs:202-221 | once it is stored, the candidate stays the same and what is missing next is further down |
| `ChainStores.ChainStore.AttemptChainHeadUpdate` | packages/graph-node/graph/src/components/store.rs:1362-1378 | the head only moves up, to the highest stored block, the first of several by hash, whose ancestors are stored, or a missing block is reported |
| `ChainStores.ChainStore.DoPoll` | packages/graph-node/chain/ethereum/src/block_ingestor.rs:131-243 | at most `ancestor_count` rounds; unless the head is the latest block already, a poll that ends normally leaves no stored block above the head, which has its ancestors stored down to genesis or the count; it fails only on a block the node does not have |
| `BlockTree.AncestorTransitive` | packages/graph-node/chain/ethereum/src/block_stream.rs:466-481 | being an ancestor is transitive |
| `BlockTree.AncestorsOrdered` | packages/graph-node/chain/ethereum/src/block_stream.rs:466-481 | two ancestors of one block are on one chain |
| `BlockStreams.ScanRangeMeaning` | packages/graph-node/chain/ethereum/src/block_stream.rs:374-415 | a scan starts right above the pointer, is not empty, at most as large as its size, stays at or below head minus threshold, and has no start block after its first block |
| `BlockStreams.RangeSizeMeaning` | packages/graph-node/chain/ethereum/src/block_stream.rs:374-413 | the size of the next range: as large as allowed if the last one had no triggers, and otherwise the largest that is expected not to exceed the target, but at least one block and at most ten times the last size or the configured maximum |
| `BlockStreams.FarScansPartition` | packages/graph-node/chain/ethereum/src/block_stream.rs:323-442 | with a fixed head the ranges scanned cover every number up to head minus threshold once and in order, whatever the trigger rates |
| `BlockStreams.PartitionMeaning` | packages/graph-node/chain/ethereum/src/block_stream.rs:323-442 | in such a partition every number lies in exactly one range |
| `BlockStreams.NextStepSound` | packages/graph-node/chain/ethereum/src/block_stream.rs:239-544 | any step is allowed: forward along the chain of the head, or back from a block that is not on it |
| `BlockStreams.FarStepSound` | packages/graph-node/chain/ethereum/src/block_stream.rs:323-442 | far from the head only blocks at or below head minus threshold are added |
| `BlockStreams.NearStepSound` | packages/graph-node/chain/ethereum/src/block_stream.rs:466-544 | near the head a step goes to the child of the pointer on the way to the head, or reverts to the parent; the ancestor lookup never comes up short |
| `BlockStreams.ScannedAll` | packages/graph-node/chain/ethereum/src/block_stream.rs:430-442 | the blocks yielded are all the interesting ones of the range and its last one |
| `BlockStreams.ScannedOnly` | packages/graph-node/chain/ethereum/src/block_stream.rs:430-442 | and no others |
| `BlockStreams.StepComesCloser` | packages/graph-node/chain/ethereum/src/block_stream.rs:278-287 | every step brings the pointer closer to the head, whichever way it goes |
| `StreamRuns.CommitNext` | packages/graph-node/chain/ethereum/src/block_stream.rs:604-618 | committing the next queued block keeps the processed blocks one chain |
| `StreamRuns.RevertTop` | packages/graph-node/chain/ethereum/src/block_stream.rs:560-603 | reverting the pointer to its parent keeps it so |
| `StreamRuns.StepTaken` | packages/graph-node/chain/ethereum/src/block_stream.rs:550-622 | carrying out whichever step is next keeps the processed blocks one chain below the head |
| `StreamRuns.CommitComplete` | packages/graph-node/chain/ethereum/src/block_stream.rs:604-618 | committing the next queued block leaves no block with triggers behind the pointer that is not applied, and none ahead that is not queued |
| `StreamRuns.RevertComplete` | packages/graph-node/chain/ethereum/src/block_stream.rs:560-603 | nor does reverting the pointer to its parent |
| `StreamRuns.ForwardComplete` | packages/graph-node/chain/ethereum/src/block_stream.rs:323-544 | the blocks a step queues include every block with triggers between the pointer and the last of them, if the scan finds those |
| `StreamRuns.BlockStream.Commit` | packages/graph-node/core/src/subgraph/instance_manager.rs:789-841 | the indexer commits the block in flight, which moves the subgraph pointer to it |
| `StreamRuns.BlockStream.HeadMoved` | packages/graph-node/graph/src/components/store.rs:1383-1388 | a head that moves up, to any chain, keeps the state of the stream consistent |
| `StreamRuns.BlockStream.Reconcile` | packages/graph-node/chain/ethereum/src/block_stream.rs:205-236 | one reconciliation either fails, finishes at the head, reverts one block that is off the chain, or queues blocks on it, and then remembers how many blocks it looked through and how many triggers each had on average; only failures are counted, and success or being done resets their count |
| `StreamRuns.BlockStream.Turn` | packages/graph-node/chain/ethereum/src/block_stream.rs:776-938 | each turn of `poll` keeps the processed and not yet reverted blocks one ancestor chain below the head on which no block with triggers is missing, in every state and on every outcome |
| `StreamRuns.BlockStream.CatchUp` | packages/graph-node/chain/ethereum/src/block_stream.rs:776-938 | from any state, with the head fixed and no failures, the stream becomes idle after finitely many turns, whatever else each scan finds, and then the subgraph is at the head and has applied every block with triggers on its chain |
| `StreamSchedules.EveryRun` | packages/graph-node/chain/ethereum/src/block_stream.rs:776-938 | under every schedule of polls, commits, restarts, ingested blocks and moving heads, after every step: the applied blocks are one chain up to the pointer, no block with triggers is missing among them, and a step applies the next block, undoes one that is off the chain of the head, or leaves them alone |
| `StreamSchedules.NeverUndone` | packages/graph-node/chain/ethereum/src/block_stream.rs:550-622 | in such a run, what is applied by the time the pointer is on a block that stays on the chain of every later head remains applied, and the pointer never goes below that block |
| `RangeScans.LogStreamSound` | packages/graph-node/chain/ethereum/src/ethereum_adapter.rs:307-399 | a log scan that succeeds has every block's logs once and in order from requests that partition the range, each for the whole rest of it, or for the limited step if there are no contracts to filter by, divided by ten for every request that was too heavy; it fails only on a failed request or a single block that is too heavy |
| `RangeScans.TraceStreamSound` | packages/graph-node/chain/ethereum/src/ethereum_adapter.rs:257-305 | the same for traces, in chunks of the configured step, or of a quarter of it without addresses to filter by, but of at least one block |
| `CollectFields.CollectVisitsReachable` | packages/graph-node/graphql/src/execution/execution.rs:672-736 | exactly the fragments reachable through spreads that apply are visited, cycles or not |
| `CollectFields.CollectExpanded` | packages/graph-node/graphql/src/execution/execution.rs:672-736 | each is expanded at most once |
| `CollectFields.CollectCounted` | packages/graph-node/graphql/src/execution/execution.rs:672-736 | the collected fields are, counted with repetition, those selected directly and those each expanded fragment contributes |
| `CollectFields.WriteOutOrder` | packages/graph-node/graphql/src/execution/execution.rs:672-736 | and they come in the order of the query with its fragments written out in place |
| `CollectFields.FirstKeysMeaning` | packages/graph-node/graphql/src/execution/execution.rs:656-669 | groups appear in the order in which their response keys first do |
| `SelectedFields.SingleField` | packages/graph-node/graphql/src/query/ast.rs:65-110 | a field is collected exactly if its first `skip` directive is absent or has an `if` that is not true, and its first `include` directive is absent or has no `if` or one that is true, for literals and for variables, which may be missing |
| `SelectedFields.OnlyWanted` | packages/graph-node/graphql/src/execution/execution.rs:679-690 | no other field is collected, however deep in fragments |
| `SelectedFields.SingleInline` | packages/graph-node/graphql/src/execution/execution.rs:716-731 | an inline fragment gives what its body gives if it has no type condition, or one that names the type of the object, an interface it implements or a union it is in; otherwise nothing |
| `SelectedFields.SingleSpread` | packages/graph-node/graphql/src/execution/execution.rs:695-714 | a named fragment gives what its body gives the first time it is come to, under the same condition |
| `SelectedFields.SingleKey` | packages/graph-node/graphql/src/query/ast.rs:107-110 | a field is grouped under its alias, or else under its name |
| `CollectFields.CollectConcat` | packages/graph-node/graphql/src/execution/execution.rs:656-669 | selection sets collected one after the other give what they would give as one |
| `CollectFields.Grouped.CollectFieldsInner` | packages/graph-node/graphql/src/execution/execution.rs:672-736 | the loop over a selection set, which fills the visited set and the groups in place, does the same |
| `CollectFields.Grouped.CollectFields` | packages/graph-node/graphql/src/execution/execution.rs:656-669 | and so it does over several selection sets |
| `Conformance.CollectedBounded` | packages/graph-node/graphql/src/execution/execution.rs:672-736 | fields collected from a bounded selection have less deeply nested selections |
| `Conformance.TypenameConforms` | packages/graph-node/graphql/src/schema/ast.rs:124-149 | a response to `__typename` alone is a single string, for objects of every type |
| `ValueCompletion.CompleteExact` | packages/graph-node/graphql/src/execution/execution.rs:965-1093 | whatever the resolver returns, a completed value is one of its type at every depth: null only where allowed, lists only at list types, scalars and enums in range, objects of a possible type; it is complete exactly if no field on the way failed without an error |
| `ValueCompletion.ExecuteExact` | packages/graph-node/graphql/src/execution/execution.rs:577-651 | a successful response has conforming values under collected keys, and all of these keys if and only if no list of scalars or enums on the way failed with an empty list of errors |
| `ValueCompletion.StartsFrom` | packages/graph-node/graphql/src/execution/execution.rs:618-637 | a field starts from what was prefetched for its response key, or else from what the object has under the name of the field, or else from nothing |
| `ValueCompletion.GroupsErrors` | packages/graph-node/graphql/src/execution/execution.rs:605-651 | the errors of an execution are those of its fields in order, up to the first for which there is no time left |
| `ValueCompletion.WrongArguments` | packages/graph-node/graphql/src/execution/execution.rs:770-791 | a field with wrong arguments makes the execution fail with what is wrong among the errors, unless time runs out before |
| `ValueCompletion.ItemsErrors` | packages/graph-node/graphql/src/execution/execution.rs:985-1010 | the errors of a list are those of all its items, in order |
| `ValueCompletion.NullFromNull` | packages/graph-node/graphql/src/execution/execution.rs:965-1093 | completion gives null exactly for null, and fails for it where it is not allowed |
| `ValueCompletion.KeepsShape` | packages/graph-node/graphql/src/execution/execution.rs:965-1093 | a list is completed from a list of the same length, and an object from an object; anything else fails |
| `ValueCompletion.NeverResolved` | packages/graph-node/graphql/src/execution/execution.rs:793-962 | fields with a type that is missing, a union or an input type, and lists of lists, always fail with an error |
| `ValueCompletion.CoercedScalarMeaning` | packages/graph-node/graphql/src/values/coercion.rs:27-59 | a scalar is accepted exactly if it is a value of its type, or a number for a type of strings that prints it |
| `ValueCompletion.CoercedEnumMeaning` | packages/graph-node/graphql/src/values/coercion.rs:13-25 | an enum value is accepted as such or as a string, if the type has it |
| `ValueCompletion.SilentForLeaves` | packages/graph-node/graphql/src/execution/execution.rs:886-962 | only the resolution of a list of scalars or enums can fail without an error |
| `ValueCompletion.LoudIsNotSilent` | packages/graph-node/graphql/src/execution/execution.rs:577-651 | with a resolver that never fails without an error, as all resolvers of the repository are, all successful responses conform |
| `ValueCompletion.SilentFailure` | packages/graph-node/graphql/src/execution/execution.rs:616-651 | a field of type `[Int!]!` whose resolution fails with an empty list of errors, which the `Resolver` trait allows, disappears from a response that counts as successful |
| `ValueCompletion.ResolvedShort` | packages/graph-node/graphql/src/execution/execution.rs:886-962 | a list resolved for a field is as short as the resolver keeps it |
| `ValueCompletion.ExecuteSucceeds` | packages/graph-node/graphql/src/execution/execution.rs:577-651 | with a resolver that finds a value of the right shape for every field, execution does not fail |
| `PossibleResponses.ReplayExecutes` | packages/graph-node/graphql/src/execution/execution.rs:577-651 | every conforming response is given by an execution, with a resolver that has its parts |
| `PossibleResponses.ExactlyConforming` | packages/graph-node/graphql/src/execution/execution.rs:965-1093 | so the responses that executions can give are exactly the conforming ones |
| `SelectionSetExecution.CompleteValue` | packages/graph-node/graphql/src/execution/execution.rs:965-1093 | completion in the steps of the source is the specified one |
| `SelectionSetExecution.CompleteSlots` | packages/graph-node/graphql/src/execution/execution.rs:985-1010 | completing the slots of a list in place, with placeholders, is completing its items |
| `SelectionSetExecution.ExecuteSelectionSetToMap` | packages/graph-node/graphql/src/execution/execution.rs:577-651 | the loop that takes values out of the prefetched object as it goes gives every group the value it would have found at the start |
| `SelectionSetExecution.UntouchedNext` | packages/graph-node/graphql/src/execution/execution.rs:590-640 | taking a value leaves what later response keys look up: only names that occur once are removed |
| `SelectionSetExecution.MultipleNames` | packages/graph-node/graphql/src/execution/execution.rs:593-602 | exactly the names that occur more than once |
| `QueryComplexity.InnerIsCost` | packages/graph-node/graphql/src/execution/query.rs:414-498 | a computed complexity is the complexity in unbounded numbers, modulo 2^64, because one addition is not checked |
| `QueryComplexity.OneFieldComplexity` | packages/graph-node/graphql/src/execution/query.rs:430-462 | the complexity of one field: none if nothing is selected below it, what that costs for a single object, and for a list that and one more for each item asked for by a literal `first`, or for 100, if it fits |
| `QueryComplexity.ComplexityInTurn` | packages/graph-node/graphql/src/execution/query.rs:414-498 | one selection more adds its complexity, which is checked to fit unless it is a field that is no list |
| `QueryComplexity.ComplexityMeaning` | packages/graph-node/graphql/src/execution/query.rs:309-320 | a query is rejected for too deep a nesting, a missing fragment or too large a number; it is let through with complexity zero if it is found invalid before that |
| `QueryComplexity.CostIsComputed` | packages/graph-node/graphql/src/execution/query.rs:414-498 | the computation stops only on a missing type or fragment, too deep a nesting or too large a number; otherwise it gives the complexity in unbounded numbers |
| `QueryComplexity.AcceptedIsBounded` | packages/graph-node/graphql/src/execution/query.rs:414-428 | a query whose complexity could be computed is nested no deeper than allowed, even through cyclic fragments |
| `ComplexityBounds.TypedFieldsRight` | packages/graph-node/graphql/src/execution/query.rs:414-498 | the fields collected for an object cost no more than all that is selected, with the types they are selected from |
| `ComplexityBounds.ObjectBound` | packages/graph-node/graphql/src/execution/query.rs:414-498 | merged selection sets yield no more collection entities than they cost together |
| `ComplexityBounds.EntitiesWithinCost` | packages/graph-node/graphql/src/execution/query.rs:414-498 | no response whose collections hold at most their literal `first` (or 100) items has more collection entities than the complexity in unbounded numbers |
| `ComplexityBounds.BoundsEntities` | packages/graph-node/graphql/src/execution/query.rs:309-320 | nor more than the computed complexity, which is the unbounded one if and only if that fits into 64 bits |
| `ResponseSizes.MostObject` | packages/graph-node/graphql/src/execution/execution.rs:630-640 | no response has more entities than the number that follows from its query and schema, with the first of merged fields deciding how many items there are |
| `ResponseSizes.BestExecution` | packages/graph-node/graphql/src/execution/execution.rs:577-651 | some execution gives that many |
| `ResponseSizes.BoundExact` | packages/graph-node/graphql/src/execution/query.rs:287-307 | so a number bounds all executions that keep to `first` if and only if it is not smaller |
| `ResponseSizes.ComplexityExact` | packages/graph-node/graphql/src/execution/query.rs:309-320 | the complexity that is checked bounds all executions if and only if it is not smaller than that number; for an invalid query, which has complexity zero, if and only if the number is zero |
| `ResponseSizes.LeastWithinComplexity` | packages/graph-node/graphql/src/execution/query.rs:414-498 | it is not smaller for a validated query in which the first field under each key asks for the fewest items, if no sum exceeds 64 bits |
| `ComplexityExamples.InvalidIsFree` | packages/graph-node/graphql/src/execution/query.rs:309-320 | a validated query with complexity 0, which an execution exceeds: an invalid complexity is let through |
| `ComplexityExamples.MergedFieldsExceed` | packages/graph-node/graphql/src/execution/execution.rs:630-640 | a query of complexity 5 for which an execution gives six entities: of merged fields only the first decides how many items there are |
| `ComplexityExamples.SumWraps` | packages/graph-node/graphql/src/execution/query.rs:462-465 | a query whose computed complexity is below its complexity in unbounded numbers, because the sum of three fields wraps around |
| `QueryBlockCaches.RingKept` | packages/graph-node/graphql/src/execution/execution.rs:88-139 | storing an answer keeps a network's ring: distinct blocks, at most the configured number, newest first, each within its share of the memory, with right answers only |
| `QueryBlockCaches.RingFits` | packages/graph-node/graphql/src/execution/execution.rs:125-135 | all results of a network together stay within the configured memory |
| `QueryBlockCaches.StoredIsCached` | packages/graph-node/graphql/src/execution/execution.rs:88-156 | what was stored is what a lookup finds; what did not fit changes no answer |
| `QueryBlockCaches.StoredMeaning` | packages/graph-node/graphql/src/execution/execution.rs:88-139 | a result goes to the cache of its block if that has room, or to a new one in front if the block is not older than the newest, for which the last makes way when the ring is full; otherwise nothing changes |
| `QueryBlockCaches.QueryBlockCache.Insert` | packages/graph-node/graphql/src/execution/execution.rs:88-139 | an insert changes only the ring of its network, as specified |
| `QueryBlockCaches.QueryBlockCache.Get` | packages/graph-node/graphql/src/execution/execution.rs:141-156 | a lookup finds what the ring of the network has for the block |
| `QueryExecutions.HerdMeaning` | packages/graph-node/graphql/src/execution/cache.rs:37-72 | a query is in the herd cache exactly while a caller owns its execution, and no two callers ever own the same query |
| `QueryExecutions.Executions.Join` | packages/graph-node/graphql/src/execution/cache.rs:37-60 | a caller shares what is in flight for its key, or puts it there |
| `QueryExecutions.Executions.Finish` | packages/graph-node/graphql/src/execution/cache.rs:62-72 | the entry is removed with its owner; errors are passed on but not stored |
| `QueryExecutions.Executions.Abandon` | packages/graph-node/graphql/src/execution/cache.rs:62-70 | a caller that goes away anywhere takes its own entry with it and no other |
| `QueryExecutions.Executions.Store` | packages/graph-node/graphql/src/execution/execution.rs:526-542 | what the block cache takes is found there afterwards |
| `QueryExecutions.Executions.StoreOld` | packages/graph-node/graphql/src/execution/execution.rs:543-553 | what it does not take goes into the cache for older blocks, at most one entry above the limit |
| `QueryExecutions.Executions.Turn` | packages/graph-node/graphql/src/execution/execution.rs:421-558 | every step of any caller keeps all caches right, brings that caller nearer to its result and no other caller further from its own |
| `QueryExecutions.Executions.Serve` | packages/graph-node/graphql/src/execution/execution.rs:421-558 | whatever has happened before, a caller that goes on has its result after at most seven steps |
| `QueryExecutions.Executions.EveryRun` | packages/graph-node/graphql/src/execution/execution.rs:421-558 | under every interleaving a query that may be cached gets the answer for it and its block, or errors, and no other query is served from a cache; no error is ever stored, only errors are neither hits nor shared nor stored, and the caches keep to their sizes |
| `SchemaImports.ResolvesExactlyImported` | packages/graph-node/graph/src/data/schema.rs:437-479 | a schema is found if and only if it can be resolved and is imported directly or through others, and an error is reported for exactly the imported references that cannot be |
| `SchemaImports.FollowComplete` | packages/graph-node/graph/src/data/schema.rs:450-479 | the search follows every import of everything newly visited |
| `SchemaImports.ImportResolver.ResolveImportGraph` | packages/graph-node/graph/src/data/schema.rs:450-479 | the recursion on the shared map and visit log does that search |
| `SchemaImports.ImportResolver.ResolveSchemaReferences` | packages/graph-node/graph/src/data/schema.rs:437-448 | the collected map holds exactly the visited schemas |
| `EventSignatures.TypeUnique` | packages/graph-node/graph/src/util/ethereum.rs:20-47 | a printed type that is followed by something that cannot belong to it can be read in one way only, however deeply tuples and arrays are nested |
| `EventSignatures.DecimalValue` | packages/graph-node/graph/src/util/ethereum.rs:32-47 | printed numbers can be read back |
| `EventSignatures.EventRead` | packages/graph-node/graph/src/util/ethereum.rs:20-79 | a reader of the signature grammar with its own table of types reads the signature of any event as that event |
| `EventSignatures.EventPrinted` | packages/graph-node/graph/src/util/ethereum.rs:20-79 | and what it can read as an event is the signature of that event |
| `EventSignatures.AmbiguousRead` | packages/graph-node/graph/src/util/ethereum.rs:50-61 | a signature without `indexed` reads as the event with no input indexed |
| `EventSignatures.EventSignatureUnique` | packages/graph-node/graph/src/util/ethereum.rs:64-79 | events with the same signature have the same name, the same indexed inputs and the same types |
| `EventSignatures.AmbiguousSignatureUnique` | packages/graph-node/graph/src/util/ethereum.rs:50-61 | a signature without `indexed` determines the name and the types |
| `EventSignatures.LookupExact` | packages/graph-node/graph/src/util/ethereum.rs:82-88 | looking up the full signature of a contract's event finds that event |
| `EventSignatures.LookupRead` | packages/graph-node/graph/src/util/ethereum.rs:82-116 | looking up any string that reads as an event of the contract finds that event |
| `EventSignatures.LookupSound` | packages/graph-node/graph/src/util/ethereum.rs:82-116 | what is found fits the signature, fully or as the only event of its name |
| `EventSignatures.LookupAmbiguous` | packages/graph-node/graph/src/util/ethereum.rs:82-116 | a signature without `indexed` finds the event exactly when it is the full signature of that event, or of none and the event is the only one of its name |
| `MovingStatistics.BinCount` | packages/graph-node/graph/src/util/stats.rs:149-164 | there are never more bins than the window divided by the bin size, rounded up |
| `MovingStatistics.WindowSums` | packages/graph-node/graph/src/util/stats.rs:166-177 | what expiry keeps lies between the sums over a window one bin shorter and over the full window |
| `MovingStatistics.WindowBounds` | packages/graph-node/graph/src/util/stats.rs:149-177 | so do the running totals |
| `MovingStatistics.AverageMeaning` | packages/graph-node/graph/src/util/stats.rs:65-75 | what comparing with an average tells about the exact sums over the two windows |
| `MovingStatistics.MovingStats.AddAt` | packages/graph-node/graph/src/util/stats.rs:149-164 | adding a measurement keeps these bounds, and there is a bin to add to: the `unwrap` is safe |
| `MovingStatistics.MovingStats.ExpireBins` | packages/graph-node/graph/src/util/stats.rs:166-177 | expiry never subtracts more than there is, keeps the newest bin and forgets no sample |
| `EntityQueries.AndMaybeMeaning` | packages/graph-node/graph/src/components/store.rs:100-120 | adding a filter means both filters, however they are nested |
| `EntityQueries.SimplifyPreservesResults` | packages/graph-node/graph/src/components/store.rs:333-358 | the simplified query has the same results in the same order and range, whatever is stored however values compare and however children are found from their parents |
| `EntityQueries.SimplifiesExactly` | packages/graph-node/graph/src/components/store.rs:333-358 | exactly queries with one window for one parent, linked by an attribute of the child, are simplified |
| `EntityQueries.FilterIsLink` | packages/graph-node/graph/src/components/store.rs:208-244 | the filter holds for the children of the parent that meet the original one |
| `EntityQueries.WindowNeeded` | packages/graph-node/graph/src/components/store.rs:218-244 | why simplification stops at one parent: with two parents and a limit on the children of each, there is a store on which no filter for whole types, in whatever order, gives the results of the window |

## Left out

- CollectFields.Collect: asks that spreads in unused fragments exist, too, which validation only checks for used ones.
- ValueCompletion.Execute: works on selections nested at most `d` deep, where the source recurses without a bound. Every query with a computed complexity has such a `d`, and so has every query that passes validation, which follows all fragments and would not return otherwise, except below scalar fields, where neither validation nor execution looks. A panic becomes an error of its field, where the source ends the whole query with an error; the result fails in both cases, with other errors.
- ValueCompletion.CoerceScalar: floats are not modelled, and how numbers are printed is left open.
- ValueCompletion.ExecuteExact: assumes that abstract types are resolved to types of the schema that they have. The type is a function of the place in the response, which is come to once in an execution, where the source computes it from the value.
- ComplexityBounds.BoundsEntities: assumes a valid schema without unions and without lists of lists, neither of which can be resolved, and that fields under one response key have one name; `first` given by a variable counts as 100, as in the source.
- ResponseSizes.BoundExact: assumes such a schema, too, and resolvers that give no field more items than its literal `first`, or 100.
- IndexedChain.IndexedSubgraph.Turn: which mappings there are for a block depends on the block and the stored rows only; a revert restores the rows as they were before the block, as the versions kept by the database allow. Blocks with triggers are those of the data sources there are from the start.
- Registrar.EveryRun: each transaction reads and commits in one step; what happens when others commit in between is in `StaleReads`, `StaleCreations` and `StalePromotions`.
- StaleCreations.StaleCreation: is about the invariant; that the version may get the role that fits the earlier state, and a deployment that others assigned meanwhile another node, is in the state that `StaleCreationApplied` gives.
- LfuCaches.LfuCache: weights and counters are unbounded, where the source has 64-bit ones; `Extend`, which does not add up weights, and `len` are not modelled.
- EntityCaches.EntityCache: `extend` is not modelled, because it does not compose removals with earlier updates.
- SchemaImports.FollowOne: a reference that cannot be resolved is reported once per import of it, as in the source; the order of the errors is not stated.
- MovingStatistics.MovingStats.AddAt: times and durations are unbounded numbers, and time does not go back.
- StreamRuns.BlockStream.CatchUp: assumes that blocks below the reorganization threshold are final for the head they are looked at from, and that the scan returns blocks in order, within its range and ending with it; the code for that is not part of this model.
- StreamRuns.BlockStream.Turn: futures and their polling are cut into turns; retry delays have no length.
- QueryExecutions.Executions: cache keys are injective; a result is the answer of its key or an error; each lock is held for one step, also where the source holds two at once; the semaphore that limits queries is not modelled.
- ChainStores.ChainStore: block cleanup, and a head update that fails in the database, are not modelled.
- RangeScans.LogStreamSound: the retries inside one request are part of its answer.
- Registrar.MetadataStore: operations on several versions stand for one operation each; generated identifiers are new; metadata queries have no row limit.
- Indexing.IndexingContext.RunSubgraph: the mappings of a block end after any number of steps that is fixed for the block, in place of the timeout; that they read a null field like a missing one is assumed. How created data sources are loaded is not modelled; what they and the proof of indexing do are further steps of the block. `__typename` is not added.
- The SQL behind `find`, `get_many` and `attempt_chain_head_update` is modelled by what its documentation says.
- Introspection, argument coercion, fulltext search, subscriptions, event throttling and schema validation.
- RPC, IPFS, metrics, logging, cancellation and retry timing.
- The Solidity contracts, the subgraph mappings, the user interface and the deployment scripts.
