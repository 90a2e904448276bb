# Verified model of the Engrammic context service's protocols

A Dafny project that models the stateful protocols of the context service and proves what each of them
promises over whole runs. `dafny verify dfyconfig.toml` checks all of it.

| file | what it models |
|---|---|
| `Batcher.dfy` | the token-budget embedding batcher: lock, timer, futures, greedy grouping |
| `Consolidation.dfy` | merging conclusions over a shared store, with concurrent workers, crashes and repair |
| `Chains.dfy` | supersession chains, their O(1) head pointers, and the backfill of those pointers |
| `SiloDump.dfy` | paginated export of a silo's graph and the upserting import |
| `Citations.dfy` | the batched citation validator, the validation pipeline |
| `WritePath.dfy` | the versioned, capped-history, all-or-nothing Custodian write |
| `RateLimit.dfy` | the fixed-window API rate limiter |
| `EmbeddingLimit.dfy` | the blocking embedding rate limiter and its semaphore |
| `Jaccard.dfy` | Jaccard overlap as a metric, and the drift test |
| `Migration.dfy` | the vector-collection migration under crashes and reruns |
| `Lifecycle.dfy` | forget, cancel, orphan tombstoning, backfill and garbage collection, interleaved |
| `ResultCache.dfy` | the three-bucket result cache as one map |
| `Prelude.dfy` | optional values and sequence facts |

## How the model is built

Each protocol has a state, its atomic steps as functions on that state, and theorems about every sequence of
steps. Where the source updates objects in place there is a class with those fields, whose methods have the
source's loops and branches and are proved to move the state exactly as the functions do.

External systems are abstract stores. What they decide freely is a parameter or an arbitrary choice: the reply
of the embedding function, the order in which rows come back, the passage of time, whether a transaction
commits, when a process dies, what a cache evicts. Hashes are injective, JSON is the identity, and confidences
and times are real numbers.

## What the proofs found

* Batcher: a token budget of zero makes the utilisation figure of the log call divide by zero after the batch
  has been detached, so its callers wait for ever. `ExactlyOnce` holds if and only if the budget is not zero.
  When the provider returns the wrong number of vectors, the first ones are delivered and the remaining waiters
  get the length error.
* Consolidation: the module promises to skip a group that already holds a consolidated conclusion. The query
  behind it returns active conclusions only, so the guard never fires (`GuardNeverFires`;
  `ConsolidatedGroupIsMergedAgain` is a run in which such a group is merged again); a pass is skipped exactly
  when fewer than two conclusions are active (`ConsolidateByHash`). No conclusion is lost either way.
* Consolidation: the agreement boost multiplies by the number of originals, not by the number of extra ones as
  the constant's name says; the model follows the code.
* Chains: on top of history without pointers, and before any backfill, the two-hop lookup is right if and only if
  that history had not superseded the node (`LookupOnPointerlessHistory`); for the others it has no answer,
  however many supersessions follow. The backfill then repairs every chain, whatever was written in between
  (`BackfillAfterMixedHistory`).
* Import: re-running an interrupted import gives the right graph whatever the target database held before
  (`ResumeIsImport`), but without `--force` it is refused as soon as one node was written (`ResumeNeedsForce`).
  A node whose id is there but empty is merged under the empty id while its relationships are looked for under its
  element id, so they miss it; `IdOfRecord` says that this is the only such case.
  Parallel relationships of one type collapse (`ParallelsCollapse` gives the exact condition), and names lose
  characters exactly when they have non-identifier ones (`SanitizeKeeps`; the code keeps any alphanumeric
  character, its comment says ASCII only).
* Embedding limiter: a task cancelled while inside `acquire` never gives its permit back, because cancellation
  is not an `Exception`. Free permits plus users inside equal the maximum if and only if that never happened
  (`PermitsConserved`); once it has happened as often as there are permits, nobody is ever admitted again
  (`LeakedOutForever`).
* Write path: the module says a visit whose claims are all rejected is skipped. It is if and only if the visit is
  cluster-scoped (`RejectedVisitSkipped`; `RejectedSiloVisitWrites` is a silo-scoped one that writes).
* Migration: every collection survives every crash if and only if no collection to migrate is named like the
  copy of another (`ManyAttempts`, `ClashDestroys`). But every migration passes through a state in which the
  original is gone (`MigrateCollection`), and an attempt killed there is not picked up again: every rerun leaves
  the points in the copy (`MigrateAll`).
* Lifecycle: a listed node stays doomed if and only if no later cancel of it carries a clock reading from before
  the end of its window (`DoomedIffNoStaleCancel`; `StaleCancelHappens` is a run with such a reading), so with a
  monotone clock it always does. A tombstone is there for good if and only if it has no cancel window
  (`StuckIffNoWindow`), as orphan tombstoning leaves a node that was never forgotten.

## Model

| member | source | states |
|---|---|---|
| TokenBudgetBatching.AlwaysInvariant | src/context_service/embeddings/token_budget_batcher.py:77-143 | after any critical sections the counter is the pending sum, pending fits both limits or is one text, the timer is live iff work waits, and every accepted future is sent, stranded or pending, in order |
| TokenBudgetBatching.DrainEffect | src/context_service/embeddings/token_budget_batcher.py:94-143 | whenever the timer fires or the batcher is closed, nothing is pending afterwards, the timer is off, and what was pending was sent as one batch answered by that event's own reply |
| TokenBudgetBatching.ExactlyOnce | src/context_service/embeddings/token_budget_batcher.py:94-143 | over any run that ends with the timer firing or a close each future is resolved exactly once with the outcome at its own text's position, if and only if the budget is not zero |
| TokenBudgetBatching.SubmissionEffect | src/context_service/embeddings/token_budget_batcher.py:61-92 | at any point of any run a submission flushes first exactly when its text would not fit, and is refused exactly when that flush raises |
| TokenBudgetBatching.NeverTwice | src/context_service/embeddings/token_budget_batcher.py:127-137 | at no moment of any run has a future been resolved twice |
| TokenBudgetBatching.GreedyStaysAhead | src/context_service/embeddings/token_budget_batcher.py:77-90 | against any other grouping the batcher has used no more batches, and at a tie its open batch is no longer |
| TokenBudgetBatching.FewestBatches | src/context_service/embeddings/token_budget_batcher.py:77-86 | with no timer firing and a final close, the batches are an order-preserving grouping with the fewest possible batches |
| TokenBudgetBatching.TokenBudgetBatcher.ResolveBatch | src/context_service/embeddings/token_budget_batcher.py:127-137 | every waiter of the batch is resolved once, positionally, including errors and length mismatches |
| TokenBudgetBatching.TokenBudgetBatcher.FlushLocked | src/context_service/embeddings/token_budget_batcher.py:101-137 | the whole new state of a flush, keeping the invariant; when it raises |
| TokenBudgetBatching.TokenBudgetBatcher.EmbedSingle | src/context_service/embeddings/token_budget_batcher.py:61-92 | flush first when the text would not fit, then append, arming the timer on the first item |
| TokenBudgetBatching.TokenBudgetBatcher.FlushAfterTimeout | src/context_service/embeddings/token_budget_batcher.py:94-99 | sends and resolves whatever is pending, and leaves nothing pending and the timer off |
| TokenBudgetBatching.TokenBudgetBatcher.CloseBatcher | src/context_service/embeddings/token_budget_batcher.py:139-143 | sends and resolves whatever is pending, and leaves nothing pending |
| Consolidation.NothingIsLost | src/context_service/custodian/consolidation.py:89-174 | in every run of any workers with crashes and repairs, edges run from later-created to earlier-created conclusions of a group, and every conclusion reaches an active one of its silo and hash |
| Consolidation.ReachesActive | src/context_service/custodian/consolidation.py:141-143 | following consolidators from any conclusion of a sound store ends at an active one of its group |
| Consolidation.CrashThenConsolidate | src/context_service/custodian/consolidation.py:89-152 | from any state a run can leave, a completed pass leaves one active conclusion if there was any, else none, and a second pass finds too few to act |
| Consolidation.PassEffect | src/context_service/custodian/consolidation.py:108-152 | a completed pass leaves exactly the canonical active, linked to exactly the group's active originals, and touches no other group |
| Consolidation.PassIsARun | src/context_service/custodian/consolidation.py:89-152 | the uninterrupted pass is one of the interleaved runs |
| Consolidation.RepairIsARun | src/context_service/custodian/consolidation.py:154-174 | and so is the uninterrupted repair |
| Consolidation.RepairEffect | src/context_service/custodian/consolidation.py:154-174 | a completed repair marks exactly the orphans; in the silo exactly what has a consolidator is then consolidated, and no other silo is touched |
| Consolidation.AgreementIsRewarded | src/context_service/custodian/consolidation.py:122-127 | the merged confidence is above the average unless that is one, at most a tenth above, at most one; by 0.04 for two originals and 0.1 from five on where there is room |
| Consolidation.TotalOfAnyOrder | src/context_service/custodian/consolidation.py:122 | the total is the same in whatever order the originals are listed |
| Consolidation.TotalAdditive | src/context_service/custodian/consolidation.py:122 | the totals of two lists add up |
| Consolidation.TotalSingle | src/context_service/custodian/consolidation.py:122 | the total of one original is its confidence |
| Consolidation.MergedIsRewarded | src/context_service/custodian/consolidation.py:122-127 | for any number of originals the canonical's confidence is their total over their number, plus a fiftieth each up to four and a tenth from five on, cut off at one |
| Consolidation.Best | src/context_service/custodian/consolidation.py:129 | the first row of highest confidence |
| Consolidation.GuardNeverFires | src/context_service/db/queries.py:1118-1122 | the rows a pass inspects are never consolidated, so the idempotency guard never stops it |
| Consolidation.ConsolidatedGroupIsMergedAgain | src/context_service/custodian/consolidation.py:92-99 | a run with a pass that dies after its first mark leaves a group with a consolidated conclusion, and a worker then starts to merge that group |
| Consolidation.ConclusionConsolidator.ConsolidateByHash | src/context_service/custodian/consolidation.py:78-106 | None and no change exactly when fewer than two are active; otherwise the canonical is the only active one, with the rewarded average of the originals however they are listed and the content of a most confident one; dying after any write would have left a sound store |
| Consolidation.ConclusionConsolidator.CreateCanonical | src/context_service/custodian/consolidation.py:108-152 | the canonical, then for each original in turn the edge before the mark, every state on the way being sound |
| Consolidation.ConclusionConsolidator.RepairOrphanedConsolidations | src/context_service/custodian/consolidation.py:154-174 | counts the orphans, marks exactly them, leaves none for a second repair, and is sound after every write |
| Consolidation.ConclusionStore.UpsertConclusion | src/context_service/db/queries.py:1093-1110 | on a match hash and creation time are kept and the rest is overwritten, otherwise the conclusion is new; nothing else changes, and an upsert of an active conclusion keeps the store sound |
| Consolidation.ConclusionStore.CreateConsolidatesEdge | src/context_service/db/queries.py:1112-1116 | the edge is there afterwards exactly when it was before or both ends exist; nothing else changes, and a later-to-earlier edge keeps the store sound |
| Consolidation.ConclusionStore.MarkConclusionConsolidated | src/context_service/db/queries.py:1124-1128 | only that status changes, and marking what has a consolidator keeps the store sound |
| Consolidation.ConclusionStore.GetConclusionsByHash | src/context_service/db/queries.py:1118-1122 | exactly the active conclusions of the group, once each |
| SupersessionChains.PointersAlwaysAgree | src/context_service/db/queries.py:846-862 | after any supersessions tail pointers, head pointers and two-hop lookup equal the ends of the unbounded walks |
| SupersessionChains.SupersedingTakesOver | src/context_service/db/queries.py:846-862 | once a chain's head is replaced by a node in no chain, every node of the chain resolves to the new one |
| SupersessionChains.CreatedNode | src/context_service/db/queries.py:846-862 | a new node is in no chain and resolves to itself |
| SupersessionChains.TailPointersStay | src/context_service/db/queries.py:846-862 | in any graph a supersession needs both nodes in the silo, adds its edge, and never changes a tail pointer that is set |
| SupersessionChains.ResolveStaysInSilo | src/context_service/engine/queries.py:422-433 | in any graph the answer is a current node of the same silo |
| SupersessionChains.LookupAgreesWithWalk | src/context_service/engine/queries.py:422-433 | on a chain with right pointers the two-hop lookup is the end of the walk |
| SupersessionChains.HeadWalkUnique | src/context_service/db/queries.py:846-853 | the walk up from a node is the rest of its chain and nothing else |
| SupersessionChains.TailWalkUnique | src/context_service/db/queries.py:846-853 | the walk down from a node is the start of its chain and nothing else |
| SupersessionChains.JoinKeepsAnchored | src/context_service/db/queries.py:846-862 | a supersession leaves every chain's pointers at the node that headed it when pointers began, and at nodes above |
| SupersessionChains.LookupOnPointerlessHistory | src/context_service/engine/queries.py:422-433 | on pointerless history and any supersessions after it the lookup is the end of the walk exactly for nodes that history had not superseded, and empty for the others |
| SupersessionChains.BackfillRebuilds | scripts/backfill_chain_pointers.py:21-76 | from the edges alone the backfill rebuilds exactly the pointers incremental supersession left |
| SupersessionChains.BackfillAfterMixedHistory | scripts/backfill_chain_pointers.py:21-76 | after pointerless history, any supersessions and a backfill every lookup of the silo is the end of the walk |
| SupersessionChains.ChainBackfill.BackfillChain | scripts/backfill_chain_pointers.py:32-47 | fills in the pointers of exactly the walked chain |
| SupersessionChains.ChainBackfill.BackfillSilo | scripts/backfill_chain_pointers.py:50-76 | terminates, fills in exactly the silo's chains whose tail had no head pointer, and counts them |
| SiloDump.ExportPages | scripts/silo_export.py:94-116 | for every page size of at least one all rows come out once, in order; for zero none does |
| SiloDump.Export | scripts/silo_export.py:258-264 | nodes, then relationships, complete for every positive page size |
| SiloDump.SiloRelsKept | scripts/silo_export.py:118-151 | exactly the relationships with both ends in the silo come out, once each, in order |
| SiloDump.RoundTrip | scripts/silo_import.py:150-212 | export and import add an isomorphic copy of exactly the silo's nodes and relationships: same labels, relationships and properties, only the silo id rewritten, nothing else touched |
| SiloDump.ResumeIsImport | scripts/silo_import.py:157-212 | into any database, importing any prefix and then the whole dump equals importing it once; import is idempotent |
| SiloDump.ResumeNeedsForce | scripts/silo_import.py:339-352 | an interrupted import is refused without force exactly when it wrote a node |
| SiloDump.ParallelsCollapse | scripts/silo_import.py:116-121 | every relationship gets its own copy exactly when no two share source, target and type |
| SiloDump.SanitizeKeeps | scripts/silo_import.py:125-130 | a name survives sanitising exactly when it has identifier characters only |
| SiloDump.SanitizeDropsOthers | scripts/silo_import.py:125-130 | sanitising keeps every identifier character in order and drops every other |
| SiloDump.LabelsSanitized | scripts/silo_import.py:59-60 | a node gets each of its non-empty labels, sanitised, and no other |
| SiloDump.IdOfRecord | scripts/silo_import.py:157-167 | the id a record is merged under, with its fallbacks, and the exact case in which the importer looks for it under another one |
| SiloDump.NodeRecordLands | scripts/silo_import.py:157-175 | after a node record some node carries its labels, id and silo, all such nodes hold its properties, and no other node changes |
| SiloDump.SiloImporter.BuildNodeMerge | scripts/silo_import.py:51-88 | MERGE key with its fallbacks, and all other properties in the SET list |
| SiloDump.SiloImporter.ImportNode | scripts/silo_import.py:157-175 | one node record upserted and its element id remembered |
| SiloDump.MergeTwice | scripts/silo_import.py:91-122 | merging the same relationship rows again changes nothing, parallel rows with conflicting properties included |
| SiloDump.SiloImporter.ImportEdge | scripts/silo_import.py:177-212 | nothing when an end is unresolved; otherwise exactly the relationships of the type between matching nodes take the properties, and every matching pair has one |
| SiloDump.SiloImporter.ImportDump | scripts/silo_import.py:338-405 | refused exactly when not forced and the silo has a node; otherwise the records in file order |
| Citations.VerdictMeaning | src/context_service/custodian/validators.py:326-381 | accepted exactly when all ids are seen, exist and share the silo; otherwise exactly the failing ids once each, with the highest-priority reason |
| Citations.OffendersByPriority | src/context_service/custodian/validators.py:326-381 | offenders are listed by priority: never seen, missing, of another silo |
| Citations.EdgeVerdictMeaning | src/context_service/custodian/validators.py:275-324 | an edge passes exactly when it is confident, in the schema and all its ids are citable; low confidence is named before a schema violation, both without offenders, and otherwise exactly the failing ids with the first one's reason |
| Citations.SurvivorsAreCitable | src/context_service/custodian/pipeline.py:50-56 | a claim survives exactly when all its citations are citable |
| Citations.SurvivingEdgesAreCitable | src/context_service/custodian/pipeline.py:58-64 | an edge survives exactly when it is confident, in the schema and fully citable |
| Citations.SurvivingClaimsKept | src/context_service/custodian/pipeline.py:50-56 | the surviving claims are the acceptable ones in order, repetitions included |
| Citations.SurvivingEdgesKept | src/context_service/custodian/pipeline.py:58-64 | the surviving edges are the acceptable ones in order, repetitions included |
| Citations.ReasonsMeaning | src/context_service/custodian/validators.py:117-218 | the metrics recorded are the reasons of the rejected results, one each, in order |
| Citations.CitationValidator.CheckNodeIds | src/context_service/custodian/validators.py:326-381 | against a lookup map for the seen ids, the verdict the graph itself gives |
| Citations.CitationValidator.EdgeNodeIds | src/context_service/custodian/validators.py:311-324 | the ids an edge names, first occurrences in order |
| Citations.CitationValidator.ValidateClaim | src/context_service/custodian/validators.py:117-134 | one claim's verdict and metric |
| Citations.CitationValidator.ValidateProposedEdge | src/context_service/custodian/validators.py:136-158 | one edge's verdict and metric |
| Citations.CitationValidator.ValidateFinding | src/context_service/custodian/validators.py:160-218 | with at most one lookup, index by index the results of the one-at-a-time validator, and the same metrics in order |
| Citations.CitationValidator.RunValidation | src/context_service/custodian/pipeline.py:40-80 | exactly the acceptable claims and edges in order, the counts, and the business gate |
| CustodianWritePath.VersionsAndHistory | src/context_service/custodian/write_path.py:284-359 | over any visits a version is the number of visits that wrote the finding, and min(version - 1, 20) snapshots are kept |
| CustodianWritePath.BodyOfLastWriter | src/context_service/custodian/write_path.py:330-352 | the body is what the last of them left: pass, summary, its acceptable claims and edges |
| CustodianWritePath.HistoryOfEarlierWriters | src/context_service/custodian/write_path.py:295-317 | the snapshots are what the most recent earlier ones left, in order, with the fallback for a missing pass |
| CustodianWritePath.VisitEffect | src/context_service/custodian/write_path.py:248-417 | a visit that commits and is silo-scoped or has a citable claim does exactly these writes to findings, citations, proposals and clusters; any other does none |
| CustodianWritePath.ProposedExactly | src/context_service/custodian/write_path.py:379-401 | a proposal is stored exactly when a visit of its pass that wrote had an acceptable edge of that key |
| CustodianWritePath.MergedProposals | src/context_service/custodian/write_path.py:379-401 | merging keeps old proposals and gives each new key its first edge |
| CustodianWritePath.ClaimedExactly | src/context_service/custodian/write_path.py:403-417 | a pass claims a cluster exactly when a visit of that pass wrote the cluster's finding |
| CustodianWritePath.LastPassOfClusters | src/context_service/custodian/write_path.py:403-411 | each cluster there is remembers the pass of the last visit that wrote its finding |
| CustodianWritePath.CitesAreSound | src/context_service/custodian/write_path.py:361-377 | a CITES edge is there exactly when a visit that wrote its finding had a surviving claim citing the node, which was still in the finding's silo when writing |
| CustodianWritePath.CitedWasSeen | src/context_service/custodian/write_path.py:361-377 | so the visit had seen the node and found it in that silo |
| CustodianWritePath.FindingIdsUnique | src/context_service/custodian/write_path.py:303-327 | with fresh ids that differ no two findings ever share an id |
| CustodianWritePath.RejectedVisitSkipped | src/context_service/custodian/write_path.py:248-260 | a visit whose claims are all rejected writes nothing exactly when it is cluster-scoped |
| CustodianWritePath.RejectedSiloVisitWrites | src/context_service/custodian/write_path.py:18-23 | a silo-scoped visit with its only claim rejected, which writes a finding |
| CustodianWritePath.PairsMeaning | src/context_service/custodian/write_path.py:362-370 | the batch lists exactly the cited pairs, once each |
| CustodianWritePath.WritePath.Transact | src/context_service/custodian/write_path.py:284-417 | all writes of a visit, each told from the visit itself: body, id and version, proposals, citations, cluster |
| CustodianWritePath.WritePath.WriteVisit | src/context_service/custodian/write_path.py:206-429 | a skipped or aborted visit changes nothing; a committed one does all of those writes and reports them |
| RateLimiting.WindowAdmitsExactly | src/context_service/api/rate_limit.py:125-169 | an aligned window with c calls admits exactly min(c, limit) |
| RateLimiting.SlidingBound | src/context_service/api/rate_limit.py:74-77 | any 60 seconds, aligned or not, admit at most twice the limit |
| RateLimiting.SlidingBoundIsTight | src/context_service/api/rate_limit.py:125-169 | two full windows within one interval do admit twice the limit |
| RateLimiting.CountersAreFaithful | src/context_service/api/rate_limit.py:128-131 | a counter outlives its window and holds the number of calls in it |
| RateLimiting.KeyTextInjective | src/context_service/api/rate_limit.py:69-71 | distinct counters have distinct names, whatever the organisation is called |
| RateLimiting.RateLimiter.Check | src/context_service/api/rate_limit.py:103-169 | allowed exactly within the limit, with the remaining count; a refusal's retry delay is the shortest whole number of seconds, at least one, that leaves the window |
| EmbeddingLimiting.EmbeddingRateLimiter.Acquire | src/context_service/embeddings/rate_limit.py:66-117 | always returns after at most floor(timeout/60) + 3 rounds, each asking the counter of the window current then and of a later one than before, except perhaps the last; granted exactly on the first answer that allows it, refused only after the deadline |
| EmbeddingLimiting.GrantsPerWindow | src/context_service/embeddings/rate_limit.py:77-96 | over any tries of all workers a window grants exactly min(counted, rpm), and every try that could not be counted |
| EmbeddingLimiting.UsersAccounted | src/context_service/embeddings/rate_limit.py:119-130 | users inside are the grants less the exits, and permits out the entries less refusals and exits |
| EmbeddingLimiting.PermitsConserved | src/context_service/embeddings/rate_limit.py:119-130 | permits are conserved, and none is lost exactly when nobody was cancelled while acquiring |
| EmbeddingLimiting.LeakedOutForever | src/context_service/embeddings/rate_limit.py:119-130 | after as many such cancellations as permits nobody is admitted in any continuation |
| Jaccard.Triangle | src/context_service/custodian/fingerprints.py:34-48 | the triangle inequality of the Jaccard distance, empty sets included |
| Jaccard.ZeroIffEqual | src/context_service/custodian/fingerprints.py:34-48 | distance zero exactly on equal member sets |
| Jaccard.DriftMeaning | src/context_service/custodian/fingerprints.py:34-60 | a drift is accepted exactly when the shared members make up the threshold's part of all members: four fifths at the default |
| Jaccard.Symmetric | src/context_service/custodian/fingerprints.py:34-48 | the distance is symmetric |
| Jaccard.DriftsCompose | src/context_service/custodian/fingerprints.py:51-60 | two drifts accepted at 0.8 leave an overlap of at least 0.6 |
| Jaccard.DriftChain | src/context_service/custodian/fingerprints.py:51-60 | over any number of accepted drifts the losses at worst add up |
| HybridMigration.ManyAttempts | scripts/migrate_qdrant_to_hybrid.py:25-186 | with names apart, leftover copies or not, over any attempts killed anywhere every original collection is in every state there with all its points, under its name or the copy's |
| HybridMigration.NothingLost | scripts/migrate_qdrant_to_hybrid.py:73-183 | the invariant of every step implies that |
| HybridMigration.MigrateCollection | scripts/migrate_qdrant_to_hybrid.py:52-186 | finishes exactly when the process outlives its writes, counted page by page; complete, it has only named the vectors and removed the copy, and has passed through a state with the original gone |
| HybridMigration.MigrateAll | scripts/migrate_qdrant_to_hybrid.py:200-218 | lists exactly the unnamed collections and finishes exactly when the process outlives all their writes; complete, each has exactly its points and nothing needs migration; bystanders are never touched, and a collection in limbo stays there |
| HybridMigration.Qdrant.CopyPoints | scripts/migrate_qdrant_to_hybrid.py:95-128 | the paginated copy is complete, and every state on the way is safe |
| HybridMigration.ClashDestroys | scripts/migrate_qdrant_to_hybrid.py:73-78 | on every server where names clash, once the collection named like a copy is migrated the other's first write destroys it, or at once if it has no copy of its own |
| Lifecycle.SelectedNeverRevives | src/context_service/db/queries.py:1773-1834 | a node once listed by a collector is gone or tombstoned for ever after, and no cancel restores it |
| Lifecycle.DeletedOnlyWhenUncancellable | src/context_service/db/queries.py:1842-1847 | whatever removes a node is a collector's delete of a node that can no longer be cancelled |
| Lifecycle.AlwaysDoomed | src/context_service/db/queries.py:1760-1847 | under every interleaving each listed node still present is tombstoned and past its window |
| Lifecycle.StrandedForever | src/context_service/db/queries.py:1819-1834 | a tombstone without a cancel window is there for good |
| Lifecycle.StuckIffNoWindow | src/context_service/db/queries.py:1819-1847 | an unlisted tombstone survives every continuation exactly when it has no cancel window |
| Lifecycle.WindowLeadsOut | src/context_service/db/queries.py:1773-1847 | a tombstone with a window can be cancelled before it ends and collected after, and neither at that very moment |
| Lifecycle.FirstCancelRestores | src/context_service/db/queries.py:1760-1786 | whatever happens in between, the first cancel in time puts a forgotten node back in the state it had |
| Lifecycle.ForgetEffect | src/context_service/db/queries.py:1760-1771 | exactly active and superseded nodes can be forgotten |
| Lifecycle.OrphanStrands | src/context_service/db/queries.py:1819-1826 | orphan tombstoning takes exactly wisdom nodes, and a never forgotten one for good |
| Lifecycle.BackfillEffect | src/context_service/db/queries.py:1915-1926 | after the backfill every node has a state, superseded exactly when it was or when it was live and has a newer node |
| Lifecycle.BackfillTwice | src/context_service/db/queries.py:1915-1926 | running the backfill again changes nothing |
| Lifecycle.DeleteNeedsTombstone | src/context_service/db/queries.py:1842-1847 | with any clock only a collector's delete of a listed node that is a tombstone just then removes it |
| Lifecycle.DoomedIffNoStaleCancel | src/context_service/db/queries.py:1773-1834 | with any clock readings a listed node is gone or tombstoned past its window at every later point exactly when no later cancel of it carries a reading before the window's end |
| Lifecycle.StaleCancelHappens | src/context_service/db/queries.py:1773-1786 | a run in which a listed node is active again after such a cancel |
| Lifecycle.LifecycleStore.CollectGarbage | src/context_service/sage/transactions.py:3262-3327 | removes only collectable nodes, at most the batch, all of them when fewer, and exactly their edges |
| ResultCache.BehavesAsOneMap | src/context_service/cache/result_cache.py:72-213 | with comma-free layer names and under arbitrary eviction a hit is the latest set of that normalised request since its silo was invalidated; without eviction every such set hits |
| ResultCache.KeyFaithful | src/context_service/cache/result_cache.py:115-137 | keys and normalised requests determine each other |
| ResultCache.KeyMeaning | src/context_service/cache/result_cache.py:115-137 | two requests share a key exactly when they agree on normalised query, layers in any order, filters, and every other parameter |
| ResultCache.BucketChoice | src/context_service/cache/result_cache.py:72-112 | which bucket a request uses, told from what its layers are |
| ResultCache.SameBucket | src/context_service/cache/result_cache.py:72-112 | equal keys pick the same bucket |
| ResultCache.InvalidateThenLookup | src/context_service/cache/result_cache.py:201-213 | invalidation removes the silo's entries and no others |
| ResultCache.ValidBehavesAsOneMap | src/context_service/mcp/tools/context_query.py:203-208 | for every request the query tool lets through, a hit is the entry of the latest set for it since its silo was invalidated, and without eviction every such set hits |
| ResultCache.ResultCacheStore.Get | src/context_service/cache/result_cache.py:139-170 | the entry under the request's key in the request's bucket |
| ResultCache.ResultCacheStore.SetEntry | src/context_service/cache/result_cache.py:172-199 | stores under the key in the bucket, nothing when not cacheable |
| ResultCache.ResultCacheStore.InvalidateSilo | src/context_service/cache/result_cache.py:201-213 | the three buckets without the silo's entries |

## Assumptions

* Batcher: callers are not cancelled while they wait. When the timer task flushes, it cancels itself; the model
  disarms the timer.
* Consolidation: canonical ids are fresh; agents upsert with status active. The query for orphaned conclusions is
  not part of this model; its rows are taken to be the active conclusions with an incoming CONSOLIDATES edge.
* Chains: the superseding node is in no chain yet and the superseded one is a current head. Node ids are unique
  across silos, and a chain stays within one silo.
* Import: no two node records of a dump share an application id; property values are plain, property keys and
  at least one character of every label and type are identifier characters, since the script pastes them into
  queries. The round trip further takes ids that are present and not empty, and identifier names.
* Citations: a content node's id is unique. The Finding queries are imported from another package; they are
  modelled as the write path uses them, with the trim keeping the most recent snapshots.
* Rate limiters: reading the window and incrementing are one step; wall clock and monotonic clock run at one rate.
* Lifecycle: which state the SET list of TOMBSTONE_NODE saves, the one before the forget or the one just written,
  is the database's matter and not part of this model. `FirstCancelRestores` is for the former, everything else
  holds for both.
* Write path: ids drawn for new findings differ (`FindingIdsUnique` only).

## Left out

- All network, driver, model and logging calls: replaced by abstract stores and arbitrary replies.
- Rate limiter fail-open, disabled and developer calls: they admit without counting.
- Dry-run modes of the scripts and chains that cross silos: the backfill loop makes no progress there.
- Forked or merged supersession graphs: the pointers are defined for single-parent chains.
- Vector records of an export, the manifest line and its version check: no property beyond a copy.
- The retry delay inside a refused `acquire`: a number for the caller, unlike the API limiter's not clamped.
- `member_fingerprint`: an equality test on a hash of the sorted members.
- `canonicalize_url`, quality scores and the detail strings of rejections: text and numbers used only in output.
- Consolidation locks: workers are not excluded from one another, which covers expired locks.
- Lifecycle.LifecycleStore.CollectGarbage: is the collector run without interruption; the interleaved collector is the select and delete actions of the runs.
- Lifecycle queries and cache operations on values: each query is one atomic update of a value; classes wrap them only where the source loops.
- SupersessionChains.ChainBackfill.BackfillSilo: is called with the layout of the chains as a ghost argument, which the proofs show is determined by the edges.
- HybridMigration.MigrateCollection: vector sizes and the server's answers other than dying are not modelled.
