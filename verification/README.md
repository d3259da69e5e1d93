# PrismDB, modelled and proved in Dafny

PrismDB is a single-writer event store: immutable parts, an atomic catalog of snapshots, a durable
admission log in front of it, and approximate search with exact reranking over it. This project models
the parts of its engine whose correctness spans several operations, and proves what the engine promises
about them. Where a promise does not hold of the code as written, the code is kept, a lemma shows the
failure, and another states exactly when the promise holds.

- **Ingest, log and recovery** (`Ingest`, `IngestInvariant`, `IngestRuns`, `IngestHistory`, `IngestOnce`,
  `IngestLimits`, `Ingestor`): every durable write is a step, and a process may die between any two. The
  invariant is proved write by write, then over every history of batches, crashes and recoveries that may
  crash themselves. `IngestOnce` proves of every write of every history what keeps keys visible at most
  once and what compaction may drop; `IngestLimits` says exactly when each remaining assumption matters.
  The imperative ingestor is proved to issue exactly those writes.
- **Query execution** (`TopK`, `Scan`, `Rerank`, `Sharding`, `Pagination`): the heap in place, three
  physical scan strategies that must agree, threshold queries that lose nothing under a bounded
  approximation error, layout and shard invariance, and keyset pages that tile.
- **Merging** (`Merge`, `MergeCycles`, `Tiers`, `Scheduler`, `MergePlan`, `MergeFairness`,
  `MergeRuns`): last-write-wins reconciliation and its confluence, tiered cycles against the full merge,
  size tiers, the budgeted round-robin planner, whom it is fair to, and its plans carried out on the parts
  until none is left.
- **Generation lifecycle** (`Migration`, `Lifecycle`, `LifecycleSafety`, `LifecycleLimits`,
  `LifecycleIds`): every operation that publishes a snapshot, over every history, what migration
  conserves and when it finishes, and which events the live snapshot answers with.
- **Fair selection** (`Sampling`, `Fairness`, `Admission`, `Clustering`): quota arithmetic with largest
  remainders, round-robin interleaving, rate windows, and mergeable cluster aggregates.
- **Key rotation** (`Keys`): expand, activate, rewrap and retire over live parts, logged records and the
  store's tenant key, and the cache.

`Ordering`, `Lists` and `Fronts` hold the shared vocabulary: stable sorting, the best `c` of a sequence,
maps, filters and their multisets, and what being among the first few means by counting.

The main operations are specified twice: by the functions that say how a result is computed, such as
`Supersedes`, `Clears` or `Picked`, and by laws on the entities' own fields (times and hashes, scores and
ids, tickets, offsets) that do not use those functions.

Conventions. Identifiers (event ids, tenants, partition names, content hashes) are only ever compared, so
they are numbers in the order the engine compares them. Distances and scores are reals: rounding is not
part of any property here. The clock, the embedder, the model policy, the checksum and the JSON encoding
are parameters. A parameter that a property needs to be invertible, such as the cursor's body encoding,
says so in a `requires`. A score that travels in a cursor is a 32-bit float, so a whole multiple of two
to the minus 149; the rows a client pages through are required to have such scores.

Where the engine's comments and its code differ, the model follows the code:

- `tier_of` documents half-open tiers from `base·ratio^t`; its loop makes tier `t` end at that bound.
- `supersedes` calls rows with equal time and content hash byte-identical; the hash leaves fields out.
- `reembed_parts` says a row that fails to embed stays in its old part; the old part is dropped when any
  other row of the partition embeds.
- The append calls its fsync the acknowledgement point and says ids are never reused; the allocator is
  saved after it, so one crash window reuses an id.
- Key retirement is described as having the shape of generation retirement; it reads the live snapshot
  only, not every retained one. It also does not count the store's own tenant key, which no rewrap
  renews although every search opens it first.

## Model

| member | source | states |
|---|---|---|
| `TopK.Heap.Offer` | crates/prism-engine/src/topk.rs:57-68 | the in-place heap after an offer is the heap the offer is specified to leave |
| `TopK.Heap.SiftUpFrom` | crates/prism-engine/src/topk.rs:70-80 | the upward loop computes the specified sift, whatever the heap held |
| `TopK.Heap.SiftDownFrom` | crates/prism-engine/src/topk.rs:82-99 | the downward loop computes the specified sift, whatever the heap held |
| `TopK.SiftUpOrders` | crates/prism-engine/src/topk.rs:70-80 | a heap out of order only at one index on the way up is ordered after the sift |
| `TopK.SiftDownOrders` | crates/prism-engine/src/topk.rs:82-99 | a heap out of order only below one index is ordered after the sift |
| `TopK.RootIsWorst` | crates/prism-engine/src/topk.rs:62-67 | nothing kept is worse than the root, so comparing with the root alone is enough |
| `TopK.OfferOrders` | crates/prism-engine/src/topk.rs:57-68 | every offer keeps the heap order, for every capacity including zero |
| `TopK.OfferAllSelects` | crates/prism-engine/src/topk.rs:28-68 | after any stream of offers the heap holds as many rows as fit, and everything dropped is no nearer than everything kept |
| `TopK.OfferAllIsBest` | crates/prism-engine/src/topk.rs:126-137 | the sorted heap is exactly the best `cap` rows by (distance, event id), for every offer order |
| `TopK.RefusedIsInert` | crates/prism-engine/src/topk.rs:105-120 | a distance `would_admit` turns away could not have changed the selection |
| `Scan.Collector.Offer` | crates/prism-engine/src/search.rs:104-127 | one collector interface over both kinds: a ranked offer goes to the heap, a threshold offer counts overfetch and sets the overflow flag |
| `Scan.AdcScan` | crates/prism-engine/src/search.rs:667-760 | the reused distance buffer holds each row's approximate distance |
| `Scan.ScanRange` | crates/prism-engine/src/search.rs:764-868 | each of the three physical strategies, loop for loop, leaves the collector its row-at-a-time specification leaves, or fails where it fails |
| `Scan.ScanAll` | crates/prism-engine/src/search.rs:667-870 | the same over every range of every part in turn |
| `Scan.SkippingIsInvisible` | crates/prism-engine/src/search.rs:128-133 | testing admission before the predicate leaves the same collector state: contents, overflow flag and overfetch count |
| `Scan.PlanInvariance` | crates/prism-engine/src/search.rs:84-156 | any two of the three strategies leave the same collector state over every row sequence, mask and collector kind when no predicate faults |
| `Scan.PlanInvarianceExactly` | crates/prism-engine/src/search.rs:764-868 | scalar-first always agrees with interleaved; semantic-first agrees if and only if no predicate faults or a faulting row is still admissible when it is reached |
| `Scan.PlanInvarianceCanFail` | crates/prism-engine/src/search.rs:840-868 | a concrete scan where semantic-first answers and interleaved fails |
| `Scan.OutcomeWithFaults` | crates/prism-engine/src/search.rs:764-868 | a scan reports a fault exactly when it shows, for semantic-first when a faulting row is still admissible on arrival; otherwise it leaves what it would if faulting rows were dropped |
| `Scan.BoundedScanKeepsBest` | crates/prism-engine/src/search.rs:119-127 | a ranked scan offers exactly the rows the mask passes |
| `Scan.ThresholdScanKeepsAll` | crates/prism-engine/src/search.rs:93-116 | a threshold scan keeps every passing row within the relaxed bound, and its flag and count are those of the whole stream |
| `Rerank.GroupByPart` | crates/prism-engine/src/search.rs:1011-1060 | grouping candidates by part for fetching loses and repeats none |
| `Rerank.RerankScores` | crates/prism-engine/src/search.rs:1011-1140 | scoring part by part scores every candidate once |
| `Rerank.FinalizeHits` | crates/prism-engine/src/search.rs:1160-1205 | sort, threshold, cut at k, then drop tombstones, in that order |
| `Rerank.CandidatePhase` | crates/prism-engine/src/search.rs:655-890 | a fault is reported exactly when it shows; otherwise the candidates are those of the rows that pass, a faulting row counting as dropped |
| `Rerank.RerankPhase` | crates/prism-engine/src/search.rs:919-960 | width and byte budgets cut the candidates before scoring; a threshold query is not cut by width |
| `Rerank.SearchAt` | crates/prism-engine/src/search.rs:426-456 | a whole query reports a fault exactly when it shows, is refused exactly when a threshold query finds more passing rows at distance at most 2(1 - tau) + epsilon than the state budget, and otherwise scores the nearest passing rows as far as its widths and byte budget allow and returns the live ones that reach the threshold, by score and then id, at most k, one left out only if k are ahead of it |
| `Rerank.JudgedHolds` | crates/prism-engine/src/search.rs:764-868 | the passing rows are exactly those whose predicate holds, each at its approximate distance |
| `Rerank.AnswerMeans` | crates/prism-engine/src/search.rs:919-1205 | every answer, ranked or threshold, in distances, scores and ids: which rows were scored (a scored row has room for itself and all nearer ones, a row with room for all no farther is scored) and which hits they gave, in what order, none twice |
| `Rerank.FinalizePermutes` | crates/prism-engine/src/search.rs:1155-1170 | the order scored rows arrive in does not reach the answer |
| `Rerank.ExactScoreFromDistance` | crates/prism-engine/src/search.rs:659-666 | for unit vectors the squared distance is two minus twice the cosine, which is where the threshold bound comes from |
| `Rerank.NothingClearingIsLost` | crates/prism-engine/src/search.rs:93-116 | no row whose exact score clears the threshold falls outside the relaxed bound |
| `Rerank.ThresholdIsExact` | crates/prism-engine/src/search.rs:1160-1205 | with distances within epsilon and no byte budget, the answer is exactly the first k by (score, id) of all passing rows that clear the threshold, less tombstones |
| `Rerank.ThresholdRanksEverything` | crates/prism-engine/src/search.rs:1160-1205 | so each hit of such a query is a live passing row scoring at least tau, in order of score and then id, and every live passing row scoring at least tau is a hit unless k passing rows that do are ahead of it |
| `Rerank.RefusalBrackets` | crates/prism-engine/src/search.rs:659-666 | the refusal count lies between the rows clearing tau and the rows clearing tau less epsilon |
| `Rerank.TombstonesAfterCut` | crates/prism-engine/src/search.rs:1185-1205 | filtering tombstones after the cut gives the live top k if and only if the cut held only live rows or nothing live was left behind it |
| `Rerank.TombstoneCanHideALiveRow` | crates/prism-engine/src/search.rs:1200-1205 | a top-1 whose best row is deleted answers nothing although a live row matches |
| `Sharding.CoordinateCrossShard` | crates/prism-engine/src/sharded.rs:629-770 | the coordinator's two rounds compute the specified cluster answer, a refusing shard refusing the query |
| `Sharding.RankedFromContents` | crates/prism-engine/src/search.rs:919-955 | a ranked answer is a function of the rows' distances, ids and scores alone |
| `Sharding.LayoutInvariance` | crates/prism-engine/src/search.rs:1155-1170 | two layouts of the same rows give the same ranked answer, whichever parts hold them and whatever the scan order |
| `Sharding.ShardsLoseNothing` | crates/prism-engine/src/search.rs:1277-1330 | the best w of the shards' best-c lists is the best w of all rows, for every split, when w is at most c |
| `Sharding.RerankSetsAgreeExactly` | crates/prism-engine/src/sharded.rs:700-770 | a cluster reranks the same candidates as one store if and only if the rerank width fits the candidate width, the rows fit it, or one shard holds every row |
| `Sharding.ShardInvariance` | crates/prism-engine/src/sharded.rs:629-770 | under that condition a cluster's ranked answer equals one store's over the same rows |
| `Sharding.ShardAnswersAgreeExactly` | crates/prism-engine/src/sharded.rs:629-770 | for k above the candidate width and nothing deleted, the answers themselves agree if and only if that condition holds |
| `Sharding.SpreadRowsAnswerMore` | crates/prism-engine/src/sharded.rs:700-770 | two shards of one row each, one candidate and a rerank of two: the cluster returns two hits and one store returns one |
| `Sharding.ThresholdAcrossShards` | crates/prism-engine/src/sharded.rs:629-770 | a threshold query agrees with one store if and only if a global overflow also overflows some shard, because the budget is checked shard by shard |
| `Sharding.SpreadRowsEscapeTheBudget` | crates/prism-engine/src/sharded.rs:629-770 | one near row on each of two shards and a state budget of one: the cluster answers and one store refuses |
| `Pagination.CursorRoundTrip` | crates/prism-engine/src/sql.rs:56-84 | decoding an encoded cursor returns it, through hex, checksum and body, for every body whose score a 32-bit float can hold |
| `Pagination.ChecksumGuards` | crates/prism-engine/src/sql.rs:66-84 | a cursor whose payload does not sum to the number it carries is rejected as a checksum failure; one that does decodes to its body, or is unparsable |
| `Pagination.AlteredCursorIsRejected` | crates/prism-engine/src/sql.rs:78-82 | a cursor handed out and given another payload is rejected unless the payloads collide |
| `Pagination.SomeCodecIsLawful` | crates/prism-engine/src/sql.rs:41-84 | the law the cursor asks of its body encoding can be kept: an encoding that returns every body with a 32-bit score, byte for byte |
| `Pagination.FindStart` | crates/prism-engine/src/sql.rs:197-210 | resuming skips exactly the rows not after the cursor's (score, id) |
| `Pagination.RunRows` | crates/prism-engine/src/sql.rs:181-252 | one page: the snapshot and route a cursor pins, the rows after it, and the next cursor if more remain |
| `Pagination.NextPage` | crates/prism-engine/src/sql.rs:181-252 | a well-formed cursor's page is the page its body names, whatever is current by then |
| `Pagination.Drain` | crates/prism-engine/src/sql.rs:181-252 | following cursors to the end terminates and concatenates the pages of the first request's snapshot and route, whatever commits meanwhile |
| `Pagination.PagesTile` | crates/prism-engine/src/sql.rs:200-252 | the pages tile the sorted rows if and only if no page boundary falls between equal (score, id) keys |
| `Pagination.PaginationTiles` | crates/prism-engine/src/sql.rs:149-252 | with distinct keys and a positive limit the pages are the sorted result, no gap and no repeat |
| `Pagination.DuplicateKeysLoseRows` | crates/prism-engine/src/sql.rs:197-210 | three equal keys and a limit of two: the third row is never returned |
| `IngestInvariant.KeepsDeadLetter` | crates/prism-engine/src/ingest.rs:493-510 | a dead letter keeps the protocol invariant and every promise |
| `IngestInvariant.KeepsAppendFrame` | crates/prism-engine/src/wal.rs:356-364 | appending a record keeps them when nothing is outstanding, its id is uncovered and its keys are new |
| `IngestInvariant.KeepsSaveAllocator` | crates/prism-engine/src/wal.rs:366-370 | saving the allocator keeps them |
| `IngestInvariant.KeepsCommit` | crates/prism-engine/src/ingest.rs:462-473 | the atomic commit of rows and marker keeps them once older uncovered records are settled |
| `IngestInvariant.KeepsSaveIndex` | crates/prism-engine/src/idempotency.rs:109-116 | recording a settled record's keys keeps them: an index entry always names a settled event |
| `IngestInvariant.KeepsCommitOffset` | crates/prism-engine/src/source.rs:86-92 | committing an offset keeps them when everything before it is settled |
| `IngestInvariant.KeepsCompact` | crates/prism-engine/src/wal.rs:468-497 | compaction through the marker keeps them when every dropped key is recorded: nothing unrecorded leaves the log |
| `IngestRuns.PublishSafe` | crates/prism-engine/src/ingestor.rs:366-413 | publication may die after any write; completed, its record is settled and recorded |
| `IngestRuns.RecoverSafe` | crates/prism-engine/src/ingestor.rs:147-172 | recovery may die after any write; completed, every record the log held is settled and nothing is outstanding |
| `IngestRuns.IngestEnds` | crates/prism-engine/src/ingestor.rs:218-358 | where a completed batch leaves the durable state |
| `IngestRuns.BatchCommitsItsOffset` | crates/prism-engine/src/ingestor.rs:294-346 | a completed batch, empty, replayed or fresh, commits its own source offset and no other; without a cursor no offset moves |
| `IngestRuns.BatchPublishesExactly` | crates/prism-engine/src/ingestor.rs:243-358 | how often each event becomes visible: as often as accepted if its key was not in the index, the policy allows it and it embeds, and otherwise not at all |
| `IngestRuns.BatchDeadLettersExactly` | crates/prism-engine/src/ingestor.rs:243-413 | how often each event is dead-lettered: as often as rejected, plus as often as accepted if its key is indexed with another hash, or is new and disallowed or not embeddable |
| `IngestHistory.IngestSafe` | crates/prism-engine/src/ingestor.rs:218-358 | a batch may die after any write; completed, nothing is outstanding |
| `IngestHistory.CommittedBatchRepairs` | crates/prism-engine/src/ingestor.rs:218-358 | a batch under an id the marker already covers that reaches its commit keeps the invariant and every promise wherever it dies afterwards, and leaves nothing outstanding if it completes |
| `IngestHistory.EveryHistoryIsSafe` | crates/prism-engine/src/ingestor.rs:147-413 | over every history of batches, crashes and recoveries: each dedup key is visible at most once, offsets and index entries never lead what is settled, and a ready store has nothing outstanding; no batch may die between its frame and its commit under an id the marker covers |
| `IngestHistory.AcknowledgedIsNeverLost` | crates/prism-engine/src/ingestor.rs:284-303 | an acknowledged event stays in the log until it is visible or dead-lettered, at every later point of every history |
| `IngestHistory.RecoveryResolves` | crates/prism-engine/src/ingestor.rs:147-172 | after a completed recovery everything acknowledged before it is visible or dead-lettered |
| `IngestOnce.LegalKeeps` | crates/prism-engine/src/ingestor.rs:366-413 | each durable write on its own keeps what makes keys visible at most once and keeps a source's cursors ascending, under its own condition on the disk |
| `IngestOnce.IngestLegal` | crates/prism-engine/src/ingestor.rs:218-358 | every write of a batch taken on a recovered store meets that condition, its compaction included, and the log is on record when it completes |
| `IngestOnce.RecoverLegal` | crates/prism-engine/src/ingestor.rs:147-172 | so does every write of a recovery, whatever state it starts from |
| `IngestOnce.AtMostOnce` | crates/prism-engine/src/ingestor.rs:147-413 | over every history whose callers recover first and repeat no key in a batch, wherever it dies, each dedup key is visible at most once |
| `IngestOnce.CompactionDropsOnlyDurable` | crates/prism-engine/src/wal.rs:468-497 | at every compaction of every such history whose callers poll forward, each record dropped has all its keys in the index and its source offset committed |
| `IngestLimits.AllocatorKeptExactly` | crates/prism-engine/src/wal.rs:343-371 | one operation leaves the id allocator ahead of every used id if and only if it does not die between the fsynced frame and the allocator save |
| `IngestLimits.OutsideTheWindowEveryHistoryIsSafe` | crates/prism-engine/src/wal.rs:343-371 | with that one window excluded the allocator never falls behind, and every guarantee over histories needs only the callers' discipline |
| `IngestLimits.WindowThenRecoveryReusesAnId` | crates/prism-engine/src/wal.rs:364-369 | dying there and recovering leaves the marker at the id the next record will take |
| `IngestLimits.AcknowledgementKeptExactly` | crates/prism-engine/src/ingestor.rs:154-165 | a batch acknowledged, crashed and recovered is resolved if and only if no commit had reached the id it was logged under |
| `IngestLimits.CoveredDeathKeepsExactly` | crates/prism-engine/src/ingestor.rs:284-358 | a batch under an id the marker covers that dies anywhere after its frame is resolved by recovery if and only if it had reached its commit |
| `IngestLimits.SkippingRecoveryKeepsExactly` | crates/prism-engine/src/ingestor.rs:284-358 | a batch taken over an outstanding record keeps that record's acknowledged event if and only if it logs nothing, or commits nothing and does not replace the very frame that holds it |
| `IngestLimits.SkippedRecordIsCompacted` | crates/prism-engine/src/ingestor.rs:352-356 | a history that loses an event: a batch dies once acknowledged, the next one is taken without recovering and publishes |
| `IngestLimits.SkippedFrameIsReplaced` | crates/prism-engine/src/wal.rs:343-371 | a second one: a batch dies between its frame and the allocator save, and the next one publishes nothing but takes the same id |
| `IngestLimits.BatchKeysExactly` | crates/prism-engine/src/ingestor.rs:243-252 | a completed batch keeps every key visible at most once if and only if the events it publishes have distinct keys |
| `Ingestor.Classify` | crates/prism-engine/src/ingestor.rs:243-276 | each event is new, a replay or a conflict against the index as loaded, and none is lost between them |
| `Ingestor.AdmissionRecords` | crates/prism-engine/src/ingestor.rs:174-181 | the log by record id, a later frame replacing an earlier one |
| `Ingestor.Poll` | crates/prism-engine/src/source.rs:123-139 | at most `max` lines forward from the committed offset, in order, and the offset to commit after them |
| `Ingestor.PolledBatch` | crates/prism-engine/src/source.rs:123-139 | what a poll delivers and admission splits is what a batch may commit the offset for |
| `Ingestor.PollIsForward` | crates/prism-engine/src/source.rs:123-139 | over an append-only source a poll never falls behind the committed offset |
| `Ingestor.Store.WriteDeadLetters` | crates/prism-engine/src/ingest.rs:493-510 | one durable letter per event, in order |
| `Ingestor.Store.ReconcileApplied` | crates/prism-engine/src/ingestor.rs:203-215 | keys recorded, then the offset: exactly those writes and that state |
| `Ingestor.Store.PublishWalRecord` | crates/prism-engine/src/ingestor.rs:366-413 | exactly the publication's writes, in order |
| `Ingestor.Store.Append` | crates/prism-engine/src/wal.rs:320-371 | the frame first, then the allocator |
| `Ingestor.Store.Ingest` | crates/prism-engine/src/ingestor.rs:218-358 | one batch issues exactly its durable writes in order, so a crash inside it is one the histories cover; its own cursor is committed whatever became of its events and no other source's offset moves; an event becomes visible as often as it was accepted if its key is new, the policy allows it and it embeds; it is dead-lettered as often as it was rejected, or accepted and in conflict, disallowed or not embedded; and the batch is acknowledged if and only if some accepted event has a new key and is allowed |
| `Ingestor.Store.Recover` | crates/prism-engine/src/ingestor.rs:147-172 | one recovery issues exactly the recovery's durable writes, oldest record first |
| `Merge.WinnersAreUnbeaten` | crates/prism-engine/src/merge.rs:129-135 | a slot has a winner exactly when a row occupies it, and nothing there supersedes it |
| `Merge.CoveringMergesAlike` | crates/prism-engine/src/merge.rs:235-278 | dropping rows that are no better than a kept one does not change what a merge keeps |
| `Merge.MergeIsConfluentExactly` | crates/prism-engine/src/merge.rs:117-135 | the merge depends only on the multiset of rows if and only if no slot's best (time, hash) is shared by two different rows |
| `Merge.EqualHashesAreNotIdentical` | crates/prism-types/src/event.rs:75-98 | two rows with equal time and content hash differ in what the hash leaves out, and the two orders keep different rows |
| `MergeCycles.MergeAll` | crates/prism-engine/src/merge.rs:235-278 | the full merge fills a slot exactly when an undeleted row belongs in it by tenant, time and generation, with the latest such row and the highest hash among rows of that time, and rows in are rows out plus duplicates plus tombstoned rows |
| `MergeCycles.NewestWins` | crates/prism-engine/src/merge.rs:129-135 | the winner of a slot is stored and undeleted, and every other row of the slot is earlier, or of the same time with no higher a hash |
| `MergeCycles.MergeGroup` | crates/prism-engine/src/merge.rs:420-503 | a tiered operation writes, in id order, the latest undeleted row of each id in its parts, highest hash among rows of one time, nothing exactly when all are deleted, with the same accounting |
| `MergeCycles.OutputKeepsNewest` | crates/prism-engine/src/merge.rs:420-503 | whatever a tiered operation may write is the newest undeleted row of each id by time and then hash |
| `MergeCycles.FirstRowNamesThePartition` | crates/prism-engine/src/merge.rs:443-449 | naming the output after its first kept row and reconciling by id agrees with the full merge if and only if all its rows belong to one partition |
| `MergeCycles.OutputCovers` | crates/prism-engine/src/merge.rs:420-503 | in a pure store an operation's output is pure, adds no row and beats everything it dropped |
| `MergeCycles.CycleKeepsPure` | crates/prism-engine/src/merge.rs:509-522 | a whole cycle leaves every part holding rows of its own partition |
| `MergeCycles.NewestSurvivesCycles` | crates/prism-engine/src/merge.rs:371-522 | after any sequence of tiered cycles every row left was stored before, and every row stored before has one in its slot that is later, or of the same time with no lower a hash |
| `MergeCycles.TieredThenFull` | crates/prism-engine/src/merge.rs:371-522 | any sequence of tiered cycles followed by a full merge keeps the rows a full merge keeps at once |
| `Tiers.FindTier` | crates/prism-engine/src/scheduler.rs:25-37 | the loop returns the least tier whose bound covers the rows |
| `Tiers.TierIsLeast` | crates/prism-engine/src/scheduler.rs:28-36 | a row count lies in exactly one tier |
| `Tiers.FanoutClimbs` | crates/prism-engine/src/merge.rs:70-83 | from tier 1 up, a fan-out of parts always climbs, and exactly a fan-out climbs exactly one tier |
| `Tiers.ClimbsOneExactly` | crates/prism-engine/src/scheduler.rs:25-37 | a merged part lands one tier up if and only if its rows pass this bound and not the next |
| `Tiers.TierZeroStaysExactly` | crates/prism-engine/src/scheduler.rs:25-37 | a tier-0 merge stays in tier 0 if and only if its rows still fit it |
| `Scheduler.GroupParts` | crates/prism-engine/src/scheduler.rs:77-86 | every part is in the group of its partition and tier, in order |
| `Scheduler.Round` | crates/prism-engine/src/scheduler.rs:140-157 | one pass gives every bucket with merges waiting its turn: the merge at that place of its queue is admitted, or the bucket is turned away because with what earlier turns admitted it did not fit |
| `Scheduler.TakeTurn` | crates/prism-engine/src/scheduler.rs:145-157 | one bucket's turn keeps every earlier turn's outcome, the order of turns, both budgets and the count of what is left |
| `Scheduler.AdmitAll` | crates/prism-engine/src/scheduler.rs:127-157 | round-robin admission whole: each bucket gets a front of its queue, one merge a round; admitted merges stand in order of round and then bucket; a bucket that did not get all of its queue was turned away at the round it stopped in because its next merge did not fit then; and when all heads fit, every head is admitted |
| `MergePlan.MergeDebt` | crates/prism-engine/src/scheduler.rs:88-94 | the debt is the number of parts less the number of groups |
| `MergePlan.PlanMerges` | crates/prism-engine/src/scheduler.rs:76-166 | each op is one ripe group and none twice, ops and deferred add up, both budgets hold, nothing deferred would still fit; queues are one per bucket id, by rows and then partition, admitted round by round, and heads that fit are admitted |
| `MergePlan.IdleExactly` | crates/prism-engine/src/scheduler.rs:145-153 | a cycle selects nothing if and only if every ripe group alone exceeds the row budget |
| `MergePlan.OversizedIsNeverMerged` | crates/prism-engine/src/scheduler.rs:145-150 | a ripe group larger than the row budget is deferred by every plan |
| `MergePlan.QuietMeansNoTierIsFull` | crates/prism-engine/src/scheduler.rs:96-102 | nothing selected and nothing deferred means every tier is below the fan-out |
| `MergePlan.CycleShrinks` | crates/prism-engine/src/merge.rs:403-408 | every op removes at least three parts |
| `MergeFairness.FairWhenIdsAreApart` | crates/prism-engine/src/scheduler.rs:118-157 | when no two buckets with due merges share an id and the buckets' cheapest merges fit together, every bucket has a cheapest merge admitted |
| `MergeFairness.AdmittedFitsBehind` | crates/prism-engine/src/scheduler.rs:96-153 | an admitted merge fits both budgets together with everything cheaper under its id, other buckets' included |
| `MergeFairness.OneIdAdmitsExactly` | crates/prism-engine/src/scheduler.rs:96-153 | when all due merges share one id, an untied merge is admitted if and only if it fits behind the cheaper ones |
| `MergeFairness.SharedIdStarves` | crates/prism-engine/src/scheduler.rs:96-110 | the cheapest merge of a bucket is passed over, and the plan unfair to that bucket, when the cheaper merges of other buckets under its id leave it no room |
| `MergeFairness.SharedIdWitness` | crates/prism-part/src/partition.rs:46-61 | a dedicated bucket with sixteen or more due merges and a shared bucket of the same id with one: both cheapest fit together, and no plan admits the second bucket's |
| `MergeRuns.ConsumedExactly` | crates/prism-engine/src/merge.rs:403-408 | a part's id is consumed exactly when its partition and tier were selected |
| `MergeRuns.KeepUnconsumed` | crates/prism-engine/src/merge.rs:507-516 | the parts kept are those of the groups no op took, in order |
| `MergeRuns.PlannedCycleRuns` | crates/prism-engine/src/merge.rs:384-522 | the planner's ops, read back through part ids, are the disjoint one-partition groups a tiered cycle needs |
| `MergeRuns.MergeTiered` | crates/prism-engine/src/merge.rs:371-522 | one cycle carries out a sound plan on the parts themselves, writes for each op the newest undeleted row of each id by time and then hash, and leaves at least three parts fewer per op |
| `MergeRuns.EveryRunStops` | crates/prism-engine/src/merge.rs:371-522 | every run of working cycles, however merges are ranked, is at most a third as long as there were parts |
| `MergeRuns.RunCycles` | crates/prism-engine/src/merge.rs:371-522 | without ingest, cycles stop within a third as many as there were parts, along a run of planned cycles, with every ripe group over the row budget, and a full merge then keeps what it would have kept at the start |
| `Migration.ReembedParts` | crates/prism-engine/src/generations.rs:603-735 | one step keeps what cannot move and re-embeds at most the bounded number of partitions, in partition order |
| `Migration.OutcomeConservesExactly` | crates/prism-engine/src/generations.rs:660-693 | one partition keeps its rows if and only if all of them embed or none does |
| `Migration.StepConservesExactly` | crates/prism-engine/src/generations.rs:584-765 | a step keeps the multiset of rows if and only if each partition it moves embeds entirely or not at all |
| `Migration.PartialEmbeddingLosesARow` | crates/prism-engine/src/generations.rs:678-682 | one row that embeds and one that does not: the second is gone |
| `Migration.StepConverges` | crates/prism-engine/src/generations.rs:635-655 | a step lowers the number of waiting parts by at least one per partition it takes |
| `Migration.NothingWaitsExactly` | crates/prism-engine/src/generations.rs:603-632 | no partition waits if and only if every part is in the generation, redacted or unlocated |
| `Migration.StepKeepsSurvivors` | crates/prism-engine/src/generations.rs:584-765 | no step changes which rows will be left: those that embed, and those that need not move |
| `Migration.AllSurviveExactly` | crates/prism-engine/src/generations.rs:660-693 | every row is left if and only if every row that has to move embeds |
| `Migration.StepMovesExactly` | crates/prism-engine/src/generations.rs:635-735 | a partition that still waits after a step can move if and only if it could before |
| `Migration.StuckNeverFinishes` | crates/prism-engine/src/generations.rs:688-693 | a partition in which no row embeds still waits after every run of steps, whatever the bounds |
| `Migration.BlockedStays` | crates/prism-engine/src/generations.rs:635-655 | behind as many partitions in which nothing embeds as the step's bound, a partition is not reached |
| `Migration.WaitingMakesProgress` | crates/prism-engine/src/generations.rs:635-655 | behind fewer, every step that leaves a movable partition waiting moves some other part |
| `Migration.FinishesExactly` | crates/prism-engine/src/generations.rs:442-455 | after as many steps of one bound as there were parts waiting, a partition still waits if and only if nothing in it embeds or as many such partitions as the bound come before it |
| `Migration.MigrateToEnd` | crates/prism-engine/src/generations.rs:442-455 | repeating a step with any positive bounds, when some row embeds in every waiting partition, ends along a run of steps with nothing waiting, in no more steps than waiting parts, holding exactly the rows that embed and the rows that did not have to move |
| `LifecycleSafety.MergedPure` | crates/prism-engine/src/merge.rs:252-257 | a full merge's output holds only its own partition's rows |
| `LifecycleSafety.OutcomeReadable` | crates/prism-engine/src/generations.rs:695-726 | moving a partition to another generation keeps every row in its own partition |
| `LifecycleSafety.BlankedReadable` | crates/prism-engine/src/generations.rs:798-857 | redaction keeps partition and generation |
| `LifecycleSafety.RetireKeeps` | crates/prism-engine/src/generations.rs:461-494 | retiring a generation nobody's parts are in leaves every snapshot readable |
| `LifecycleSafety.StepKeepsReadable` | crates/prism-part/src/catalog.rs:428-480 | every operation, wherever it dies, leaves every part of every snapshot pure and its generation on record |
| `LifecycleSafety.EverySnapshotStaysReadable` | crates/prism-engine/src/generations.rs:142-494 | the same over every history of ingests, merges, re-embeddings, promotions, migrations, redactions, deletions, retirements, rollbacks and collections |
| `LifecycleSafety.ProposalLeaves` | crates/prism-engine/src/generations.rs:142-857 | what each operation commits, field by field: the state of every generation, the active one, the deleted ids and the parts; a redaction keeps the number and keys of parts, blanks row by row those located, unredacted and expired and marks them, and leaves the rest; a migration writes one unredacted part of the embedding rows per partition moved |
| `LifecycleSafety.CatalogStore.Publish` | crates/prism-part/src/catalog.rs:428-480 | record, snapshot file, rename of CURRENT, record removal: the states in between are the ones a history may die in; an operation publishes exactly when none of its reasons to refuse holds; the new snapshot has exactly the marks, active generation, deleted ids and parts the operation is for, entry by entry, the records are the ones it leaves, and every other snapshot is as it was |
| `LifecycleLimits.ConservesExactly` | crates/prism-engine/src/generations.rs:353-455 | a conserving operation publishes exactly the rows it found if and only if every partition it re-embeds goes over whole |
| `LifecycleLimits.IngestAddsTheBatch` | crates/prism-engine/src/ingest.rs:333-473 | an ingest publishes what was there and the batch, nothing else |
| `LifecycleLimits.ActiveKeptExactly` | crates/prism-engine/src/merge.rs:773-785 | only a rollback can leave the active generation off the record, exactly when its target's active generation was retired |
| `LifecycleLimits.StatesAgreeExactly` | crates/prism-engine/src/generations.rs:395-440 | promotion, installation and migration move the active mark; only a rollback or a re-embedding leaves it behind, exactly when the generation left was marked |
| `LifecycleLimits.RetireThenRollbackRefusesIngest` | crates/prism-engine/src/generations.rs:470-480 | a generation named active by an older snapshot but used by no part can be retired, and rolling back to that snapshot then refuses every ingest |
| `LifecycleLimits.PartitionRows` | crates/prism-engine/src/ingest.rs:383-395 | every row is buffered into the one part of its own partition |
| `LifecycleIds.FullMergeShowsTheSame` | crates/prism-engine/src/merge.rs:235-332 | a full merge answers with exactly the ids that were answered before it |
| `LifecycleIds.TieredMergeShowsTheSame` | crates/prism-engine/src/merge.rs:371-522 | so does a tiered merge, which reads some of the parts and keeps the tombstones |
| `LifecycleIds.OperationShowsExactly` | crates/prism-engine/src/generations.rs:142-494 | after any operation an id shows if and only if the operation brings it in, or it showed and the operation does not take it away |
| `LifecycleIds.ShownExactly` | crates/prism-engine/src/generations.rs:142-494 | over every history, crashes included, the live snapshot shows an id if and only if some published ingest or rollback brought it in unhidden and nothing published since took it away |
| `LifecycleIds.TombstonedExactly` | crates/prism-engine/src/delete.rs:19-45 | over every history an id is tombstoned if and only if it was deleted and no full merge was published since |
| `LifecycleIds.RollbackShowsExactly` | crates/prism-engine/src/merge.rs:773-785 | after any history a rollback shows an id if and only if its target stores it and a full merge followed every deletion of it |
| `LifecycleIds.MergeThenRollbackUndeletes` | crates/prism-engine/src/merge.rs:329-332 | a row deleted before a full merge shows again after rolling back past it |
| `LifecycleIds.RedactedIsKept` | crates/prism-engine/src/generations.rs:603-632 | migration leaves the events of a redacted part stored |
| `LifecycleIds.MergeExposesRedacted` | crates/prism-engine/src/merge.rs:285-303 | a full merge clears the redaction mark, and the next migration drops an event whose row no longer embeds when another row of its partition does |
| `Sampling.Allocate` | crates/prism-engine/src/sample.rs:115-163 | the three loops compute the specified quotas |
| `Sampling.QuotaBounds` | crates/prism-engine/src/sample.rs:124-146 | each stratum gets at least its floor or all it has, and never more than it has |
| `Sampling.WithinSizeExactly` | crates/prism-engine/src/sample.rs:124-136 | the quotas sum to at most the sample size if and only if there are no more non-empty strata than slots |
| `Sampling.FloorsOverfill` | crates/prism-engine/src/sample.rs:124-135 | two strata of one row and one slot: two rows are sampled |
| `Sampling.RoundingDropsLittle` | crates/prism-engine/src/sample.rs:139-148 | rounding the proportional shares down drops less than one slot per stratum |
| `Sampling.FillsTheSample` | crates/prism-engine/src/sample.rs:136-161 | with headroom in every stratum the quotas sum to exactly the sample size |
| `Sampling.FillsTheSampleExactly` | crates/prism-engine/src/sample.rs:124-161 | the quotas use the whole sample if and only if what the floors and shares leave is no more than the strata with rows to spare |
| `Sampling.RoomGoesUnused` | crates/prism-engine/src/sample.rs:136-161 | strata of one, one and five rows and seven slots: a row is left out although every row would fit |
| `Sampling.LargestRemaindersFirst` | crates/prism-engine/src/sample.rs:149-161 | the slots rounding dropped go to the largest remainders, ties to the earlier name |
| `Sampling.StratifiedSample` | crates/prism-engine/src/sample.rs:171-240 | the sample holds rows of the store, none more often than the store does, exactly the quota of each stratum; no row left out has a smaller (ticket, id) than a row of its stratum taken; and it ascends by (ticket, id) |
| `Sampling.SampleIsBottomTickets` | crates/prism-engine/src/sample.rs:171-240 | the same of the specified sample, for every set of rows, size and ticket function |
| `Sampling.LayoutDoesNotMatter` | crates/prism-engine/src/sample.rs:165-240 | the sample and its order are a function of the set of rows, not of their order |
| `Fairness.InterleaveByTenant` | crates/prism-engine/src/admission.rs:186-207 | the interleaved batch is a permutation, and a tenant's j-th event lands where the counts alone put it |
| `Fairness.GroupByTenant` | crates/prism-engine/src/admission.rs:187-190 | one queue per tenant in name order, each in arrival order |
| `Fairness.OrderKept` | crates/prism-engine/src/admission.rs:186-207 | each tenant's events keep their order |
| `Fairness.LoudnessDoesNotMatter` | crates/prism-engine/src/admission.rs:170-185 | a tenant's j-th event lands in the same place however far any other count exceeds j |
| `Admission.QuotaEnforcer.Charge` | crates/prism-engine/src/admission.rs:126-168 | a charge is granted exactly when the tenant's own window, as its own charges left it, has room; every charge is recorded and no other tenant's usage changes |
| `Admission.AtMostTwiceTheQuota` | crates/prism-engine/src/admission.rs:143-166 | no span of one window grants a tenant more than twice its event or byte quota |
| `Admission.TwiceIsReached` | crates/prism-engine/src/admission.rs:132-147 | a history that grants exactly twice the quota in one span |
| `Admission.BackwardClockBreaksTheBound` | crates/prism-engine/src/admission.rs:140-147 | a clock that goes back lets three times the quota into one span |
| `Admission.AdmitOne` | crates/prism-engine/src/admission.rs:245-275 | an event is admitted if and only if it passes caps and skew at this instant, its keys fit and its tenant's window has room; only then do its keys enter the dictionary |
| `Admission.NothingIsDropped` | crates/prism-engine/src/admission.rs:236-285 | over any run every offer is accepted or rejected, once |
| `Admission.DictionaryIsTheAccepted` | crates/prism-engine/src/admission.rs:272-275 | over any run the dictionary is the keys of the accepted events, and never passes its cap |
| `Admission.GrantsAreTheAccepted` | crates/prism-engine/src/admission.rs:126-168 | over any run a tenant's quota is spent by its accepted events and by nothing else |
| `Admission.AcceptedWithinTwice` | crates/prism-engine/src/admission.rs:126-285 | over any run with a clock that does not go back, no span of one window accepts from a tenant more than twice either quota |
| `Admission.RoomIsGranted` | crates/prism-engine/src/admission.rs:126-168 | the bound's other half: a request that keeps to both quotas beside everything granted in the window's length before it is granted |
| `Admission.RoomIsAdmitted` | crates/prism-engine/src/admission.rs:245-275 | after any run, an event is admitted only if it passes caps and skew and the dictionary with its keys stays within its cap, or has them all; and one that does is admitted if it keeps to both quotas beside its tenant's accepted events of the window's length before it |
| `Admission.Admit` | crates/prism-engine/src/admission.rs:236-285 | the batch is taken in round-robin order and judged event by event as one run of the gauntlet: accepted and rejected are exactly that run's, together a permutation of the batch, and the dictionary and charges are what it leaves |
| `Admission.AdmitAll` | crates/prism-engine/src/admission.rs:59-285 | any sequence of batches is one run of the gauntlet: per batch, accepted and rejected are a permutation; the dictionary is the accepted keys, within its cap; a tenant's grants are its accepted events; and with a clock that does not go back no span accepts more than twice a quota |
| `Clustering.TotalMeans` | crates/prism-engine/src/cluster.rs:182-188 | an aggregate is the count, the errors and a row no other row is nearer than, equal distances going to the lower id |
| `Clustering.TotalSplits` | crates/prism-engine/src/cluster.rs:548-568 | aggregating in pieces and combining is aggregating at once |
| `Clustering.ShardAndReduce` | crates/prism-engine/src/cluster.rs:497-541 | the stream is cut into consecutive shards, each reduced to its rows' aggregates |
| `Clustering.MergePartials` | crates/prism-engine/src/cluster.rs:548-568 | partials are combined in shard order |
| `Clustering.NeitherCutNorArrivalShows` | crates/prism-engine/src/cluster.rs:497-568 | for every shard size and arrival order each cluster's count, errors and exemplar are those of its rows in one pass |
| `Clustering.ReportedCountsSum` | crates/prism-engine/src/cluster.rs:310-340 | the clusters' counts sum to the number of rows |
| `Clustering.Renumber` | crates/prism-engine/src/cluster.rs:342-356 | the renumbering is a bijection from non-empty raw clusters to positions, more rows first, equal counts by exemplar id |
| `Clustering.AssignmentsMatchCounts` | crates/prism-engine/src/cluster.rs:358-376 | every assignment is a valid id, and each cluster's count is its number of assignments |
| `Keys.RewrapToActiveKey` | crates/prism-engine/src/engine.rs:315-366 | envelopes are rewritten one live part at a time, stopping at the first that will not open, and every part is reported once |
| `Keys.RewrapKeeps` | crates/prism-engine/src/engine.rs:330-358 | cut off after any part, a rewrap leaves every live part opening to its own data key |
| `Keys.RewrapFinishes` | crates/prism-engine/src/engine.rs:330-358 | a finished rewrap leaves only the active key on live parts |
| `Keys.RewrapIsIdempotent` | crates/prism-engine/src/engine.rs:344-347 | a second rewrap changes nothing |
| `Keys.OutageClosesEverything` | crates/prism-engine/src/keys.rs:165-174 | while the service fails no envelope opens, and once it answers exactly those open whose key is held, unrevoked and the one that sealed them |
| `Keys.RevocationClosesExactly` | crates/prism-engine/src/keys.rs:150-181 | revoking a key closes exactly the envelopes under it, and nothing is wrapped under it |
| `Keys.ExpandOpensExactly` | crates/prism-engine/src/keys.rs:106-112 | expanding over a held id stops exactly the envelopes sealed under it with another key |
| `Keys.RotationStepKeepsExactly` | crates/prism-engine/src/keys.rs:106-148 | a rotation step keeps the live parts and the log readable if and only if it does not expand over a key one of them needs |
| `Keys.RotationKeepsDataReadable` | crates/prism-engine/src/keys.rs:106-148 | over every sequence of expansions that replace no needed key, activations, cut-off rewraps and checked retirements, every live part and logged record opens to its original data key; the tenant key is not among them |
| `Keys.RetireExactly` | crates/prism-engine/src/engine.rs:399-411 | retirement keeps the live parts and the log readable if and only if nothing there is under the key |
| `Keys.TenantKeyStepExactly` | crates/prism-engine/src/engine.rs:315-392 | the store's tenant key stops opening exactly when its key is retired or replaced: no rewrap renews it and no check counts it |
| `Keys.RetiredStoreAnswersExactly` | crates/prism-engine/src/search.rs:456-470 | after a permitted retirement a reopened store answers if and only if its tenant key was not wrapped under the retired key |
| `Keys.TenantKeyLasts` | crates/prism-engine/src/tenant_key.rs:57-85 | through every run that neither retires nor replaces its key, a reopened store can answer |
| `Keys.RotationLosesTheTenantKey` | crates/prism-engine/src/engine.rs:303-411 | expand, activate, rewrap everything, retire: every step is permitted, every part opens, and the reopened store cannot answer |
| `Keys.TenantKeyWitness` | crates/prism-engine/src/tenant_key.rs:57-98 | one store on which that happens |
| `Keys.RolledBackOpensExactly` | crates/prism-engine/src/engine.rs:375-392 | the check reads the live snapshot only: an older snapshot opens after a retirement if and only if none of its parts is under the retired key |
| `Keys.RollbackAfterRetireFails` | crates/prism-engine/src/engine.rs:375-392 | a store whose older snapshot no longer opens after a permitted retirement |
| `Keys.SoftwareKeystore.MakeActive` | crates/prism-engine/src/keys.rs:116-136 | activation is refused for an unknown key; otherwise the old active key stays able to unwrap |
| `Keys.SoftwareKeystore.Drop` | crates/prism-engine/src/keys.rs:139-148 | retirement is refused for the active key; otherwise the key is gone |
| `Keys.DekCache.GetOrOpen` | crates/prism-engine/src/keys.rs:242-260 | the cache answers exactly when it holds the envelope or the service does, always with the envelope's own key, and agrees with a direct unwrap while the service answers |

## Left out

- The replicated admission log and its epoch-based record ids: only the local log is modelled.
- Ownership fencing: the check and the commit are separate steps, and mutual exclusion is not claimed.
- The key dictionary's own file: the dictionary is modelled in memory, not as one of the durable writes.
- Idempotency pruning: the ingest path prunes a copy it does not save, so it has no effect to state.
- IngestHistory.EveryHistoryIsSafe: assumes a batch's fresh events have distinct keys, recovery before the next batch, and that no batch dies between its frame and its commit under an id the marker already covers, because the property fails otherwise; `IngestLimits.BatchKeysExactly`, `SkippingRecoveryKeepsExactly` and `CoveredDeathKeepsExactly` say exactly when, and `IngestOnce` keeps what does not depend on the last.
- IngestHistory.AcknowledgedIsNeverLost: rests on the same three assumptions.
- IngestHistory.RecoveryResolves: rests on the same three assumptions.
- Ingestor.AdmissionRecords: reads the local log only; the replicated log's records are not modelled.
- Sharding.CoordinateCrossShard: shard scan faults, best-effort answers from some of the shards and expired snapshots are not modelled.
- k-means, product quantization, SIMD and GPU kernels, and floating-point rounding and sums.
- Bridged queries across embedding spaces, best-effort shards, hedging and grouping of survivors.
- LifecycleLimits.ActiveKeptExactly: promotion's refusal across unbridged embedding spaces is not modelled; it only refuses, and changes nothing.
- The predicate language: the mask is any function from a row to pass, drop or fault.
- Scalar scans and aggregates over SQL plans, which only add easier members.
- The files of parts: collection is modelled on snapshots, not on part directories, and encryption inside a part is a seal that opens with one key.
- The full merge's early returns (fewer than two parts, too little disk): they change nothing.
- Ingestor.Store.Ingest: the admission gauntlet, the model policy and the embedder arrive as decisions, and the key dictionary's file is not among the writes; `Admission` models the gauntlet on its own.
- Keys.TenantKeyStepExactly: speaks of a store opened afresh; a running process keeps the tenant key it has already opened.
- MergeRuns.MergeTiered: a store with parts from before partitions were recorded falls back to the full merge; only located parts are modelled here.
- MergePlan.PlanMerges: partition names are ordered by a ranking parameter, and row totals do not saturate at the machine word.
- Machine-word limits on counters, record ids and sequence numbers.
