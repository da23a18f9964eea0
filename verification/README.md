# Linker agent: durable queue, matching ensemble, export worker and three small protocols

This project models the parts of the linker agent in which a property depends on more than one
function or on a whole run, and proves these properties of the model.

| module | models |
|---|---|
| `KeyCodec`, `DiskImage` | the keys `stream:offset` and how a queue lies in the ordered key-value store |
| `FifoQueue` | the plain FIFO sequence, with every crash boundary of every operation |
| `TwoQueues` | a queue and its dead-letter queue as two such sequences, and an account of where every event goes |
| `DurableQueue`, `QueueRuns`, `PairRuns` | the disk-backed queue with its volatile offsets, recovery and the move to the dead-letter queue; whole runs with crashes, of one queue and of the pair |
| `OffsetLog`, `LogOnDisk`, `Overrun` | the queue under any acknowledgements, those beyond its last item included: items at offsets that need not be consecutive |
| `DeadLetters`, `DeadLetterPath` | purging by age and reprocessing; an item's way through the dead-letter queue from end to end |
| `JoinIndex`, `Deterministic`, `SKUOverlap`, `Temporal`, `MatcherResults` | the three matchers, and every edge of their results in terms of the inputs |
| `Scoring`, `Ensemble`, `Combine`, `Acceptance`, `OrderMatters`, `Ties`, `OutputEdges` | the combiner, the end-to-end acceptance condition, the order of the output and every field of its edges |
| `Pipeline` | validation, statistics, closure of synthetic IDs |
| `Exporter` | the drop-oldest queue, the batching worker and shutdown as interleaved steps |
| `Control` | command verification and the nonce cache under interleaving |
| `RateLimiter` | the token bucket |
| `Webhook` | the double-checked duplicate test under interleaving |
| `Lexicographic`, `Lists`, `MatchTypes` | byte order and sorting, nested loops, shared data |

Conventions: a `char` stands for one byte. Store transactions are atomic and may fail without
effect; parameters named `...Ok` say which succeed, and clock readings are parameters. JSON is a
free algebra, so decoding inverts encoding. The keyed hash and the rendering of a score are
arbitrary functions. Scores are exact reals. Times are integers.

## Where the code and its promises part

Each item is stated with the exact condition under which the code does meet the promise.

- `Commit` checks only the lower bound: the queue stays intact exactly when the offset had been
  handed out. The commit loop ends exactly below offset 2^64 - 1, which no reader is handed.
- After a commit beyond the end, readers see an item on disk if and only if its offset is not
  below the read offset, which that commit and every later commit or eviction moved. Still, in
  every run no item on disk is overwritten, repeated or reordered, and a restart finds all of
  them. The queue that it opens is intact if and only if their offsets are consecutive. A
  removal, by eviction or by a commit, breaks this exactly when items lie both below the read
  offset and above the removed ones; a write exactly when something is on disk and it does not
  come directly behind.
- After a commit beyond the end followed by enqueues alone, a restart therefore gives an intact
  queue if and only if nothing was evicted: the policy is reject-new, or the items fit into the
  gap plus the capacity. With drop-oldest and room for one item, `Commit(0)` on an empty queue
  and three enqueues leave offsets 0 and 2, and a restart counts three items.
- `Enqueue` keeps the queue intact exactly until the last 64-bit offset is written.
- `MoveToDLQ` succeeds exactly when the dead-letter queue is open and has room or can make it.
  A move that also commits keeps every event of both queues if and only if it moves the head
  item and the dead-letter queue was not at capacity: otherwise the items queued before the
  moved one, or the oldest dead letter, are gone. If the commit fails, the moved event is in
  both queues. The moved item itself is never lost, at any crash point and any queue position.
- Reprocessing a dead letter removes it before its event is enqueued again: a crash in between,
  or an enqueue that fails, leaves the event in neither queue, under any drop policy. It is kept
  exactly at the other crash boundaries.
- No run of the two queues that moves only head items and reprocesses nothing loses an event, wherever it crashes, if
  and only if both queues reject new items at capacity; the default policy drops the oldest.
- `PurgeOlderThan` stops exactly when no 100 consecutive entries are all too young or
  undecodable; otherwise it reads the same batch forever. It spares the young entries exactly
  when the old ones come first.
- Parsing a key inverts formatting exactly for colon-free stream names.
- Combining ignores the order of the evidence exactly when there is a salt; without one the
  fallback proof depends on the order.
- The combined output is documented as being in a deterministic order; it is so exactly when no
  two accepted links share their source and their capped score. With the default recipe that
  fails exactly when some user owns two linked records, or has two accepted subscriptions that
  are not owned and whose nearest uses are equally near: a single use by a customer with two
  subscriptions is enough.
- The temporal confidence is documented as lying in (0, 0.6]; on the window boundary it is 0.
- Shutdown of the exporter is documented as flushing everything. From the moment the queue is
  closed, every continuation is free of losses if and only if the queue is empty at that moment:
  otherwise the worker may see the cancelled context before the closed channel.
- The exponential backoff of a delivery is the intended one exactly up to the 33rd retry; from
  then on its 64-bit product overflows.
- The final branch of the exporter's `enqueue` is reachable exactly with capacity 0.
- A command is accepted at most once exactly when the nonce lifetime is at least the clock skew
  plus the longest gap between the two clock readings of one verification. The skew test also
  accepts timestamps so far ahead that the 64-bit difference saturates.
- A webhook event is enqueued if and only if its claim did not meet a full job queue; one that
  did stays marked as seen, so no later delivery of it is ever enqueued. Runs over a given set
  of events never drop one if and only if the queue has a place for each of them.

## Model

| member | source | states |
|---|---|---|
| KeyCodec.ParseInvertsFormat | internal/queue/queue.go:141-156 | for every 64-bit offset and colon-free stream, parsing the formatted key returns the offset |
| KeyCodec.KeySpelled | internal/queue/queue.go:139-143 | a key is the stream, a colon and the 20 decimal digits of the offset |
| KeyCodec.ParseSpelled | internal/queue/queue.go:145-156 | of any key the digits behind the first colon are parsed, whatever follows them; nothing if there are none or they exceed 64 bits |
| KeyCodec.ValueSpelled | internal/queue/queue.go:145-156 | digits are read in base ten |
| KeyCodec.RoundTripIffColonFree | internal/queue/queue.go:141-156 | the round trip holds for all offsets if and only if the stream name has no colon |
| KeyCodec.ColonHidesOffset | internal/queue/queue.go:146-156 | all keys of a stream whose name holds a colon parse to the same result |
| KeyCodec.KeyOrderIsOffsetOrder | internal/queue/queue.go:139-143 | byte order of a stream's keys is numeric order of the offsets |
| KeyCodec.PrefixSeparatesStreams | internal/queue/badger_queue.go:401-403 | among colon-free streams only a stream's own keys carry its prefix |
| Lexicographic.PrefixesAreConsecutive | internal/queue/badger_queue.go:401-403 | keys with the prefix are consecutive, so the scan may stop at the first other key |
| FifoQueue.RunConserves | internal/queue/badger_queue.go:95-244 | in every run with crashes, what was present or written leaves only at the front, in order, and the rest is the queue |
| Lexicographic.LeIff | internal/queue/badger_queue.go:401-403 | byte order: a prefix, or the smaller byte at the first difference |
| FifoQueue.EnqueueIs | internal/queue/badger_queue.go:95-141 | an enqueue case by case: full from maxEvents items or maxBytes at 500 an item on |
| FifoQueue.RunKeepsLimits | internal/queue/badger_queue.go:327-386 | in every run the depth stays within maxEvents and ceil(maxBytes/500), or within the depth at opening |
| FifoQueue.RunKeepsCapacity | internal/queue/badger_queue.go:327-386 | the depth never exceeds the capacity, or the depth at opening if that was larger |
| FifoQueue.Capacity | internal/queue/badger_queue.go:327-386 | full means depth at least min(maxEvents, ceil(maxBytes/500)), which is at least 1, so an empty queue is never full |
| FifoQueue.RejectNewNeverEvicts | internal/queue/badger_queue.go:100-109 | under reject-new whatever left the queue was acknowledged |
| DiskImage.PutAppends | internal/queue/badger_queue.go:111-131 | writing the next offset's key appends one item to the interval of live keys and touches no other stream |
| DiskImage.EraseDropsPrefix | internal/queue/badger_queue.go:224-232 | deleting the first offsets' keys drops exactly the first items |
| DiskImage.BatchOfHolds | internal/queue/badger_queue.go:161-197 | reading from any offset among or behind the live ones returns the live items from there on, and no others |
| DiskImage.ClearDropsPrefix | internal/queue/badger_queue.go:224-232 | the commit transaction leaves exactly the remaining items, and a crash finds them |
| DiskImage.EmptyHolds | internal/queue/badger_queue.go:428-431 | a disk is the empty queue's if and only if it holds no key of the stream |
| DiskImage.RecoveryIsFaithful | internal/queue/badger_queue.go:389-444 | the offsets that recovery settles on read back the same items, restarting at 0 when empty |
| DiskImage.SurvivesOnce | internal/queue/badger_queue.go:389-444 | a disk determines the contents that a restart finds |
| TwoQueues.RunProjects | internal/queue/badger_queue.go:247-285 | in a run with moves and crashes either queue, seen alone, runs as a FIFO queue |
| TwoQueues.RunAccounts | internal/queue/badger_queue.go:95-285 | over every run, events found + evicted + acknowledged + skipped by moves + mislaid in reprocessing = events there + enqueued + doubled |
| TwoQueues.MoveOutcomes | internal/queue/badger_queue.go:247-285 | what a move evicts, skips and doubles in every combination of outcomes |
| TwoQueues.MoveKeepsEventsIff | internal/queue/badger_queue.go:247-285 | a completed move keeps every event of both queues if and only if it moves the head and the dead-letter queue has room |
| TwoQueues.ReprocessKeepsIff | internal/queue/dlq.go:112-141 | a reprocessed event is in one of the queues at exactly the crash boundaries before the dead letter is removed and after the event is enqueued |
| TwoQueues.ReprocessMayLose | internal/queue/dlq.go:112-141 | under any drop policies, a crash after the first transaction of a reprocessing loses the event |
| TwoQueues.NothingLostIff | internal/queue/badger_queue.go:100-109 | runs that move only heads and reprocess nothing never lose an event, wherever they crash, if and only if both queues reject new items |
| DurableQueue.Recover | internal/queue/badger_queue.go:389-444 | on any disk, the prefix scan yields the least parsed offset and the successor of the greatest |
| DurableQueue.BadgerQueue.constructor | internal/queue/badger_queue.go:39-92 | opening a surviving disk gives a valid queue with exactly the surviving contents |
| DurableQueue.BadgerQueue.Enqueue | internal/queue/badger_queue.go:95-141 | on any queue, the error cases, the whole new disk, and rejection or eviction exactly from the configured limits on; on an intact one, runs through the FIFO boundaries, each a crash point, and stays intact unless it writes the last 64-bit offset |
| DurableQueue.BadgerQueue.Write | internal/queue/badger_queue.go:111-141 | appends the item, or gives the offset back and changes nothing when the write fails |
| DurableQueue.BadgerQueue.DropOldestItem | internal/queue/badger_queue.go:345-368 | removes exactly the head item in one transaction, nothing on failure or when empty |
| DurableQueue.BadgerQueue.DequeueBatch | internal/queue/badger_queue.go:144-213 | on any queue, the first n items found between the offsets; on an intact one, the first min(n, depth) items with consecutive offsets; leaves the queue as it is |
| DurableQueue.BadgerQueue.Commit | internal/queue/badger_queue.go:216-244 | on any queue, clears the keys up to the offset in one transaction; on an intact one drops these items, and it stays intact if and only if the offset had been handed out |
| DurableQueue.CommitEndsIff | internal/queue/badger_queue.go:225-230 | the loop over the committed offsets ends if and only if the offset is below 2^64 - 1 |
| DurableQueue.BadgerQueue.MoveToDLQ | internal/queue/badger_queue.go:247-285 | succeeds if and only if the dead-letter queue can take an item; both queues' contents and crash boundaries in every outcome; keeps every event if and only if the head is moved and there is room; at every crash point a queued item is still queued or already a dead letter |
| QueueRuns.EnqueueInNumbers | internal/queue/badger_queue.go:95-141 | what an enqueue answers and leaves for every policy, depth and outcome, in the configured numbers |
| QueueRuns.Happen | internal/queue/badger_queue.go:39-244 | one operation, or a crash between its transactions and a restart, takes the queue where it takes the FIFO sequence |
| QueueRuns.Replay | internal/queue/badger_queue.go:39-444 | every run of operations and crashes of the disk-backed queue is the same run of the FIFO sequence and keeps the configured limits |
| PairRuns.ReprocessHead | internal/queue/dlq.go:112-141 | taking the head dead letter back and enqueuing its event runs through the FIFO pair's boundaries |
| PairRuns.HappenToPair | internal/queue/badger_queue.go:39-285 | one operation on either queue, move or reprocessing between them, or a crash after any transaction of either and a restart of both, takes the disks where it takes the pair of FIFO sequences |
| PairRuns.ReplayPair | internal/queue/badger_queue.go:39-444 | every run of operations, moves, reprocessings and crashes of the two disk-backed queues is the same run of the FIFO pair, and its events are accounted for |
| OffsetLog.RunConserves | internal/queue/badger_queue.go:95-444 | in every run with any commits and crashes, the items on disk are a subsequence of those there and written, and the rest were removed at or behind the read offset |
| OffsetLog.VisibleIff | internal/queue/badger_queue.go:161-197 | readers see an item if and only if its offset is not below the read offset |
| OffsetLog.RestartShowsAll | internal/queue/badger_queue.go:389-444 | after a restart readers see every item on disk |
| OffsetLog.DepthIsCountIff | internal/queue/badger_queue.go:327-337 | the depth a restart finds is the number of items if and only if their offsets are consecutive |
| OffsetLog.StepKeepsConsecutiveIff | internal/queue/badger_queue.go:95-244 | an operation keeps consecutive offsets consecutive if and only if it removes nothing from between other items and writes directly behind the last one |
| OffsetLog.OvercommittedIntactIff | internal/queue/badger_queue.go:216-244 | after a commit beyond the end and enqueues, the offsets on disk are consecutive if and only if nothing was evicted |
| OffsetLog.HoleAfterOvercommit | internal/queue/badger_queue.go:345-368 | the smallest queue with a hole: two items that a restart counts as three |
| LogOnDisk.BatchIsFirst | internal/queue/badger_queue.go:161-197 | on any disk, a read returns the first items from the read offset on, across holes |
| LogOnDisk.RecoversReopened | internal/queue/badger_queue.go:389-444 | recovery puts the offsets around the items on disk, wherever these lie |
| LogOnDisk.HoldsIff | internal/queue/badger_queue.go:389-444 | a disk survives a crash as an intact queue if and only if its offsets are consecutive |
| Overrun.Reopen | internal/queue/badger_queue.go:39-92 | a restart finds every item on any disk; the queue is intact if and only if the offsets are consecutive |
| Overrun.Replay | internal/queue/badger_queue.go:39-444 | every run of enqueues, commits at any offset and crashes of the disk-backed queue is the same run of the offset log, which conserves its items |
| Overrun.CommitTooFar | internal/queue/badger_queue.go:216-244 | what is read after a commit beyond the end and any enqueues; reopening is intact if and only if nothing was evicted |
| DeadLetters.PurgeEndsIff | internal/queue/dlq.go:72-110 | the purge loop ends if and only if no 100 consecutive entries are all too young or undecodable |
| DeadLetters.PurgeEndsInNumbers | internal/queue/dlq.go:72-110 | the same in numbers: trips of 100 entries, first attempted before the cutoff |
| DeadLetters.PurgeSparesYoungIff | internal/queue/dlq.go:72-110 | exactly the old entries are removed if and only if they come first |
| DeadLetters.DLQManager.PurgeBatch | internal/queue/dlq.go:77-101 | one trip removes up to the last old entry of the batch and counts the old ones removed; a crash in it leaves the entries behind some old one |
| DeadLetters.DLQManager.CommitOldOnes | internal/queue/dlq.go:87-101 | commits inside a batch are never turned down; result is the suffix behind the last old entry |
| DeadLetters.DLQManager.PurgeOlderThan | internal/queue/dlq.go:72-110 | leaves the suffix behind the last old entry and returns the number of old entries; partial result on store failure; at every crash point the entries behind some old one remain |
| DeadLetters.DLQManager.Reprocess | internal/queue/dlq.go:114-141 | hands back the original event and stream of the head entry and removes it; every error leaves the contents |
| DeadLetterPath.MoveThenRead | internal/queue/badger_queue.go:256-275 | a reader of the dead-letter queue decodes the event, the stream, the reason, the message, the two times and one attempt |
| DeadLetterPath.MoveThenPurge | internal/queue/dlq.go:72-110 | a purge removes a moved item if and only if it was enqueued before the cutoff |
| DeadLetterPath.MoveThenReprocess | internal/queue/dlq.go:112-141 | reprocessing a moved item hands back its event and its queue's stream |
| JoinIndex.Build | internal/matchers/sku_overlap.go:32-43 | a bucket lists each record once per occurrence of the key, in input order |
| JoinIndex.BucketIsNestedLoop | internal/matchers/sku_overlap.go:45-49 | walking a bucket yields what the nested loop over records and keys yields |
| Deterministic.BucketsAreFilters | internal/matchers/deterministic.go:40-57 | walking a customer's buckets is walking everything and skipping other customers |
| Deterministic.Match | internal/matchers/deterministic.go:37-154 | the index join yields the naive join's edges in the same order; fails only without a salt when there is an edge |
| SKUOverlap.Classify | internal/matchers/sku_overlap.go:50-65 | price if and only if the SKU is among the prices, otherwise product; never neither |
| SKUOverlap.Match | internal/matchers/sku_overlap.go:29-123 | the index join yields the naive join's edges with multiplicity and order |
| Temporal.ConfidenceInWindow | internal/matchers/temporal.go:96-127 | inside the window the confidence is 0.6(1 - d/W), is 0 exactly on the boundary and 0.6 exactly at distance 0 |
| Temporal.Match | internal/matchers/temporal.go:31-94 | yields the edges of all pairs within the window, in order; fails only without a salt when there is an edge |
| MatcherResults.SKUOnePair | internal/matchers/sku_overlap.go:45-119 | one event against one subscription: both edges with all fields, once per listing of the SKU |
| MatcherResults.SKUAdds | internal/matchers/sku_overlap.go:45-119 | results for more events or subscriptions follow each other in order |
| MatcherResults.SKUPairwise | internal/matchers/sku_overlap.go:45-119 | an edge is in the result if and only if some event and some subscription yield it |
| MatcherResults.SKULinksIff | internal/matchers/sku_overlap.go:50-115 | user->price exactly for a used SKU among the prices, user->product exactly for one among the products only, user->subscription for either, at the event's time |
| MatcherResults.IDOneSubscription | internal/matchers/deterministic.go:51-125 | one event against one subscription: nothing for another customer, otherwise the edges with all fields in order |
| MatcherResults.IDOneInvoice | internal/matchers/deterministic.go:127-152 | one event against one invoice: nothing for another customer, otherwise the edge with all fields |
| MatcherResults.IDAdds | internal/matchers/deterministic.go:52-154 | results for more events, subscriptions or invoices follow each other in order |
| MatcherResults.IDPairwise | internal/matchers/deterministic.go:52-154 | an edge is in the result if and only if some event and some record yield it |
| MatcherResults.TimeOneSubscription | internal/matchers/temporal.go:36-62 | one event against one subscription: an edge exactly within the window, with all fields |
| MatcherResults.TimeOneInvoice | internal/matchers/temporal.go:64-90 | one event against one invoice: an edge exactly within the window, with all fields |
| MatcherResults.TimeAdds | internal/matchers/temporal.go:31-94 | results for more events, subscriptions or invoices follow each other in order |
| MatcherResults.TimePairwise | internal/matchers/temporal.go:31-94 | an edge is in the result if and only if some event and some record yield it |
| Scoring.WeightedIs | internal/matchers/ensemble.go:170-181 | an edge counts with the weight of the matcher named in front of the slash, with 0 if there is none |
| Scoring.ScoreOfOneMatcher | internal/matchers/ensemble.go:183-187 | one matcher's edges score the greatest of 0 and what they count |
| Scoring.ScoreOfMatchersAdds | internal/matchers/ensemble.go:190-195 | different matchers' scores add up |
| Scoring.BestIsMaximum | internal/matchers/ensemble.go:184-188 | a matcher's contribution is the greatest of 0 and its weighted confidences |
| Scoring.CalculateWeightedScore | internal/matchers/ensemble.go:163-198 | the map-based computation, in any iteration order, is the sum over matchers of their best weighted confidence |
| Scoring.ScoreIgnoresOrder | internal/matchers/ensemble.go:163-198 | the score depends only on which edges a group holds |
| Ensemble.LatestAt | internal/matchers/ensemble.go:101-105 | the timestamp of a consolidated edge is the maximum of the group's |
| Ensemble.BestEdge | internal/matchers/ensemble.go:226-241 | the fallback proof comes from the first edge of the highest confidence |
| Ensemble.NotesAre | internal/matchers/ensemble.go:243-276 | the notes are the distinct non-empty notes in order, then the score, cut to 200 bytes with an ellipsis if longer |
| Ensemble.NotesAreASet | internal/matchers/ensemble.go:249-262 | the notes depend only on which non-empty notes the group has |
| Ensemble.JoinIs | internal/matchers/ensemble.go:206-216 | the separator stands between neighbours and nowhere else |
| OutputEdges.OutputLinksIff | internal/matchers/ensemble.go:107-118 | a link is in the output if and only if it has evidence whose score reaches the threshold |
| OutputEdges.OutputOrdered | internal/matchers/ensemble.go:151-158 | no link comes twice; falling confidence, then rising source |
| OutputEdges.OutputEdgeIs | internal/matchers/ensemble.go:120-147 | an output edge's confidence is its evidence's score capped at 1, its time the latest, its recipe name/version |
| OutputEdges.OutputProofIs | internal/matchers/ensemble.go:204-224 | with a salt its proof is the hash of from, to, kind, "ensemble" and the sorted proofs of exactly its evidence |
| OutputEdges.UnsaltedProofIs | internal/matchers/ensemble.go:226-241 | without a salt its proof is that of the first of its most confident input edges |
| OutputEdges.OutputNotesAre | internal/matchers/ensemble.go:243-276 | its notes are the distinct non-empty notes of its evidence in order, and the score |
| OutputEdges.ProofsEqualIff | internal/matchers/ensemble.go:204-224 | with a collision-free hash and separator-free parts, proofs are equal if and only if link and contributing proofs are |
| Ensemble.ConfidenceInRange | internal/matchers/matcher.go:42-42 | every output confidence lies in [0, 1] and reaches the threshold or the cap, for all weights and inputs |
| Ensemble.EdgeIgnoresOrder | internal/matchers/ensemble.go:120-146 | with a salt, a consolidated edge is a function of the evidence as a collection |
| Ensemble.CombineIgnoresOrder | internal/matchers/ensemble.go:56-161 | permuting the evidence permutes the output, proofs included |
| Ensemble.OrderUniqueIff | internal/matchers/ensemble.go:151-158 | for any recipe, the output sequence is determined by the evidence if and only if no two accepted links share source and capped score |
| Ties.CappedScore | internal/matchers/ensemble.go:107-124 | with the default recipe an owned link scores 1, another accepted one 0.64 + 0.3(1 - d/W), d being the distance of the nearest use |
| Ties.DefaultOrderUniqueIff | internal/matchers/ensemble.go:151-158 | with the default recipe the output sequence is determined by the inputs if and only if no user owns two links or has two accepted unowned subscriptions with equally near uses |
| Ties.TiesOccur | internal/matchers/ensemble.go:151-158 | one use by a customer with two subscriptions leaves the order open |
| OrderMatters.OrderIndependentIffSalted | internal/matchers/ensemble.go:126-131 | the default ensemble ignores the order of its evidence if and only if it has a salt |
| Combine.Collect | internal/matchers/ensemble.go:72-105 | the candidate map holds, for exactly the links with evidence, their group, timestamp, proofs and notes |
| Combine.Select | internal/matchers/ensemble.go:107-149 | iterating the map in any order yields one consolidated edge for each accepted link |
| Combine.CombineEdges | internal/matchers/ensemble.go:67-161 | exactly one consolidated edge per link whose score reaches the threshold, sorted by confidence and source |
| Acceptance.MatchAll | internal/matchers/ensemble.go:42-54 | the matchers' edges in order, or a failure if and only if some matcher fails |
| Acceptance.RunEnsemble | internal/matchers/ensemble.go:280-291 | the output is the combination of all matchers' edges |
| Acceptance.IDContribution | internal/matchers/deterministic.go:37-154 | under the default weights the deterministic matcher contributes 1 exactly to links the user owns |
| Acceptance.SKUContribution | internal/matchers/sku_overlap.go:29-123 | the SKU matcher contributes 0.64 to a subscription exactly when one of its SKUs was used, and at most 0.72 elsewhere |
| Acceptance.TimeContribution | internal/matchers/temporal.go:31-127 | the temporal matcher contributes at most 0.3, and at least 0.16 exactly within 7/15 of the window |
| Acceptance.DefaultAcceptance | internal/matchers/ensemble.go:67-198 | with the default recipe (weights 1, 0.5, 0.8, threshold 0.8) a link is accepted if and only if the user owns the record, or used an SKU of the subscription and was active within 7W/15 of its creation |
| Acceptance.RunDefault | internal/matchers/ensemble.go:280-291 | the end-to-end output has an edge for a link if and only if the acceptance condition holds of the inputs |
| Pipeline.ValidateInputs | internal/pipeline/pipeline.go:117-168 | validation succeeds if and only if all checked IDs are synthetic and usage times positive |
| Pipeline.SKUClosed | internal/matchers/sku_overlap.go:84-117 | the unchecked SKU becomes a target only where it equals a checked price or product ID |
| Pipeline.OutputClosed | internal/pipeline/pipeline.go:51-109 | validated inputs yield only edges between synthetic IDs, whatever the matchers and the recipe |
| Pipeline.BandsInNumbers | internal/pipeline/pipeline.go:84-93 | high from 0.9 on, medium from 0.6 on, low below |
| Pipeline.Classify | internal/pipeline/pipeline.go:84-93 | each accepted edge is counted in exactly one confidence band |
| Pipeline.CountIsLast | internal/pipeline/pipeline.go:67-76 | the statistics count, for each matcher name, the edges of the last matcher of that name |
| Pipeline.MatchCounted | internal/pipeline/pipeline.go:65-77 | the matchers' edges in order with one count per name, or a failure if and only if some matcher fails |
| Pipeline.ExportEdges | internal/pipeline/pipeline.go:96-103 | exports the edges before the first one that is turned down, all if there is none |
| Pipeline.Run | internal/pipeline/pipeline.go:51-115 | failure exactly for invalid inputs, a failing matcher or an edge turned down; what was exported in every outcome; combination, closure and statistics on success |
| Exporter.Configured | internal/exporter/exporter.go:138-157 | the defaults make batch size and capacity positive |
| Exporter.QueueConserves | internal/exporter/queue.go:29-66 | under every interleaving accepted items leave at the head in order or are buffered; between calls, calls = dropped + received + depth |
| Exporter.AcceptsAllOffered | internal/exporter/queue.go:29-66 | under every interleaving an open queue accepts every item offered, in order |
| Exporter.CallDropsOldest | internal/exporter/queue.go:39-65 | a call that finds the buffer full drops the oldest item and appends its own |
| Exporter.CallWithRoom | internal/exporter/queue.go:39-44 | a call that finds room only appends its item |
| Exporter.HopelessIffNoCapacity | internal/exporter/queue.go:53-64 | the final branch of enqueue is reachable if and only if the capacity is 0 |
| Exporter.ReceiveFlushesIff | internal/exporter/exporter.go:311-328 | a receive flushes if and only if it fills the batch |
| Exporter.TickFlushes | internal/exporter/exporter.go:330-335 | after every tick all that was received is flushed |
| Exporter.WorkerPartitions | internal/exporter/exporter.go:302-346 | received items are the flushed batches followed by the current one; batches have 1 to batchSize items |
| Exporter.ExitsAccountForAll | internal/exporter/exporter.go:311-344 | what each of the worker's two exits leaves behind |
| Exporter.ExitIsFinal | internal/exporter/exporter.go:302-346 | after the worker's exit nothing buffered is ever flushed |
| Exporter.LossIsLeftover | internal/exporter/exporter.go:311-344 | after the worker's exit what is missing is exactly what was left in the buffer, which is nothing by the closed channel |
| Exporter.ShutdownSafeIffEmpty | internal/exporter/exporter.go:271-299 | from the moment the queue is closed, every continuation loses nothing if and only if the queue is empty at that moment |
| Exporter.ShutdownMayLose | internal/exporter/exporter.go:277-284 | every usable configuration has a run in which shutdown loses an accepted item |
| Exporter.FlushHTTP | internal/exporter/exporter.go:379-404 | delivered if and only if one of the first 1 + maxRetries attempts succeeds after retryable failures only; total backoff in 64-bit arithmetic |
| Exporter.BackoffAddsUp | internal/exporter/exporter.go:381-387 | up to 33 retries the pauses add up to 2^(retries+1) - 2 seconds |
| Exporter.BackoffExactIff | internal/exporter/exporter.go:383-387 | a pause is 2^retry seconds if and only if it is among the first 33 |
| Control.InWindowIff | internal/control/control.go:103-112 | the skew test accepts exactly the timestamps within the skew and those whose difference saturates below |
| Control.SurvivesIff | internal/control/control.go:244-252 | an entry is kept if and only if it is not older than the lifetime |
| Control.NonceCache.Cleanup | internal/control/control.go:244-252 | keeps exactly the entries not older than the lifetime |
| Control.NonceCache.CheckAndStore | internal/control/control.go:226-242 | accepts exactly the nonces that no unexpired entry carries, and the whole new cache |
| Control.Handler.Verify | internal/control/control.go:91-125 | the verdict and the cache for every outcome, in the order of the checks |
| Control.VerifyInSteps | internal/control/control.go:91-125 | a verification is the two steps of the interleaved model: same cache, same acceptance |
| Control.AtMostOnceIff | internal/control/control.go:94-125 | over all interleavings no (nonce, timestamp) pair is accepted twice if and only if the lifetime is at least skew plus gap |
| RateLimiter.Limiter.TryAcquire | internal/connectors/stripe/stripe.go:466-502 | a turn succeeds if and only if a token is left or a whole one has accrued; tokens stay within the maximum |
| RateLimiter.WindowBound | internal/connectors/stripe/stripe.go:446-502 | in every window of w seconds at most maxRPS + ceil(maxRPS w) grants |
| RateLimiter.WindowBoundAttained | internal/connectors/stripe/stripe.go:446-502 | the window bound is attained for every whole number of seconds |
| RateLimiter.EveryWindow | internal/connectors/stripe/stripe.go:446-502 | the window bound holds for every window of every run of a new limiter |
| RateLimiter.Throughput | internal/connectors/stripe/stripe.go:472-483 | over any run without capped refills, grants plus tokens gained are at most what accrued and more than half of it, up to half a token |
| RateLimiter.NoStarvation | internal/connectors/stripe/stripe.go:466-502 | however often callers retry, a grant happens once a token's worth of time has passed |
| Webhook.AtMostOnce | internal/ingest/stripewebhook/handler.go:200-242 | under every interleaving each event is claimed, enqueued and processed at most once, in order |
| Webhook.ExactlyOnceWhenQuiescent | internal/ingest/stripewebhook/handler.go:162-192 | without requests under way every parsed event was claimed exactly once and parsed = duplicates + enqueued + queue-full |
| Webhook.EnqueuedIffNotFull | internal/ingest/stripewebhook/handler.go:162-192 | without requests under way a parsed event was enqueued if and only if it did not meet a full queue |
| Webhook.NeverDropsIff | internal/ingest/stripewebhook/handler.go:162-192 | no run over a set of events drops one if and only if the set has at most as many members as the queue has places |
| Webhook.JobsArriveWhole | internal/ingest/stripewebhook/handler.go:170-192 | every job enqueued or processed is, field by field, one that some request brought |
| Webhook.ConfiguredPlaces | internal/ingest/stripewebhook/handler.go:84-93 | no event is dropped exactly for at most the configured depth of events, 1000 by default |
| Webhook.DropsHappen | internal/ingest/stripewebhook/handler.go:84-93 | every configured depth, the default included, has a run that drops an event |
| Webhook.DroppedForGood | internal/ingest/stripewebhook/handler.go:178-192 | an event that met a full queue is never enqueued by a later delivery |

## Left out

- DurableQueue.BadgerQueue.Commit: offset 2^64 - 1 is excluded, because the source's loop never ends there (`CommitEndsIff`).
- DeadLetters.DLQManager.PurgeOlderThan: requires the condition under which the loop ends; `PurgeEndsIff` shows that the loop does not end otherwise.
- QueueRuns.Replay: assumes that the run does not use up the 64-bit offsets; `Enqueue` says what happens at the last one. Commits beyond the end are among the events of `Overrun.Replay`.
- PairRuns.ReplayPair: as `Replay`, commits beyond the end excluded; a purge is a sequence of commits on the dead-letter queue, and a move of an item that has left the queue is an enqueue on the dead-letter queue there.
- Concurrent producers on the disk-backed queue: its mutex is never taken, so operations are modelled as sequential.
- The store's own durability, garbage collection, transaction size limits and files; opening the store cannot fail in the model.
- Whitespace that number scanning would skip in front of an offset; no written key has any.
- Overflow of depth times 500 and of differences of timestamps in the matchers.
- Drop policies other than reject-new all behave as drop-oldest in the source, so the model has two.
- The fallback for stored values that are not JSON: every stored value decodes.
- Floating-point rounding: scores are exact reals, so results within rounding distance of a threshold may differ.
- `DLQManager.Purge`, `ListEntries` and `GetStats`: one batch read and one commit, or plain counting.
- `MemoryQueue`: the same three channel operations as the exporter's queue.
- The input counts in the statistics of a pipeline run, and the texts of error messages; the exporter's enqueue is an arbitrary test of the edge there.
- The accumulated best confidence and recipe names of a candidate, which nothing reads.
- `sort.Slice` is represented by its contract; the insertion sort that meets it is a stand-in.
- Signatures, hashing, HTTP handling, the command router, the waiting between turns of the rate limiter, and shutdown of the webhook handler.
- Post-close receives of zero values from closed job channels.
