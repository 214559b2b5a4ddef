# Acheron: a verified model of the ingest pipeline

Acheron accepts events over HTTP, queues them in memory, writes them to MongoDB in batches, and mirrors
them into Elasticsearch through an outbox marker. Events that cannot be written go to a dead-letter
queue and can be replayed. Redis holds the rate-limit counters and the idempotency claims.

The project models that code twice and connects the two:

- **As one interleaved step machine** (`Pipeline.dfy`). A step is what one task does between two awaits.
  It carries what the environment decides: which task moves, whether a store call returns or raises,
  and which ids a failing call had already written. Any number of workers, any number of concurrent
  replays, the indexer and the shutdown sequence share the state. The theorems about it hold for every
  run: `Conservation`, `Delivery`, `Losses`, `Accounting`, `Mirror`, `Outbox`, `Provenance`.
- **As classes and loops** that follow the source method by method: `EventQueues`, `DeadLetterQueues`,
  `MongoClient`, `Consumer`, `EsIndexers`, `RateLimits`, `Idempotency`, `MetadataText`, `Filters`,
  `Paging`. `Refinement` proves that a consumer round, an indexer pass and a replay request, run without
  interleaving, are runs of the step machine ending in the state the methods promise.

`MongoStore` and `Elastic` give the stores as values, `Grouping` the aggregations, `Events` and
`Arithmetic` what the others share.

## What the model assumes

- `bulk_write` and `persist_dead_letters` swallow every bulk error. A swallowed error may lose any ids
  in the model; the claims that need duplicates only say so (`Delivery.Clean`,
  `MongoClient.DuplicatesOnly`), and `MongoClient.ReturnedMeansPresent` shows the condition is exact.
- `bulk_index` tolerates refused documents and the pass marks them all the same. The state remembers
  the refused ids, so "marked" means "in ES or refused by ES".
- `push_many` reads the buffer before its await and assigns it after. The code comment that nothing is
  lost while the process runs does not hold: a push that *fails* inside another push's window is
  overwritten (`Losses`). Overlapping pushes that succeed are harmless, so a clean run only forbids the
  former.
- `max_retries >= 0` for conservation; `Losses.NegativeRetriesLose` says what happens otherwise.
- The one-second poll of a consumer expires only on an empty queue, and taking the first event and
  filling the batch is one step.
- A drain that times out cancels workers mid-batch; their events are counted as dropped, and
  conservation is claimed for runs without a timeout. `Conservation` states exactly what such a
  cancellation loses.
- Conservation is about event ids: equal ids collapse to one document.
- The rate limiter reads the clock and performs INCR and EXPIRE at one instant, and requests come in
  time order. A failing INCR may or may not have counted.
- No idempotency claim expires during the runs considered (`Idempotency.WithinTtl`), and Redis is
  reached where a lemma asks for `NoFault`. `uuid5`, `uuid4` and the body fingerprint are parameters;
  `Idempotency.IdsSeparate` states the injectivity used.
- Validation of a request and its ingest read the clock at one instant, so a defaulted `timestamp` equals
  `received_at`.
- Timestamps are integers, `base_delay` and the clock are reals, metadata is a JSON tree whose scalars
  carry their text.
- A cursor returns documents in the requested order with ties in any order; aggregations and searches
  read the collection at one instant.

## Model

| member | source | states |
|---|---|---|
| Conservation.StepConservesExactly | app/worker/consumer.py:117-191 | For every state and every step of ingest, workers, DLQ, replay, indexer or shutdown: an accepted id that was somewhere is still in the queue, a batch, `events`, `dead_letter` or the DLQ buffer **if and only if** the step has no orphans, a set computed from the state before the step |
| Conservation.ConservedExactlyWithoutOrphans | app/worker/consumer.py:117-191 | The same over whole interleaved runs, with no assumption on failures, timeouts or cancellation |
| Conservation.WorkLosesExactly | app/worker/consumer.py:131-191 | The ids a consumer step makes homeless are exactly the ones it lets go and nothing else holds |
| Delivery.NothingAcceptedIsLost | app/worker/consumer.py:117-191 | Conservation in every clean run from startup, for any number of workers: duplicate-key bulk errors only, no push failing inside another push's window, no drain timeout, `max_retries >= 0` |
| Delivery.CleanMeansNoOrphans | app/worker/consumer.py:138-191 | In a state satisfying the books, replay, DLQ and drain invariants, a clean step has no orphans |
| Delivery.DeadLettersAccountedFor | app/queue/dlq.py:77-105 | With `push_many` split at its await, in every clean run the recorded ids are exactly those persisted, buffered or in a push under way, and persisted ids stay in `dead_letter` or `events` |
| Losses.OverlappingPushesLose | app/queue/dlq.py:88-99 | For every state with two pushes in their windows: if one raises, the other's end overwrites the buffer and each id of the first batch held nowhere else is gone |
| Losses.AnAcceptedEventCanVanish | app/queue/dlq.py:88-99 | A concrete run from empty stores with two workers, no swallowed error, timeout or cancellation, after which an accepted event is nowhere |
| Losses.NegativeRetriesLose | app/worker/consumer.py:157-191 | With `max_retries < 0` every taken batch is counted as processed and stored nowhere |
| Delivery.GracefulDrain | app/main.py:116-128 | In every clean run a worker exits only after the stop signal and on a queue that is and stays empty, and once `join` returned every accepted id is in `events`, `dead_letter` or the DLQ buffer |
| Delivery.DrainedMeansQuiet | app/worker/consumer.py:98-111 | With balanced books, `join` returning means nothing is queued and no worker holds a batch |
| Accounting.BooksBalance | app/worker/consumer.py:131-143 | In every run, failures and cancellations included: accepted = taken + queued as sequences, and the taken events are, with multiplicity, exactly those processed, recorded dead, cancelled or in flight |
| Accounting.CountersAddUp | app/worker/consumer.py:131-143 | `unfinished` is the queue plus all batches in flight, acknowledging a batch never goes below zero, and with no batch in flight and none cancelled `events_processed + dlq.recorded + qsize` is the number accepted |
| Accounting.TakenInOrder | app/queue/event_queue.py:37-54 | Workers take events in acceptance order, each once: the queue is the rest of the accepted sequence |
| Accounting.MemoryBound | app/queue/event_queue.py:24-35 | For positive `max_size`, accepted but unfinished events never exceed `max_size + concurrency * max(1, batch_size)` in any run |
| Accounting.RefusalsChangeNothing | app/ingestion/service.py:67-79 | A refused ingest leaves the state as it was, an accepted one is queued last and counted; the gate and the bound alone decide which of accepted, refused as full and refused as closed is possible |
| Accounting.StoppedStaysStopped | app/main.py:118-122 | In every run from a state that stopped accepting, nothing more is accepted |
| Mirror.MirrorSafety | app/worker/es_indexer.py:92-105 | In every run with failures at any step: the source of each ES document is the whole Mongo document with its id and its text the joined listing of that document's metadata leaves, a marked event is in ES or was refused per document, stored fields never change, no document goes away and no marker returns to False |
| Mirror.MirrorSafetyAcrossCrashes | app/worker/es_indexer.py:72-105 | The same over any chain of processes, each killed at an arbitrary point |
| Mirror.DrainedMirrorIsExact | app/worker/es_indexer.py:92-105 | With nothing pending and nothing refused the index holds exactly the stored ids, each with the whole event and its metadata text |
| Outbox.MarkedWithinPasses | app/worker/es_indexer.py:72-105 | In any run whose later inserts have larger `received_at`, an event with `r` others pending at or before it is marked once `r / batch_size + 1` passes completed, whatever other passes fail |
| Outbox.ProgressStep | app/worker/es_indexer.py:92-105 | A step never adds to the events ahead, and a completed pass marks the event or takes a full batch from ahead of it |
| Delivery.ReplaySafety | app/api/routes_events.py:317-334 | Under any interleaving of replays failing at any step (replay bulk errors being duplicates), an id in `dead_letter` or `events` stays in one of them |
| Delivery.CompletedReplay | app/api/routes_events.py:324-325 | A finished replay leaves its id in `events` and not in `dead_letter`, inserts the record's event un-marked if the id was absent, and touches no document already stored |
| Provenance.NothingInvented | app/worker/consumer.py:117-191 | In every run the queue, batches, buffer, replays and both collections only hold events that were accepted or there at the start |
| Provenance.StoredWasAccepted | app/worker/consumer.py:145-191 | Over empty stores every stored document is an accepted event |
| Refinement.RoundIsARun | app/worker/consumer.py:130-191 | One round of `_consume` with nothing interleaved is a run of the step machine ending in the state the methods promise: batch taken, attempts, collection, counters, buffer, `dead_letter` |
| Refinement.BatchIsARun | app/worker/consumer.py:145-191 | The same for `_process_batch` alone |
| Refinement.LoopIsARun | app/worker/consumer.py:157-179 | The same for the attempt loop alone, from any attempt on |
| Refinement.PassIsARun | app/worker/es_indexer.py:72-105 | One indexer pass, failing anywhere, is a run of the step machine ending in the state `IndexPending` and `RunOnce` promise |
| Refinement.ReplayIsARun | app/api/routes_events.py:317-334 | A replay request, failing anywhere, is a run of its lookup, rewrite and delete steps ending in the stores `ReplayDeadLetter` promises |
| Consumer.WorkerPool.CollectBatch | app/worker/consumer.py:130-136 | Takes the oldest `min(qsize, max(1, batch_size))` events in order and leaves the rest |
| Consumer.WorkerPool.WriteWithRetries | app/worker/consumer.py:157-179 | The number of attempts, the collection after them, `_retries` growing by attempts minus one, the last error, the exact total backoff, and its bound `base_delay * (2^R - 1)` |
| Consumer.WorkerPool.ProcessBatch | app/worker/consumer.py:145-191 | The batch goes to the DLQ exactly when all `R + 1` attempts raise and is counted as processed otherwise, with the whole new state of counters, buffer and stores |
| Consumer.WorkerPool.ConsumeOnce | app/worker/consumer.py:130-143 | A round takes the oldest events up to the batch size, makes 1 to `R + 1` attempts stopping at the first that does not raise, and acknowledges each event once; a batch whose attempts all raised is in the DLQ buffer or sink, any other is counted as processed, and one whose last attempt met no error is in `events`, first occurrences winning |
| Consumer.AttemptsStopAtFirstSuccess | app/worker/consumer.py:158-166 | Between 1 and `R + 1` attempts: all but the last raised, and the last raised only if every allowed one did |
| Consumer.RetriedBatchIsWrittenOnce | app/worker/consumer.py:158-166 | Failed attempts followed by a clean one leave the collection of one plain insert |
| Consumer.DelayAtMost | app/worker/consumer.py:168-179 | For every draw of the jitter the total backoff after `n` failed attempts is between zero and `base_delay * (2^n - 1)` |
| Consumer.DelayExtremes | app/worker/consumer.py:168-179 | The bound is reached with the largest jitter, and zero with the smallest |
| Mongo.RetriesRefineOneWrite | app/storage/mongo.py:119-138 | Failed attempts each inserting any subset, marker flips and inserts of other ids, then a success: same events as the other inserts followed by one insert of the batch, skipping ids present |
| Mongo.RetriesAloneRefineOneWrite | app/storage/mongo.py:119-138 | Without other writers the collections agree outright, markers included |
| Mongo.DedupeById | app/storage/mongo.py:412-427 | The in-place loop computes `FirstOccurrences` |
| Mongo.FirstOccurrencesSpec | app/storage/mongo.py:412-427 | The kept documents are those at exactly the positions whose id did not occur before, in order |
| Mongo.FirstOccurrencesDistinct | app/storage/mongo.py:412-427 | No id is kept twice |
| Mongo.EntriesSpec | app/queue/dlq.py:79 | One entry per event, in order, with its event, the reason and the time of failure |
| Mongo.FirstIsPersisted | app/storage/mongo.py:349-366 | Of several entries with one new id the first is kept |
| Mongo.DedupeThenInsert | app/storage/mongo.py:131-135 | Deduplicating first changes nothing about what the insert leaves |
| MongoClient.MongoStore.BulkWrite | app/storage/mongo.py:119-138 | The collection after a call, for a clean call, swallowed errors and a transport failure part-way, and whether it raises; an empty batch is a no-op |
| MongoClient.ReturnedMeansPresent | app/storage/mongo.py:134-138 | A call that returned left every id present if and only if every swallowed error was a duplicate |
| MongoClient.MongoStore.MarkIndexed | app/storage/mongo.py:337-347 | Flips exactly the named markers and nothing else |
| MongoClient.MongoStore.PersistDeadLetters | app/storage/mongo.py:349-366 | Adds records under new ids, keeps existing ones, swallows bulk errors |
| MongoClient.MongoStore.GetDeadLetter | app/storage/mongo.py:388-397 | The record under the id, or None |
| MongoClient.MongoStore.DeleteDeadLetter | app/storage/mongo.py:399-409 | Removes at most that record; a failing call may or may not have removed it |
| MongoClient.ReplayDeadLetter | app/api/routes_events.py:317-334 | Answers "replayed" exactly when no call raises and the record exists, 404 exactly when the lookup finds none; a delete that raises leaves the event stored and the record gone only if it took effect; whatever fails, with duplicates-only errors no id leaves the two collections and no stored document changes |
| EventQueues.EventQueue.PutNowait | app/queue/event_queue.py:26-35 | Appends if the bound is absent or the queue shorter than it, else changes nothing |
| EventQueues.EventQueue.GetNowait | app/queue/event_queue.py:45-54 | Removes the oldest event, or reports an empty queue |
| EventQueues.EventQueue.TaskDone | app/queue/event_queue.py:56-58 | Counts down, and refuses to go below zero |
| EventQueues.StripSpec | app/ingestion/service.py:69 | Stripping takes spaces and only spaces off both ends, and all of them |
| EventQueues.KeyExactly | app/ingestion/service.py:69-71 | A header carries key `k` if and only if it is `k`, not blank and without spaces at its ends, between spaces; absent, empty and blank headers carry none |
| EventQueues.IngestionService.Ingest | app/ingestion/service.py:42-79 | Closed, full and accepted exactly when; the accepted document has the client's fields, defaults where absent, the receipt time, and the `uuid5` of the key between the header's spaces, or the fresh `uuid4` for a blank header |
| EventQueues.IngestionService.StopAccepting | app/ingestion/service.py:34-40 | Closes the gate |
| DeadLetterQueues.DeadLetterQueue.PushMany | app/queue/dlq.py:66-105 | One uninterrupted push: counter, buffer and sink after success, failure and without a sink; with duplicates-only errors the ids in sink plus buffer only grow, by the batch |
| DeadLetterQueues.PersistCovers | app/queue/dlq.py:92-99 | A persist that returned with duplicates-only errors left every pending id in the sink |
| EsIndexers.ElasticsearchStore.BulkIndex | app/storage/es.py:104-148 | Every document neither refused nor cut off is indexed whole, with the joined listing of its metadata leaves, the last of one id winning; nothing else changes; only a transport failure raises |
| EsIndexers.IndexedAt | app/storage/es.py:126-138 | The same of the index value |
| EsIndexers.EsIndexer.IndexPending | app/worker/es_indexer.py:92-105 | Index, then mark: nothing is marked unless the bulk call returned, refused documents are marked with the rest, counters and result |
| EsIndexers.EsIndexer.RunOnce | app/worker/es_indexer.py:74-84 | The index, the markers and both counters after a turn; a failed pass reports no more, and more is reported exactly after a full batch left the outbox |
| EsIndexers.EsIndexer.PassWithoutFaults | app/worker/es_indexer.py:92-105 | A pass takes `min(n, batch_size)` of `n` pending events out of the outbox, and the index changes for just those, to show the stored events |
| EsIndexers.EsIndexer.CatchUp | app/worker/es_indexer.py:72-84 | With no faults and no inserts, `n` pending events are all marked and shown whole in the index, nothing else in it changes, and the first pass to report no more is pass `n / batch_size + 1` |
| EsIndexers.SomeFetch | app/storage/mongo.py:315-335 | The outbox query has an answer for every collection and limit |
| EsIndexers.FetchSize | app/storage/mongo.py:315-335 | Any answer has `min(n, limit)` distinct pending events, and marking them takes just those out |
| Metadata.TextBuilder.Walk | app/storage/es.py:246-254 | The in-place walk appends the recursive leaf listing |
| Metadata.MetadataText | app/storage/es.py:230-257 | The result is the space-joined leaf listing |
| Metadata.JoinSpec | app/storage/es.py:257 | Parts in order with one space between neighbours and nothing around them |
| Metadata.LeavesAreTheScalars | app/storage/es.py:244-257 | The listing holds exactly the non-None scalars reachable by a path, one entry per position, in document order |
| Metadata.LeafPathsDistinct | app/storage/es.py:244-257 | No position contributes twice |
| RateLimits.RateLimiter.CheckRateLimit | app/cache/redis_cache.py:138-147 | The verdict, the client's counter for the window the time lies in, its expiry, and that no other live counter changes; errors and a zero window fail open |
| RateLimits.StoreIsExact | app/cache/redis_cache.py:138-144 | Over whole runs a live counter equals the hits of its bucket and never expires inside its own bucket |
| RateLimits.AdmittedExactly | app/cache/redis_cache.py:138-147 | An answered request passes if and only if fewer than `limit` earlier requests of its identifier took effect at times in its window `[b * window, (b + 1) * window)`; a failed EXPIRE admits nothing extra |
| RateLimits.OthersDoNotMatter | app/cache/redis_cache.py:140 | Requests of other identifiers never change a verdict |
| RateLimits.BucketBound | app/cache/redis_cache.py:138-147 | At most `limit` answered requests pass per identifier and window |
| RateLimits.SlidingBound | app/cache/redis_cache.py:138-147 | Any interval of `window_seconds`, ends included, passes at most `2 * limit` per identifier |
| Idempotency.ClaimStore.CheckIdempotency | app/cache/redis_cache.py:149-182 | A claim is made with the fingerprint and the TTL when none is held, never overwritten while held, and void once expired; new, replay or conflict exactly when, and every Redis error fails open as new |
| Idempotency.CreateEvent | app/api/routes_events.py:438-459 | 409 exactly for a key held with another fingerprint, else 503 when closed, 429 when full, 202 otherwise; the document's fields and id, the claim and the queue after each |
| Idempotency.ConflictExactly | app/api/routes_events.py:438-446 | Over whole runs within the TTL: 409 if and only if Redis answered and an earlier request first claimed the key with another fingerprint |
| Idempotency.NotRefusedMeansOwner | app/api/routes_events.py:438-446 | A request not answered with 409 carries the fingerprint that owns its key |
| Idempotency.OneFingerprintOneId | app/api/routes_events.py:438-459 | All accepted requests whose headers carry one key between any spaces share one fingerprint and one `event_id` |
| Idempotency.RefusedRequestDoesNotBlockRetry | app/api/routes_events.py:447-458 | A key claimed by a request that then got 429 or 503 never blocks a retry with the same body |
| Idempotency.StoredDocumentBelongsToTheKey | app/api/routes_events.py:438-459 | In every pipeline run fed by these requests, the one document stored under the key's id was built from a request carrying the key with the owning fingerprint |
| Filters.BuildMongoFilter | app/storage/mongo.py:174-183 | The filter built entry by entry is `MongoFilterOf`; an empty string adds no entry |
| Filters.BuildSearchQuery | app/storage/es.py:185-216 | The query built clause by clause is `SearchQueryOf`, `match_all` when both lists are empty |
| Filters.MongoFilterMeans | app/storage/mongo.py:174-183 | The Mongo filter matches exactly the events satisfying every given field and the inclusive time range |
| Filters.FilterClausesMean | app/storage/es.py:200-209 | The ES filter clauses match exactly the same events |
| Filters.CompilersAgree | app/storage/es.py:185-216 | Query-free, the two compilers match the same events, those that satisfy every filter present and not empty; free text only narrows |
| Filters.SearchAgreesWithFind | app/storage/es.py:185-216 | In every reachable state a search hit is a Mongo match, and a query-free search misses a match only while it is pending or because ES refused it |
| Filters.DrainedSearchIsExact | app/storage/es.py:185-216 | Over a drained mirror without refusals, query-free search and find return the same ids, those of the satisfying events |
| Filters.TimestampClause | app/storage/mongo.py:430-447 | No clause exactly when both bounds are absent |
| Paging.FindEvents | app/storage/mongo.py:174-197 | `has_more` exactly when the match count exceeds `offset + limit`, the page, and the total only when asked for |
| Paging.FollowPages | app/storage/mongo.py:185-197 | Following pages until `has_more` is False terminates and yields every matching event once, newest first, in the least number of pages |
| Grouping.RowsPartition | app/storage/mongo.py:228-256 | Summing any selection of rows counts the documents it selects |
| Grouping.RowCounts | app/storage/mongo.py:228-256 | A row exists exactly for the keys that occur, with their number of occurrences |
| Grouping.BucketsAddUp | app/storage/mongo.py:223-258 | For every range and truncation, a type's bucketed counts sum to its unbucketed count |
| Grouping.TotalsAgree | app/storage/mongo.py:223-258 | Both totals are the number of matching events |
| Grouping.WindowExact | app/storage/mongo.py:223-226 | `$match` keeps exactly the documents in range |
| Grouping.AggregationCountsTheCollection | app/storage/mongo.py:223-258 | Whatever the scan order, the row for a type is the number of stored events of that type in range |
| Grouping.BucketsCountTheCollection | app/storage/mongo.py:228-249 | The row for a type and bucket is the number of stored events of that type in range whose own timestamp truncates to the bucket |
| Grouping.TotalsCountTheCollection | app/storage/mongo.py:223-258 | Both totals are the number of stored events in range |
| Grouping.RollupNeverOvercounts | app/storage/mongo.py:290-309 | A rollup computed at any point of any run is, per type, at most the live count at every later point |

## Left out

- Motor, Elasticsearch, Redis, FastAPI and Pydantic internals: each store is a map whose calls can fail.
- SHA-256, `uuid4` and `uuid5`, and the canonical JSON of `_idempotency_fingerprint`: parameters.
- JSON, BSON and datetime encoding, time zones and sub-millisecond precision.
- Row order of the aggregations, ES scoring, text analysis and paging of search hits: decided by the engines or easy next to the rest.
- Index creation, connect, ping and close, health, metrics and listing routes, logging, response schemas and configuration loading.
- `_enforce_rate_limit` beyond the check it makes: it skips the check for a non-positive limit and maps a refusal to 429.
- `RollupScheduler` timing, `get_or_set` with its hit counters, and `aggregate_recent_counts`, which is the unbucketed aggregation over a one-sided range.
- Inserts that land on the server after their call was cancelled or had raised: what a failing call wrote is decided when it ends.
- Expiry of a claim between `SET NX` and `GET`: a vanished key would read as a conflict.
- Process crashes, for conservation: the in-memory queue is not durable. Mirror safety does cover them.
- Liveness of the drain: that workers eventually finish depends on Mongo answering or failing in time.
- A fetch with `worker_batch_size <= 0`, which Mongo reads as no limit.
- A negative `window_seconds`, and clock readings before the epoch.
- Errors of a replay that are not Mongo errors: answered with 500 instead of 503, with the same effect on the stores.
- Consumer.WorkerPool.ProcessBatch: covers a batch without interleaving; the interleaved behaviour is the step machine's, and `Refinement` connects the two.
- DeadLetterQueues.DeadLetterQueue.PushMany: covers one uninterrupted push; the step machine splits it at its await.
- Grouping.RollupNeverOvercounts: the stored rollup is the aggregation at the instant of the scan; that a slower refresh may overwrite a newer one is not modelled.
- Idempotency.StoredDocumentBelongsToTheKey: starts from empty stores, since documents left by earlier runs may stem from claims that have since expired.
