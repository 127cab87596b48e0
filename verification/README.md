# The search indexer's delivery protocols, modelled and proved

The indexer moves chat messages from MySQL shards to Kafka and from Kafka to OpenSearch, and a
historical loader takes the same rows past Kafka. This project models the protocols that must not
lose a row, pass an offset too early or leave the books unbalanced, and proves them.

| module | what it models |
|---|---|
| `Keyset`, `Extract`, `Chunk`, `Tick` | the producer's keyset reads, row extraction, delivery plan, and the tick of one writer |
| `ProducerProtocol` | any number of producer replicas as interleaved steps, with no run lock at all |
| `Decision`, `Kafka`, `Settling`, `Dlq` | commit points, one consumer group on a log, in-place settling of a batch, the dead-letter handler: what both consumers share |
| `Consumer`, `FileExtract` | the unbounded and the bounded Kafka batch machine |
| `BulkWriter`, `EsDoc`, `Decimal`, `DocEnrich` | the bulk writer, document conversion and keys, and the two paths a row can take to a document |
| `Merge` | a stored document with its two writers |
| `Spill`, `Backfill`, `Recon`, `Ledger` | the spill file and its recovery, the crash-consistent runner, and the balance of a time window |
| `Sampling`, `Utf8`, `TokenBucket` | cross-shard sampling, text truncation, the rate limiter |

The outside world is arbitrary. A database, broker, index or disk call may fail, may have taken
effect although it failed, and a bulk response may say anything. A loop that retries for ever looks
at a finite part of the run: each cancellation check uses up some of a given amount of fuel, so a
claim for every amount of fuel is a claim for every finite run. A crash is an end of a run after any
external call, followed by a restart from what is durable. Every stop and every failed call counts as
one fault (`Common.Context`), and the operations are proved to fail exactly when there was one:
none may give up, or leave its work for later, by itself.

## What was found

- **Stability lag.** The configuration notes ask that the lag exceed the longest insert transaction.
  Both `created_at` and the cutoff are whole seconds, so one more second is needed: the producer is
  safe in every run if and only if transactions close within `lag - 1` seconds
  (`ProducerProtocol.SafeIffHoldFits`, with a run that skips a row otherwise).
- **Partial fetches.** The file extractor drops the messages it has already fetched when a later
  fetch of the batch fails by something other than a timeout. They are lost exactly when a later
  batch of the same life commits on their partition (`FileExtract.LostExactlyWhenPassed`,
  `FileExtract.DroppedMessageLost`).
- **Orphaned parents.** The ledger `ES docs == source rows - DLQ` holds exactly when no rich-text
  parent was accepted while one of its children was refused, up to indexed rows dated zero, which the
  range filter cannot see (`Ledger.LedgerEquation`).
- **Spill keys.** A dead row is accounted for under its message id, or under `table:id` when that is
  empty. Rows with equal keys are the same message or the same row unless the message id of one spells
  the table and id of the other; then the second is never written (`Spill.KeyMeans`). A spill that
  accounts for a dead row holds that row's own record, whatever it holds otherwise, exactly when no
  two rows clash like this; message ids without a colon never do (`Backfill.OwnRecordsExactly`).
- **Oversized messages.** The realtime and the historical path build the same documents exactly for
  rows that the historical path dead-letters or whose message fits the Kafka limit
  (`DocEnrich.PathsAgreeExactly`).
- **Request size.** The size estimate of a bulk request is never below its real size, children
  included, for document keys of up to 29 characters, which are those of a message and its first
  million children (`BulkWriter.EstimateBounds`, `EsDoc.KeysAreShort`).
- **Tombstones.** A later successful extraction does not clear `contentMeta.status`, since the
  partial update merges (`Merge.TombstoneOutlivesContent`).
- **Message ids.** The key of a document equals the message id text exactly for canonical decimal
  text; `007` and `7` share a key (`EsDoc.ParentKey`, `Decimal.FormatParse`).
- **Visibility lists.** The sampling gate compares visibility lists with repetition, although its
  comment speaks of sets (`Sampling.SameStringSet`, `Sampling.SetsWhenDistinct`).
- **Spill handle.** After a failed write nothing more may be written on the same handle: the next
  synced length would not parse unless nothing was torn (`Spill.WriteAfterTorn`).
- Where comments and code differ elsewhere the code is modelled: 409 is retried like 429, and the
  stored source is taken to contain the file content, as the mapping notes of version 1.13 require.

## Model

| member | source | states |
|---|---|---|
| `Chunk.Route` | internal/producer/chunk.go:46-74 | a row goes to the main stream only as a message within the Kafka limit, and to the DLQ under its own shard and id, with its payload whole or not at all |
| `Chunk.RouteExactly` | internal/producer/chunk.go:46-118 | a message goes out as extracted when it has at most 1,000,000 bytes, without its payload when only that fits, else to the DLQ truncated; a row that cannot be extracted goes to the DLQ for that reason, located by table and id, with its payload up to 700,000 bytes |
| `Extract.ProducerSorts` | internal/producer/extract.go:87-181 | a row with either mark of encryption ships nothing of its payload; any other ships it whole under the visibility it grants, or is dead because it is no object with members or its visibility is untrusted; a text with a string content is the only one not excluded; all carry the row |
| `Extract.BackfillSorts` | internal/backfill/extract.go:83-151 | the same rows and texts on the historical path, without payload and visibility |
| `Chunk.PlanChunk` | internal/producer/chunk.go:46-74 | the loop's two streams, count and cursor target are those of the stable prefix, and it advances exactly when that is not empty |
| `Chunk.StablePrefix` | internal/producer/chunk.go:87-94 | the longest prefix of rows no younger than the cutoff |
| `Chunk.PlanPartition` | internal/producer/chunk.go:46-74 | the rows of a plan fall into two strictly increasing, disjoint position lists that cover all of them |
| `Chunk.PlanRouting` | internal/producer/chunk.go:46-74 | the k-th message of each stream is the routing of the row at its k-th position |
| `Chunk.MainMessagesFit` | internal/producer/chunk.go:107-118 | no planned main message exceeds the Kafka limit |
| `Keyset.AfterAt` | internal/producer/source.go:67-118 | the rows after a cursor are those from the place where ids pass it |
| `Tick.Store.ReadStableBatchTx` | internal/producer/source.go:67-118 | the cursor and the first rows after it, at most a batch |
| `Tick.Store.AdvanceCursor` | internal/producer/source.go:121-136 | compare-and-swap: moves only from the expected value, and a failed call may still have moved it |
| `Tick.ETL.RunChunk` | internal/producer/etl.go:162-229 | delivers the stable rows of one batch and then moves the cursor over exactly them; on any failure the cursor stays or those rows were delivered |
| `Tick.ETL.RunTable` | internal/producer/etl.go:111-133 | the chunk loop of a table ends and has the effect of planning everything stable after the cursor at once, unless there was exactly one fault outside |
| `Tick.ETL.RunTick` | internal/producer/etl.go:94-149 | an error-free tick equals the one-shot plans of its tables for every batch size; with errors no row is skipped and no cursor goes back; it fails only for a fault outside or a table that cannot be read |
| `Tick.ETL.RunIncremental` | internal/producer/etl.go:78-88 | a round that is already running, or finds the run lock taken, changes nothing; any other is a tick |
| `Tick.ChunkThenRest` | internal/producer/etl.go:111-133 | delivering a chunk and planning the rest is planning everything at once |
| `Tick.SecondPlanDeliversNothing` | internal/producer/etl.go:111-133 | a finished tick leaves nothing stable behind the cursor; planning again delivers nothing |
| `Tick.ChunkKeepsAllNoGap` | internal/producer/etl.go:162-229 | every row a cursor has moved over is in the stream its routing names, after every chunk, failed or not |
| `ProducerProtocol.StepKeeps` | internal/producer/etl.go:162-229 | every step of any replica, transaction or clock keeps the invariant: all visible rows at or below the cursor are delivered, and what a replica holds is complete |
| `ProducerProtocol.RunKeeps` | internal/producer/etl.go:17-22 | the invariant holds in every state of every run, with no lock |
| `ProducerProtocol.CursorOnlyGrows` | internal/producer/source.go:121-136 | in every run the cursor never goes back |
| `ProducerProtocol.OpenAboveStable` | internal/producer/config.go:102-110 | no open transaction has an id at or below a row a reader finds stable |
| `ProducerProtocol.ReadIsComplete` | internal/producer/chunk.go:87-94 | a stable batch contains every row that is or will become visible up to its last id |
| `ProducerProtocol.SafeIffHoldFits` | internal/producer/config.go:102-110 | no run skips a visible row if and only if insert transactions close at least one second faster than the lag |
| `Decision.PartitionCommitPoints` | internal/consumer/decision.go:63-92 | for each partition of an unordered batch, once, the greatest offset with nothing pending at or below it, and nothing for partitions without one |
| `Decision.HasTransient` | internal/consumer/decision.go:45-52 | whether anything is pending |
| `Decision.PointUnlessHeadPending` | internal/consumer/decision.go:54-62 | a partition has a commit point exactly when its lowest message is not pending |
| `Decision.PointIsUnique` | internal/consumer/decision.go:63-92 | a partition has at most one commit point |
| `Decision.PointsOnlyAdvance` | internal/consumer/consumer.go:159-192 | as messages settle and never reopen, a partition's commit point never goes back |
| `Kafka.CrossableIsSafe` | internal/consumer/decision.go:54-62 | when everything below the batch is done, everything at or below a crossable message is done |
| `Kafka.CommittedIsSafe` | internal/consumer/consumer.go:317-336 | marks reached by committing points have only finished messages below them |
| `Kafka.Broker.CommitPrefixes` | internal/consumer/consumer.go:317-336 | commits reach only marks past crossable messages, never go back, and on success cover every commit point |
| `Settling.ProgressStep` | internal/consumer/consumer.go:197-285 | settling one pending message keeps every other settled message settled and done |
| `Settling.AfterPass` | internal/consumer/consumer.go:159-192 | after a pass, failed or not, all that was committed or lies below the batch is still done |
| `Dlq.Handler.Send` | internal/consumer/dlq.go:93-123 | success means the record is in the topic or in its own spill file, and no other record is lost; the spill file is resorted to exactly when retries+1 attempts were refused or the record cannot be encoded; short of that it fails only when stopped |
| `Dlq.Handler.Escape` | internal/consumer/dlq.go:127-148 | a spill file exactly for this partition and offset, or a hard stop when spilling is off |
| `Dlq.RecordedKeeps` | internal/consumer/dlq.go:127-148 | a recorded message stays recorded whatever is sent for other offsets |
| `Consumer.PrepareExactly` | internal/consumer/consumer.go:132-157 | a message goes to the index exactly when it decodes, has the known schema and its payload, if any, yields a trusted visibility, which then replaces its own; otherwise the reason is the first of these that fails |
| `Consumer.Processor.ResolvePass` | internal/consumer/consumer.go:197-285 | a pass never reopens a settled message, settles only messages indexed or soundly dead-lettered, and hands only trusted messages to the writer; what it leaves pending it has sent in one call, and the reply to that very message was missing or neither a success nor a 4xx other than 409 and 429; it fails only for a fault outside |
| `Consumer.Processor.ProcessBatch` | internal/consumer/consumer.go:128-193 | however it ends, all below the committed offsets is indexed, in the DLQ topic or in a spill file and no partition went back; it ends well, with the whole batch committed, unless there was a fault outside, and calls the index again only after a call that left a message open |
| `Consumer.Processor.FetchBatch` | internal/consumer/consumer.go:98-114 | the batch is exactly what was read past the old positions, up to the batch size unless a fetch ended it; a failing later fetch keeps the partial batch |
| `Consumer.Processor.Run` | internal/consumer/consumer.go:79-95 | the same over a whole run, with everything fetched between batches committed, until a fault ends it |
| `Consumer.Lives` | internal/consumer/consumer.go:79-95 | the same over any number of runs, each ended by a fault and served again from the committed offsets |
| `FileExtract.JobExactly` | internal/fileextract/payload.go:33-62 | a file job is exactly a decodable message whose payload is an object with the plain integer type 8, with the strings and the size of that object |
| `FileExtract.Processor.AttemptOne` | internal/fileextract/consumer.go:265-305 | one answer of the extractor for a file and none otherwise; written and non-file messages end well, a refusal gives one accepted record with that very reason, and only a file that is asked to be tried again stays pending |
| `FileExtract.Processor.ProcessBatch` | internal/fileextract/consumer.go:187-258 | at most MaxRetries+1 rounds; a dead message has exactly one accepted record, and it was unreadable, or its last answer was that very refusal, or all of exactly MaxRetries answers asked for another try; any other message has none; it ends well, with every message settled and every partition committed past its last, unless there was a fault outside; no commit passed a pending message |
| `FileExtract.Processor.Turn` | internal/fileextract/consumer.go:205-245 | a message is given up on exactly after MaxRetries answers that asked for another try; before that it gets one more attempt |
| `FileExtract.NextRound` | internal/fileextract/consumer.go:187-258 | after a pass that left something pending another round is still allowed |
| `FileExtract.Processor.FetchBatch` | internal/fileextract/consumer.go:133-158 | a timeout ends the batch, any other failure hands back the fetched messages with the error |
| `FileExtract.Processor.Run` | internal/fileextract/consumer.go:89-129 | all below the committed offsets is handled or was dropped, and messages are dropped only when a fetch failed, not when it timed out |
| `FileExtract.Lives` | internal/fileextract/consumer.go:89-129 | the same over any number of runs, each ended by a fault |
| `FileExtract.LostExactlyWhenPassed` | internal/fileextract/consumer.go:104-116 | after a dropped batch, what is committed is handled exactly when no partition with a dropped message was committed further |
| `FileExtract.DroppedMessageLost` | internal/fileextract/consumer.go:149-153 | two messages on which the drop loses one |
| `BulkWriter.SubBatchEnd` | internal/esindex/writer.go:318-328 | a run within the size limit, or one document, that cannot take one more |
| `BulkWriter.EstimateBounds` | internal/esindex/writer.go:330-355 | with keys of at most 29 characters the size estimate of a batch is at least the bytes of its request, children included, and at most 29 for each document above |
| `BulkWriter.RequestFits` | internal/esindex/writer.go:268-273 | a request within the estimated limit has at most 50 MiB |
| `BulkWriter.OnlyLargeRefused` | internal/esindex/writer.go:292-306 | a family refused unsent would have made a request of about 50 MiB or more |
| `BulkWriter.MapBulkResults` | internal/esindex/writer.go:449-470 | one verdict per parent: success exactly when the entries of it and all its children are present and 2xx, else the status of the first that is not |
| `BulkWriter.BulkOnce` | internal/esindex/writer.go:357-381 | results of full length even when encoding or the request fails |
| `BulkWriter.BulkDocs` | internal/esindex/writer.go:282-314 | one result per document in order; requests tile the documents, each within the limit and maximal; a document too large alone is refused unsent; an error exactly when some request failed |
| `BulkWriter.Bulk` | internal/esindex/writer.go:224-266 | one result per message in order under its own id, 400 for a message that is no document |
| `BulkWriter.OkMeansAcknowledged` | internal/esindex/writer.go:475-500 | success is reported only for documents the server acknowledged at their own position, with all children |
| `BulkWriter.MessageOkMeansAcknowledged` | internal/esindex/writer.go:224-266 | the same for messages |
| `BulkWriter.SplittingIsInvisible` | internal/esindex/writer.go:268-281 | against a server with a fixed status per document, each result depends on its own family only, however the batch is split |
| `BulkWriter.FairVerdict` | internal/esindex/writer.go:449-470 | against a server that says 2xx only of documents it accepts and 4xx, but 409 and 429, only of others, success means the whole family is accepted and a permanent failure that it is not, though an accepted parent was still indexed |
| `EsDoc.FamilyShape` | internal/esindex/doc.go:229-275 | parent and children of a message: places 0 and strictly increasing; sender, channel, ids, times and visibility of the message |
| `EsDoc.ProjectionKeeps` | internal/esindex/buildraw.go:56-171 | a typed raw payload becomes its type and, exactly when it has something to show, the one member named for that type, with the content, url, name, caption, cover, extension, size and dimensions of the raw payload; a file whose suffix says video becomes a video |
| `EsDoc.ParentCarries` | internal/esindex/doc.go:229-289 | the parent has the sender, channel, sequence, times, source and visibility of its message; it is marked as excluded exactly when nothing could be projected; a message without raw payload keeps its text, or nothing when it is encrypted |
| `EsDoc.ForwardedKeeps` | internal/esindex/buildraw.go:199-236 | a forwarded message keeps its number, sender, time and type, and its searchable text |
| `EsDoc.ForwardedFound` | internal/esindex/buildraw.go:247-265 | that text is the content of a text, contains name and caption of an image or file, and is the rich text of a rich text |
| `EsDoc.PlainFound` | internal/esindex/buildraw.go:272-293 | the searchable text of a rich text contains the plain text it brings |
| `EsDoc.BlockFound` | internal/esindex/buildraw.go:272-345 | or, when it brings none, the text of each of its text blocks |
| `EsDoc.NameFound` | internal/esindex/buildraw.go:280-291 | and always the name and the caption of each of its images and files |
| `EsDoc.StringFound` | internal/esindex/buildraw.go:305-322 | and is the content itself when that is a plain string |
| `EsDoc.PeerOf` | internal/esindex/buildraw.go:351-361 | in a two-party channel the other side is found from either side |
| `EsDoc.SuffixDecides` | internal/esindex/buildraw.go:365-372 | the suffix after the last dot of a name decides when there is something before and behind it, else the extension field |
| `EsDoc.ChildrenFrom` | internal/esindex/richtext_derive.go:29-59 | only a rich text has children, derived from the blocks of its content |
| `EsDoc.ChildAtBlock` | internal/esindex/richtext_derive.go:29-59 | there is a child at the place of a block exactly when the block is an image with an address |
| `EsDoc.ChildOfBlock` | internal/esindex/richtext_derive.go:29-59 | every image block with an address has its child |
| `EsDoc.BlockOfChild` | internal/esindex/richtext_derive.go:29-59 | every child comes from the image block at its own place |
| `EsDoc.ChildPayload` | internal/esindex/richtext_derive.go:87-119 | a child is an image with the address, name and dimensions of the block at its place, dimensions only within the index's integer range |
| `EsDoc.KeysDistinctWithin` | internal/esindex/richtext_derive.go:64-82 | keys, and pairs of message id and place, tell apart all documents of one message |
| `EsDoc.KeysDistinctAcross` | internal/esindex/doc.go:193-209 | and those of any two messages whose ids differ as numbers |
| `EsDoc.KeysAreShort` | internal/esindex/richtext_derive.go:64-82 | the keys of a message and of its first million children have at most 29 characters |
| `EsDoc.ParentKey` | internal/esindex/doc.go:193-209 | a parent's key parses to its message id, and is the id text exactly when that is canonical |
| `EsDoc.NoFileContent` | internal/esindex/buildraw.go:131-161 | the projection never writes file content or content facts |
| `Decimal.ParseFormat` | internal/esindex/doc.go:193-209 | parsing undoes formatting on 64-bit integers |
| `Decimal.FormatParse` | internal/esindex/doc.go:190-198 | formatting undoes parsing exactly on canonical text |
| `Decimal.ParseSigned` | internal/esindex/doc.go:200-209 | an optional sign and digits parse to their value when it fits 64 bits, and to nothing when it does not |
| `DocEnrich.LoadedExactly` | internal/backfill/doc_enrich.go:23-57 | a row is spilled exactly when its payload is no object with members, its visibility is untrusted or its message id is no number, encrypted rows only for the last; it counts as excluded exactly when it is no text with a string content |
| `DocEnrich.SameMessage` | internal/backfill/doc_enrich.go:23-57 | the backfill converts the very message the producer extracts, and dead-letters the same rows |
| `DocEnrich.PathsAgreeExactly` | internal/producer/chunk.go:107-118 | both paths build the same documents, or none, exactly when the backfill dead-letters the row or its message fits the limit |
| `Merge.UpdateIsFileMerge` | internal/fileextract/oswriter.go:75-158 | content and tombstone updates change the file member only |
| `Merge.WritersCommute` | internal/esindex/writer.go:171-196 | on an existing document an upsert and an update commute, whatever is stored |
| `Merge.InterleavingIrrelevant` | internal/esindex/writer.go:171-196 | any interleaving ends like all upserts in order followed by all updates in order |
| `Merge.SameOrdersSameEnd` | internal/esindex/writer.go:171-196 | two runs with the same order of upserts and the same order of updates end alike |
| `Merge.UpsertKeepsOwned` | internal/esindex/writer.go:155-163 | no upsert loses stored content or content facts |
| `Merge.UpsertBrings` | internal/esindex/writer.go:171-196 | an upsert brings the whole new document at every level but the file's content and content facts, and is the new document itself exactly when the stored file owns neither |
| `Merge.UpsertForgetsTheRest` | internal/esindex/writer.go:171-196 | of what is stored an upsert depends on those two fields only |
| `Merge.TombstoneWritten` | internal/fileextract/oswriter.go:123-158 | a tombstone sets status and reason and leaves the content alone |
| `Merge.LastUpsertWins` | internal/esindex/writer.go:171-196 | of several upserts only the last counts, so a redelivery changes nothing |
| `Merge.ContentSurvives` | internal/esindex/writer.go:155-163 | after any run the content is that of the last update that brought one |
| `Merge.ChangesOnNothing` | internal/fileextract/oswriter.go:75-158 | updates on a missing document leave it missing |
| `Merge.TombstoneOutlivesContent` | internal/fileextract/oswriter.go:123-158 | content written after a tombstone keeps the unextractable status |
| `Merge.IndexerOwnsNothing` | internal/esindex/buildraw.go:131-161 | documents the indexer builds meet the premise of the results above |
| `Spill.SpillRoundTrip` | internal/backfill/dlq.go:180-199 | parsing the written bytes accounts for exactly the records |
| `Spill.FoldMeans` | internal/backfill/dlq.go:180-207 | the account has the keys of the records, each with the data of one of them |
| `Spill.KeyMeans` | internal/backfill/dlq.go:201-207 | equal keys mean the same message id, or no message id and the same table and row id, or a message id that spells the table and row id of a row without one |
| `Spill.SeenMeans` | internal/backfill/dlq.go:228-237 | a row's key is seen exactly when some record is of its message, of its table and id when it has none, or clashes with it |
| `Spill.NoColonNoShadow` | internal/backfill/dlq.go:201-207 | message ids without a colon never clash |
| `Spill.ParseSyncedSpillPrefix` | internal/backfill/dlq.go:180-199 | the line loop equals the record-by-record parse, failing on a corrupt or unfinished line |
| `Spill.OpenDLQSpill` | internal/backfill/dlq.go:76-113 | without a disk fault it succeeds on any disk exactly when recovery does; after any crash it finds exactly the synced records and drops the rest |
| `Spill.RecoverAndLoad` | internal/backfill/dlq.go:138-173 | cuts the file at the synced length and accounts for what is left, or reports lost state |
| `Spill.Disk.Crash` | internal/backfill/dlq.go:62-75 | a crash that keeps the durable prefix and leaves anything behind it keeps the safe records |
| `Spill.RecoverValid` | internal/backfill/dlq.go:117-173 | recovery never fails on a disk this code wrote |
| `Spill.DLQSpill.Write` | internal/backfill/dlq.go:228-248 | a row is written exactly when no record accounts for it, by message id or by table and row id; then one stamped record is appended; it fails only when the disk does, and then the account is as it was |
| `Spill.DLQSpill.Sync` | internal/backfill/dlq.go:363-380 | success makes every record safe; failure never loses a safe one |
| `Spill.DLQSpill.Close` | internal/backfill/dlq.go:431-451 | the same on a graceful stop |
| `Spill.DLQSpill.Count` | internal/backfill/dlq.go:259-263 | one per record |
| `Spill.DLQSpill.CountInWindow` | internal/backfill/dlq.go:267-277 | the number of keys whose time is in the window |
| `Spill.DLQSpill.MessageIDsInWindow` | internal/backfill/dlq.go:284-294 | the real message ids in the window |
| `Spill.LoadDLQMessageIDsInWindow` | internal/backfill/dlq.go:316-355 | on any disk, the ids in the window of what recovery would account for |
| `Spill.SyncedMeansAgreed` | internal/backfill/dlq.go:296-315 | once everything is synced, a reader of the directory accounts for what the handle does |
| `Spill.WriteAfterTorn` | internal/backfill/dlq.go:228-248 | a line written behind torn bytes yields a parsable synced length only if nothing was torn |
| `Backfill.CheckpointStore.Advance` | internal/backfill/checkpoint.go:78-91 | only forward; on failure memory rolls back while the file may have changed |
| `Backfill.CheckpointStore.Persist` | internal/backfill/checkpoint.go:110-158 | the file changes as a whole, before or after the point where it is sure to survive |
| `Backfill.Runner.WriteMain` | internal/backfill/runner.go:190-240 | on success every item is in the index or in the spill, counted once, batch-level failures and partial replies included; another request is made only after one that left something open, and it fails only for a fault outside |
| `Backfill.Runner.ProcessBatch` | internal/backfill/runner.go:151-182 | on success every row of the batch is in the index or has a record in the spill that accounts for it and says why, and is counted in exactly one class |
| `Backfill.Runner.Secure` | internal/backfill/runner.go:123-133 | spill synced before the checkpoint moves: the durable state stays covered whichever call fails |
| `Backfill.Runner.RunTable` | internal/backfill/runner.go:103-136 | from the checkpoint to the end of the table; however it ends, every row at or below the durable checkpoint is in the index or accounted for by a record of the safe spill with its message id, or its table and id; on success read = indexed + DLQ over exactly those rows; it fails only for a fault outside or a table that cannot be read |
| `Backfill.Runner.Run` | internal/backfill/runner.go:78-100 | the same over all tables |
| `Backfill.Index.BulkDocs` | internal/backfill/runner.go:201-236 | what the runner may conclude from a result of the bulk writer |
| `Backfill.Reopen` | internal/backfill/dlq.go:76-113 | after a crash the reopened spill and checkpoint are still covered |
| `Backfill.Life` | internal/backfill/runner.go:78-136 | one crashed and resumed run: what outlives the process stays covered; a successful one leaves every row of its tables done |
| `Backfill.OwnRecordsExactly` | internal/backfill/dlq.go:228-237 | every dead row that is accounted for has its own record, whatever the spill holds, exactly when no row without a message id has its table and id spelled by the message id of another |
| `Backfill.FinishedRows` | internal/backfill/runner.go:78-136 | then every row of a finished table is in the index or has its own record in the spill |
| `Ledger.LedgerEquation` | internal/recon/recon.go:80-101 | after a finished backfill, in every window the counts are valid and the difference is the orphaned parents less the indexed rows without a date |
| `Ledger.LedgerBalances` | internal/recon/recon.go:55-101 | a window after zero is accepted and reported OK exactly when it holds no orphaned parent |
| `Ledger.DocsAreParents` | internal/recon/collectors.go:98-116 | the counted documents are the parents of the rows kept in the window |
| `Ledger.KeysAreDead` | internal/backfill/dlq.go:267-277 | the counted spill keys are those of the window's dead rows |
| `Ledger.IdsAreDead` | internal/backfill/dlq.go:284-294 | the message ids of the window's spilled records are those of its dead rows that have one |
| `Ledger.RawExcludedVisible` | internal/recon/collectors.go:119-131 | raw-excluded documents are among the counted ones |
| `Recon.CheckedExactly` | internal/recon/recon.go:55-101 | counts are refused exactly when one is negative, more is dead than there was or more is excluded than there are documents; the others balance exactly when documents and dead rows make up the source rows |
| `Ledger.ConversionIsLoadOK` | internal/backfill/doc_enrich.go:23-57 | the real conversion meets the premise of the ledger |
| `Ledger.BackfillAndReconcile` | internal/recon/recon.go:73-78 | after any sequence of crashed and resumed runs that ends well, the reconciled report is OK exactly when the window holds no orphaned parent; a job that does not end well has met a fault or a table that cannot be read |
| `Sampling.SampleRows` | internal/recon/sample.go:233-261 | the first k rows of every table, merged and cut, are the first k rows of the window |
| `Sampling.FirstRowsUnique` | internal/recon/sample.go:54-58 | that list is determined by the window |
| `Sampling.Oversampling` | internal/recon/sample.go:98-122 | asking for limit plus the number of excluded ids leaves exactly the first limit comparable rows, when every row has an id |
| `Sampling.CompareSamplesExcluding` | internal/recon/sample.go:87-154 | compares exactly those rows; counts the places of rows without a document and of rows whose document disagrees in some compared field; the details are the first of all, up to the cap |
| `Sampling.CompareRowMeans` | internal/recon/sample.go:157-187 | a row passes exactly when all reader-critical fields agree, visibility only for rows that are not encrypted |
| `Sampling.CompareRowNames` | internal/recon/sample.go:157-187 | a detail names the row and a field exactly when that field differs |
| `Sampling.SameStringSet` | internal/recon/sample.go:199-210 | equality of multisets |
| `Sampling.SetsWhenDistinct` | internal/recon/sample.go:198-210 | which is equality of sets for lists without repetition |
| `Utf8.TruncateContent` | internal/fileextract/tika.go:152-162 | a prefix within the limit, cut exactly when the text is longer, back to a byte that may start a character |
| `Utf8.ReadAndTruncate` | internal/fileextract/tika.go:110-118 | reading four bytes more than the limit gives the answer of the whole text |
| `Utf8.TruncationOfText` | internal/fileextract/tika.go:150-162 | well-formed text is cut to its longest well-formed prefix within the limit, at most three bytes short |
| `Utf8.BoundaryIsStart` | internal/fileextract/tika.go:150-162 | in well-formed text a prefix is well-formed exactly at the start of a character |
| `Utf8.TextIsEncoded` | internal/fileextract/tika.go:150-162 | well-formed text, as used above, is the UTF-8 encoding of Unicode scalar values |
| `Utf8.EncodedIsText` | internal/fileextract/tika.go:150-162 | and every such encoding is well-formed |
| `TokenBucket.RateLimiter.TryTake` | internal/backfill/ratelimit.go:57-70 | refill to the burst at most, and take what is asked exactly when it is there |
| `TokenBucket.RateLimiter.Attempt` | internal/backfill/ratelimit.go:57-79 | takes what is asked, or sleeps for exactly as long as the missing tokens take to refill |
| `TokenBucket.RateLimiter.Wait` | internal/backfill/ratelimit.go:53-80 | what is granted is covered by tokens and refill; a request within the burst needs at most one sleep of the computed length, a larger one is never granted |
| `TokenBucket.Serve` | internal/backfill/ratelimit.go:24-31 | over any requests at any times the documents granted stay within burst plus rate times elapsed time, and cover every request that was not cancelled |

## Left out

- Clients of Kafka, MySQL, Redis, OpenSearch, Tika and the file store: atomic steps or arbitrary replies; their wire formats are not modelled.
- The Redis run lock and its renewal: the producer results hold with the lock lost at any time.
- octo-lib (message contract, visibility parser, constants) is not part of this model: JSON text, the visibility parser and the size of a message on the wire are parameters.
- JSON text syntax: values are trees, record encoders are parameters with a left inverse that never emit a newline; replacement of invalid UTF-8 inside strings is not modelled.
- Sleeps, backoff and jitter: only attempt counters are kept; in `TokenBucket` durations are not rounded to nanoseconds.
- Consumer group rebalances in the middle of a run, and holes in Kafka offsets.
- Failure details, alerts, metrics, gauges, configuration clamps, index and mapping checks, URL and TLS switches.
- The extractor's download and Tika steps: `FileExtract.Extractor.ExtractAndWrite` may end in any of its outcomes; MIME and extension tables are left out.
- The `cmd` programs and the file-content backfill, which repeats a simpler scan loop.
- Lower-casing and blank tests over Unicode: parameters of the conversion. SQL and Go string order are taken to be the same.
- Disk faults other than a crash: a successful fsync is taken to have made the file durable.
- Consumer.Writer.Bulk: the consumer is proved against any bulk results of any length; that the real writer reports success only for acknowledged documents is `BulkWriter.MessageOkMeansAcknowledged`.
- Backfill.CheckpointStore.Advance: an unset checkpoint path, used in tests only, is not modelled.
- Ledger.LedgerBalances: assumes that no two rows share a message id or clash as above, and an index whose acceptance of a document never changes.
- BulkWriter.RequestFits: keys longer than 29 characters, which only a rich text with more than a million blocks can produce.
- Sampling.CompareSamplesExcluding: with a row that has no message id the compared rows are still the first comparable ones, but may be one short of the limit.
- Tick.ETL.RunTick: one writer; several replicas are the subject of `ProducerProtocol`, over one shard.
