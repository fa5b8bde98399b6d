# Verified model of the delivery-aware ingestion pipeline

This project models the ingestion pipeline of synapsePlatform and the two read paths that depend on
what it stores, and proves properties of the model with Dafny 4.11. `dafny verify dfyconfig.toml`
checks the whole project.

The pipeline takes records from a Kafka topic, turns them into events, writes the events to SQLite and
commits offsets. Offsets are cumulative and deliveries finish out of order, so the promise that no
committed offset covers a message that is stored nowhere is spread over the committer, the three
ingestor modes, the retry loop, the chunked batch write and the dead-letter path.

| file | what it models |
|---|---|
| `Errors.dfy`, `Retry.dfy` | error chains, their transient/terminal class, the retry loop |
| `Intake.dfy` | polling, raw validation, the transformer's verdict and the deterministic event id |
| `Committer.dfy` | the offset committer: walk, runs of register and complete, the object itself |
| `EventStore.dfy`, `Repo.dfy` | first-writer-wins inserts, chunks, accounting; the repository object and the retried write |
| `Batcher.dfy` | the batcher loop over one reused buffer |
| `Ingestor.dfy` | what happens to a batch of deliveries at the store: acks, failure records with acks, or nothing |
| `Pipeline.dfy` | single, batch and worker-pool mode as one step system over goroutines, channels, stores and broker |
| `PipelineProtocol.dfy`, `PipelineSafety.dfy`, `PipelineShutdown.dfy` | what every step keeps, safety over every run and restart, stopping |
| `PipelineHistory.dfy` | what has become of each delivery and why, told by the steps of the run |
| `PipelineExamples.dfy` | runs of each mode, and with them what is promised only under a condition, with exactly which |
| `Pagination.dfy` | the event list: cursors, pages, walks over fixed and growing tables |
| `CacheKey.dfy`, `CacheText.dfy` | the hashed text of a summary's inputs, and exactly when it tells them apart |
| `SummaryCache.dfy` | requests, saves and event writes interleaved |
| `Utf8.dfy`, `LogHandler.dfy` | the redacting log handler, with UTF-8 by section 4 of RFC 3629 (section 3 defines the encoding) |
| `Text.dfy`, `Option.dfy` | string order, splitting at delimiters, decimal numerals; options |

Objects whose methods update fields are classes here, with methods proved against functions on values;
the theorems are about those functions. The concurrent run is a step system: a step is what one
goroutine does between two points where another may run, and a run is any interleaving. Network,
database and timers answer through parameters or free choices of a step.

## Main results

* **At least once.** Over every interleaving in every mode, each offset from a partition's first
  registered one up to any chosen or delivered commit is durable (`AtLeastOnce`); over any number of
  crashes, restarts, configurations and late commits, everything from the start of the log to the
  committed offset is (`LosslessOverRestarts`). Durable means: the message's event id is in the events
  table, or the message is in a failure record; of a record that does not decode, and so has no message,
  a failure store has accepted a record without one. Its own data is in a store for every such message
  if and only if no two different readings of the log share an id (`ReadingsKeptExactly`). An unacked offset holds back all later commits (`UnackedGapBlocks`), a
  delivery that was given up does so for good (`GivenUpBlocks`), and where nothing was given up the
  commits of a partition catch up (`CommitsCatchUp`).
* **Why.** While nothing is cancelled, a delivery is given up exactly at a transient rejection, at the third
  failed attempt of its batch or at a refused failure record (`LiveDropsExactly`); failure records are
  those of deliveries rejected for good (`RecordsAreOfRejected`), and those end on record
  (`RejectedForGood`); what is acked was stored or recorded (`AckedWereSecured`).
* **Channels and conservation.** Every step keeps channel discipline and capacity, and each delivery in
  exactly one place, acked at most once.
* **Stopping.** After cancellation the batch and pool modes do a bounded number of steps, can always
  move on until every goroutine has exited, and account for each delivery. The single mode does at most
  nine steps more for each store that succeeds under the cancelled context, so it stops with a storer
  that refuses one, as the SQLite repository's does (`SingleModeBound`, `SingleModeStops`).
* **Store.** Chunked and retried writes equal one-row inserts applied once. The ids in the table depend
  only on which events were written, and the rows do if and only if no two different ones share a new
  id (`RowConfluence`); accounting is conserved, with the exact deviation of `StoreData`. An
  error is terminal exactly for an event that does not marshal or a violated constraint, which decides
  between one attempt and three (`AttemptsByError`).
* **Pages.** With the cursor's id as second bound a walk is exact and stable under inserts, and never has
  more pages than the grown table fills; with the bound as passed it is exact if and only if every page
  break is clean.
* **Cache.** The hashed text is canonical over given characters if and only if domains and event types
  may not both have a bar and neither can write the end of a line (`CanonicalExactly`). No request can
  meet a collision of texts, whatever is in the fields, since the table only grows
  (`SameTextSameStats`): a hit was made from exactly the event rows the request reads.
* **Logs.** A transformed attribute tree is the original one read from left to right, with markers and
  capped strings, and what a capped string keeps is exact.

## Where code and comments differ

The model follows the code.

* `completed` may hold a key below `next` (`internal/kafka/ack.go:38` says otherwise): exactly for the
  offsets that were completed while already below it (`KeysBelowNext`), as by a repeated ack
  (`RepeatedAckStaysBehind`).
* Commits are sent after the lock is released (`internal/kafka/ack.go:99-106`), so the broker may step
  back: with readers that begin at its offsets or above, no run moves one back if and only if the mode is
  the single one (`OnlySingleModeNeverStepsBack`).
* `ListEvents` leaves the second bound of its cursor query at the zero time instead of the event id
  (`internal/sqllite/storer.go:253-256`). `TieLosesRow` shows the row this loses, `ZeroTimeWalk` says when none is lost.
* `StoreData` updates the accounting outside the insert's transaction (`internal/sqllite/storer.go:81-110`);
  `RowCountExact` says when that shows.
* A payload that does not unmarshal or validate is transient (`internal/ingestor/normalized_message.go:305-331`),
  so it is neither dead-lettered nor acked, and its offset blocks later commits (`TransientRejectionBlocks`). A message without
  metrics has a nil payload, and the call of `Normalize` on it panics (`TransformClass`).
* The event id is ambiguous for an accepted type with a `|` in it; `EventIdsIdentifyMessages` says for
  which configurations that cannot happen (`internal/ingestor/transformer.go:72-74`). It does not cover
  the metrics: events of one message differ only in the time of ingestion (`EventsOfOneMessage`), but two
  readings of one device, type and time share an id and differ in the data if their normalised metrics do
  (`ReadingsShareTheirId`). The second of them is ignored by the insert and acked (`SecondReadingIsLost`).
* A message can end up both in the table and in a failure store (`StoredAndRecorded`): exactly where a
  failure record is accepted for an event of the prefix already written (`ExactlyOneEach`), which takes
  a batch of more than ninety, or a single event whose accounting fails for good (`PartialWritesExactly`,
  `OneChunkIsNeverBoth`).
* The table of failed messages keeps no place in the log, and of a record that does not decode no
  message either (`internal/sqllite/storer.go:288-302`).
* The hashed text of the cache is not escaped. Where no domain has a bar, an event type can collide exactly
  if it looks like two statistics of different keys in order (`CollidesExactly`, `UnknownTypesCollide`);
  reads of one growing table never meet that, and with types configured and "unknown" not among them, as
  the program is started, neither do those of different databases (`ConfiguredTableIsClean`).
* The log handler's cap speaks of byte slices as well (`internal/log/handler.go:18-20`); only strings
  are cut (`BytesAreKept`), and the suffix comes on top of the cap. Groups that become empty are left out by `slog`.

## Model

| member | source | states |
|---|---|---|
| Errors.ClassifyMeaning | internal/ingestor/error.go:102-121 | the class is that of the outermost explicit classification in the chain, else terminal exactly if a listed sentinel is in it |
| Errors.ClassifySurvivesWrapping | internal/ingestor/error.go:45-100 | through any number of `ProcessorError` or `%w` layers the class stays, and the outermost explicit layer decides |
| Retry.RetryTransientMeaning | internal/ingestor/ingestor.go:446-476 | at most three attempts, all but the last failed transiently, success and terminal errors end the loop, n failures waited out cost 2^n - 1 seconds |
| Retry.FromMeaning | internal/ingestor/ingestor.go:451-473 | the same for the loop from any attempt on |
| Intake.ProcessDataClass | internal/kafka/poller.go:56-79 | with the processor's checks: a fetched record is terminal exactly if it does not decode or lacks a field, and always carries its delivery; only a failed fetch is transient |
| Intake.DeriveDomains | internal/ingestor/transformer.go:19-36 | the supported domains are exactly those of the configured types |
| Intake.TransformClass | internal/ingestor/transformer.go:39-88 | terminal exactly for unsupported domains and unregistered types; for the others no metrics panic, a payload that does not marshal, unmarshal or validate is transient, the rest gives an event |
| Intake.PayloadErrorIsTransient | internal/ingestor/normalized_message.go:305-331 | each payload error, a ProcessorError around a library's error, has no class and no listed sentinel, and so is transient |
| Intake.DomainsOfTypes | internal/ingestor/const.go:98-119 | which types belong to which domain, and that all unlisted ones count as "unknown" |
| Intake.EventColumns | internal/ingestor/transformer.go:76-87 | which domain, entity type and source each type gives, and which columns are the message's own |
| Intake.SourceFixesData | internal/ingestor/transformer.go:54-70 | equal sources and metrics give equal data, so unlisted types are all normalised alike |
| Intake.BusinessKeyInjective | internal/ingestor/transformer.go:72-74 | for types free of the delimiter, equal keys mean equal device, type and time |
| Intake.EventIdsIdentifyMessages | internal/ingestor/transformer.go:72-74 | event ids identify device, type and time if and only if some type is configured and "unknown" is not |
| Intake.IdFixesColumns | internal/ingestor/transformer.go:72-87 | then two events with one id agree in every column but the time of ingestion and the data, and in the data exactly if their normalised metrics are the same |
| Intake.EventsOfOneMessage | internal/ingestor/transformer.go:58-87 | the events that one message gives are exactly those that differ in the time of ingestion only |
| Intake.ReadingsShareTheirId | internal/ingestor/transformer.go:72-74 | two readings of one device, type and time share their id whatever their metrics, and differ in the data exactly if the normalised metrics do |
| Intake.AcceptedTypeIsValid | internal/ingestor/transformer.go:90-103 | under such a configuration every accepted type is a listed one |
| Committer.WalkMeaning | internal/kafka/ack.go:85-97 | the walk stops at the first offset not completed and takes out exactly those it passed |
| Committer.RecordTracks | internal/kafka/ack.go:80-98 | completing an offset keeps `next` the least offset not done; it moves exactly if that offset was `next` |
| Committer.ReplayTracks | internal/kafka/ack.go:66-98 | after any run, repeats included, `next` is the least offset from the first registered one on that was never completed |
| Committer.KeysBelowNext | internal/kafka/ack.go:38 | a key below `next` is in the map if and only if its offset was completed while already below it |
| Committer.RepeatedAckStaysBehind | internal/kafka/ack.go:83-97 | an offset acked twice leaves one |
| Committer.WatermarkIgnoresOrder | internal/kafka/ack.go:66-98 | the watermark depends only on the set of completed offsets |
| Committer.CommitsFollowWatermark | internal/kafka/ack.go:80-107 | commits chosen under the lock strictly increase, lie from the first registered offset on, and the last is `next` - 1 |
| Committer.GapBlocksCommits | internal/kafka/ack.go:101-105 | an offset never completed holds back every commit at or above it |
| Committer.AnyArrivalOrder | internal/kafka/ack.go:99-107 | in whatever order commits reach the broker, it never stands above the watermark or over an offset not completed, and one arrival reaches the watermark |
| Committer.PartitionProgress.RecordAndWalk | internal/kafka/ack.go:82-98 | the loop over the map of completed messages ends in the state of the specified walk and picks the message below the new watermark, if it moved |
| Committer.OffsetCommitter.Register | internal/kafka/ack.go:66-78 | the first offset of a partition becomes its watermark; a known partition is left alone |
| Committer.OffsetCommitter.Complete | internal/kafka/ack.go:80-107 | changes only its partition, as specified, and yields the commit to send |
| EventStore.InsertAllMeaning | internal/sqllite/storer.go:173-180 | inserting rows keeps the table as it was as a prefix, keeps ids distinct and adds exactly the ids of the input |
| EventStore.FirstWriterWins | internal/sqllite/storer.go:81-98 | the first row offered for a new id is the one the table keeps |
| EventStore.PrefixOverPrefix | internal/sqllite/storer.go:126-137 | writing one prefix of a batch over another equals writing the longer one once |
| EventStore.AttemptsWriteOnce | internal/ingestor/ingestor.go:413-419 | any number of partial attempts leave exactly the longest prefix any of them wrote, written once |
| EventStore.ConstraintIsTerminal | internal/sqllite/error.go:12-38 | an error of the database is terminal if and only if its code is 19, with any extension |
| EventStore.SingleClass | internal/sqllite/storer.go:73-113 | `StoreData` fails for good if and only if the event does not marshal or a constraint is violated |
| EventStore.ChunkClass | internal/sqllite/storer.go:140-196 | a chunk fails for good if and only if it begins and an event does not marshal, or else a constraint is violated |
| EventStore.StopsAtChunkBoundary | internal/sqllite/storer.go:115-137 | a failing batch leaves whole chunks of 90 events behind and nothing else |
| EventStore.HistoryIds | internal/sqllite/storer.go:73-137 | after any history of calls the table has exactly the ids it started with and those written |
| EventStore.Confluence | internal/sqllite/storer.go:73-196 | two histories that write the same events, in any order and grouping, leave the same set of ids |
| EventStore.ReplayKeepsTable | internal/sqllite/storer.go:81-98 | replaying what was already written changes no row |
| EventStore.RowConfluence | internal/sqllite/storer.go:73-196 | all histories that write the same rows leave the same rows if and only if no two different ones share an id new to the table; then the table's rows and the written ones with new ids |
| EventStore.HistoryRows | internal/sqllite/storer.go:81-98 | which rows those are |
| EventStore.AccountingConserved | internal/sqllite/storer.go:198-222 | from a fresh schema, attempted = inserted + duplicates, and the rows are the inserted count plus the unaccounted inserts |
| EventStore.RowCountExact | internal/sqllite/storer.go:73-113 | the row count equals the inserted count if and only if no `StoreData` call inserted its row and then failed to account for it |
| Repository.FailingAttemptWrites | internal/sqllite/storer.go:126-137 | what a failing attempt can leave: whole chunks, or for a single event possibly the event |
| Repository.FailsAsItsChunk | internal/sqllite/storer.go:126-137 | a failing batch returns the error of the chunk it stops at |
| Repository.AttemptsByError | internal/ingestor/ingestor.go:451-473 | a closed connection or transaction and the codes 5, 6 and 10, with any extension, get three attempts, a violated constraint one |
| Repository.UnmarshalledLeavesChunks | internal/sqllite/storer.go:126-156 | without any fault of the database, a batch with an event that does not marshal leaves exactly the chunks in front of that event's and a terminal error |
| Repository.PartialWritesExactly | internal/sqllite/storer.go:119-123 | something can be left exactly by a single event or a batch of more than ninety |
| Repository.Repo.StoreData | internal/sqllite/storer.go:73-113 | result and new tables for every fault, also the insert that stays when the accounting fails |
| Repository.Repo.InsertChunk | internal/sqllite/storer.go:140-196 | a chunk within the bind-variable bound is written and accounted for as a whole or not at all |
| Repository.Repo.StoreBatch | internal/sqllite/storer.go:115-138 | chunk by chunk equals the one-row insert over the written prefix; success means the whole batch |
| Repository.Repo.StoreWithRetry | internal/ingestor/ingestor.go:413-419 | attempts, result and waiting are those of the retry loop, and with no error the table is the batch applied once |
| Repository.Repo.ListEvents | internal/sqllite/storer.go:238-286 | the page for a cursor and a clamped limit, at most 100 rows of the table, none exactly for a cursor that does not decode |
| Repository.TrimPage | internal/sqllite/storer.go:262-285 | the extra row is dropped and tells whether there is more; the cursor names the last row kept |
| Pagination.DescMeaning | internal/sqlc/generated/events.sql.go:203-208 | the listing is the table in strictly descending order of time and id |
| Pagination.AfterBoundIsTail | internal/sqlc/generated/events.sql.go:203-217 | the rows below a bound are a tail of the listing |
| Pagination.PageWithin | internal/sqllite/storer.go:238-270 | at most as many rows as asked for, all of the table, and no page for a malformed cursor only |
| Pagination.PageSize | internal/sqllite/storer.go:602-644 | 20 for none or less, 100 above that, else the number asked for |
| Pagination.ExactWalk | internal/sqllite/storer.go:238-286 | with the cursor's id as second bound a walk returns every row once in order, in max(1, ceil(n / limit)) pages |
| Pagination.ZeroTimeWalk | internal/sqllite/storer.go:253-256 | with the bound as passed the walk is exact if and only if every page break is clean |
| Pagination.DistinctTimesAreClean | internal/sqllite/storer.go:253-256 | distinct ingestion times and ids above the zero-time text make every break clean |
| Pagination.LowUuids | internal/sqllite/storer.go:253-256 | a UUID is below the zero-time text if and only if it begins with 0000 |
| Pagination.TieLosesRow | internal/sqllite/storer.go:253-256 | a tie at a page break loses a row |
| Pagination.LowIdRepeats | internal/sqllite/storer.go:253-256 | an id below the zero-time text makes its page come back for ever |
| Pagination.WalkStableUnderInserts | internal/sqllite/storer.go:238-286 | with rows inserted between the requests, a finished walk has returned every row of the start, strictly descending |
| Pagination.ZeroTimeWalkIsExact | internal/sqllite/storer.go:253-256 | under distinct times and high ids on every snapshot, both bounds give the same walk page by page |
| Pagination.ZeroTimeWalkStable | internal/sqllite/storer.go:238-286 | so the walk as passed is stable under inserts too |
| Pagination.WalkBound | internal/sqllite/storer.go:238-286 | on any growing table a page behind k others means more than k * limit rows, so a walk ends as soon as the table stops outgrowing it |
| Pagination.ZeroTimeWalkBound | internal/sqllite/storer.go:253-256 | and so with the bound as passed, under distinct times and high ids |
| Batchers.ReplayConserves | internal/ingestor/ingestor.go:326-393 | at every point flushed batches and pending items are what was received, in order; each flush has 1..BatchSize items; an exit leaves nothing |
| Batchers.ReceivesAll | internal/ingestor/ingestor.go:332-391 | the loop takes in every item until it exits, and exits only on the closed channel or past a cancellation at the deadline |
| Batchers.Batcher.Run | internal/ingestor/ingestor.go:318-356 | the loop over one reused array hands the store exactly the specified batches |
| Batchers.Batcher.Save | internal/ingestor/ingestor.go:326-356 | the loop before cancellation agrees with the specified trace on every script of signals |
| Batchers.Batcher.Drain | internal/ingestor/ingestor.go:358-393 | and so does the drain loop |
| Batchers.GatherIsNext | internal/ingestor/ingestor.go:332-391 | the batcher of the step system makes the same moves |
| Ingestion.FallbackFailureStorer.StoreFailure | internal/ingestor/fallback_failure_storer.go:29-39 | a record ends up in exactly one store, the second only if the first failed, and in none if both did |
| Ingestion.AckAllTracks | internal/ingestor/ingestor.go:434-436 | acking a batch in any order leaves each partition at its least unacked offset, with commits up to just below it |
| Ingestion.CompletionIsAckOne | internal/kafka/ack.go:80-107 | the locked part of an ack in the step system and in the sequential calls is the same |
| Ingestion.Ingestor.Ack | internal/ingestor/ingestor.go:510-527 | one delivery is completed and its commit asked for; exactly a failed commit in a live context leaves a note |
| Ingestion.Ingestor.FailTerminalAndAck | internal/ingestor/ingestor.go:478-508 | an ack exactly if some store accepted the record, which holds stage, error and the message if the log's record decoded; no other record is written but the note of a failed commit |
| Ingestion.Ingestor.SettleBatch | internal/ingestor/ingestor.go:421-438 | the store's error comes back as it is unless the context is done; behind none all are acked, behind a terminal one exactly the recorded deliveries with their messages in the records, else nothing is touched |
| Ingestion.Ingestor.StoreBatchWithDeliveries | internal/ingestor/ingestor.go:403-439 | the error is that of the retry loop unless the context is done; no error: the batch once in the table and all acked; terminal: exactly the recorded deliveries acked; otherwise nothing acked |
| Ingestion.StoredExactly | internal/ingestor/ingestor.go:413-432 | a new event is in the table afterwards exactly if it is in the written prefix |
| Ingestion.ExactlyOneEach | internal/ingestor/ingestor.go:426-430 | behind a terminal failure each delivery is in exactly one of table and failure stores if and only if exactly the unwritten ones were recorded |
| Ingestion.OneChunkIsNeverBoth | internal/ingestor/ingestor.go:413-430 | a failed batch of two to ninety events is never in the table |
| PipelineProtocol.StepKeepsProtocol | internal/ingestor/ingestor.go:154-316 | every step keeps goroutines where their code can be and channels within capacity, closed once, the event channel only behind all workers |
| PipelineProtocol.ChannelDiscipline | internal/ingestor/ingestor.go:154-316 | nobody sends on a closed channel, none is closed twice |
| PipelineProtocol.StepKeepsConserved | internal/ingestor/ingestor.go:154-438 | every step keeps each fetched delivery in exactly one place |
| PipelineProtocol.AckedOnce | internal/ingestor/ingestor.go:510-527 | no delivery is acked twice, and an acked one is nowhere else |
| PipelineProtocol.StepKeepsDecoding | internal/kafka/poller.go:64-79 | every step keeps: what goes on to the store is a record that decoded |
| PipelineSafety.StepKeepsSafe | internal/ingestor/ingestor.go:403-527 | every step keeps: what is completed is durable and acked, chosen commits lie below the watermark, the broker holds a chosen commit or where it started |
| PipelineSafety.EveryRun | internal/ingestor/ingestor.go:74-189 | the whole invariant holds after every run of every mode |
| PipelineSafety.AtLeastOnce | internal/ingestor/ingestor.go:403-527 | for every offset from the first registered one up to a chosen or delivered commit, the event id is in the events table or the message in a failure record if and only if its record decoded, and a record without a message otherwise |
| PipelineSafety.UnackedGapBlocks | internal/kafka/ack.go:15-24 | while an offset is not acked, no commit at or above it is chosen and the broker does not move beyond it |
| PipelineSafety.SettlingNeverStuck | internal/kafka/ack.go:80-83 | no ack or failure record looks up a delivery or a partition that is not there |
| PipelineSafety.GivenUpBlocks | internal/ingestor/ingestor.go:421-438 | a delivery given up holds back every commit at or above it in every continuation that does not fetch its message again |
| PipelineSafety.CommitsCatchUp | internal/kafka/ack.go:80-107 | if nothing of a partition was given up or is under way, its watermark stands behind the last fetched offset and its commit has been chosen |
| PipelineSafety.SessionLossless | internal/kafka/ack.go:49-64 | one life of the process, ended anywhere, loses nothing below the committed offsets |
| PipelineSafety.LosslessOverRestarts | internal/kafka/ack.go:11-24 | nor does any sequence of them, with any configurations and commits arriving late; kept by event id or in a failure record are exactly the messages whose record decoded |
| PipelineHistory.RecordsAreOfRejected | internal/ingestor/ingestor.go:478-508 | a new failure record is of a message that the poll, the transformer or a live store rejected for good at some step of the run |
| PipelineHistory.AckedWereSecured | internal/ingestor/ingestor.go:434-436 | an acked delivery was stored without an error or its failure record accepted at some step of the run |
| PipelineHistory.LiveDropsExactly | internal/ingestor/ingestor.go:191-226 | while nothing is cancelled a delivery is given up if and only if the transformer rejected it for now, its batch failed a third time, or its failure record was refused |
| PipelineHistory.GivenUpForGood | internal/ingestor/ingestor.go:282-299 | and stays given up in every continuation |
| PipelineHistory.TransientRejectionBlocks | internal/ingestor/ingestor.go:216-226 | a message the transformer rejected for now holds back every commit at or above it until it is fetched again |
| PipelineHistory.RejectedWhileStopping | internal/ingestor/ingestor.go:104-114 | behind a cancellation a rejected delivery is left unacked, whatever the class |
| PipelineHistory.RejectedForGood | internal/ingestor/ingestor.go:478-508 | a delivery rejected for good in a live pipeline is recorded and acked or on its way there, and given up only if its record is refused |
| PipelineHistory.StoreLeavesPrefix | internal/ingestor/ingestor.go:413-438 | a store call, failing or not, leaves exactly the ids of the prefix it wrote new in the table |
| PipelineHistory.StoreCallRetries | internal/ingestor/ingestor.go:440-476 | the store steps of one call are exactly those of the retry loop: transient failures in front, three attempts at most, left in a wait only behind a failed attempt |
| PipelineHistory.TerminalWhileStopping | internal/ingestor/ingestor.go:363-438 | behind a cancellation a batch failing for good is still recorded in the drain, as long as its own deadline has not passed, and given up anywhere else |
| PipelineHistory.ReplyMeaning | internal/ingestor/ingestor.go:510-527 | a commit that reached the broker moves it, also if it came back as failed; a note follows exactly a failure in a live context |
| PipelineHistory.ClosedStaysEmpty | internal/ingestor/ingestor.go:332-391 | nothing is sent behind the close, so whoever leaves on a closed channel leaves nothing unread, over every run |
| PipelineHistory.FirstInFirstOut | internal/ingestor/ingestor.go:191-316 | over every run each channel hands on what was sent to it in the order of the sends, with the rest still in it |
| PipelineProtocol.ConfiguredModes | internal/ingestor/ingestor.go:52-84 | which mode runs and what its channels hold, told from the configured numbers |
| PipelineShutdown.StoppingStep | internal/ingestor/ingestor.go:154-393 | after cancellation every step of the batch and pool modes uses up the measure, or is a tick with an empty buffer |
| PipelineShutdown.ShutdownIsBounded | internal/ingestor/ingestor.go:154-393 | so no interleaving does more work than the measure |
| PipelineShutdown.NobodyBlocks | internal/ingestor/ingestor.go:237-393 | every live goroutine can go on by itself, except the closer before the workers have exited |
| PipelineShutdown.NoDeadlock | internal/ingestor/ingestor.go:154-393 | as long as a goroutine is live, some step makes progress |
| PipelineShutdown.StoppedMeansExited | internal/ingestor/ingestor.go:154-189 | a run that can do nothing more has ended every goroutine, closed each channel once, and every delivery is acked, given up or left in a channel |
| PipelineShutdown.StopIsReachable | internal/ingestor/ingestor.go:154-189 | from every stopping state all goroutines can be brought to exit within the measure |
| PipelineShutdown.SingleModeBound | internal/ingestor/ingestor.go:86-135 | a cancelled single mode does at most its weight of steps, and nine more for each store that succeeds |
| PipelineShutdown.SingleModeStops | internal/ingestor/ingestor.go:117-131 | with a storer that refuses a done context it stops within a bound and can always go on to its exit |
| PipelineShutdown.SingleModeGoesOn | internal/ingestor/ingestor.go:86-135 | nothing else bounds it: for any n some run stores n messages under the cancelled context, if the storer lets it |
| PipelineExamples.OnlySingleModeNeverStepsBack | internal/kafka/ack.go:99-107 | with readers that begin at the broker's offsets or above, no run of a configuration moves one back if and only if it is of the single mode |
| PipelineExamples.SingleModeNeverStepsBack | internal/kafka/ack.go:99-107 | in the single mode, with such a reader, no step moves the broker back |
| PipelineExamples.ReadingsKeptExactly | internal/sqllite/storer.go:81-98 | in every mode, every message covered by a commit has its own data in a store if and only if no two different readings of the log share an id |
| PipelineExamples.SecondReadingIsLost | internal/sqllite/storer.go:81-98 | a reading whose id another one has is acked though its data is in no store |
| PipelineExamples.ReadingsOverRestarts | internal/kafka/ack.go:11-24 | where no two share an id, the data of every such message is in a store over any number of restarts |
| PipelineExamples.OtherModesStepBack | internal/kafka/ack.go:99-107 | in the batch and the pool mode, with any number of workers and batch size, some run moves it back with every commit succeeding |
| PipelineExamples.StoredAndRecorded | internal/ingestor/ingestor.go:426-430 | some run of a batch of two chunks whose second fails for good leaves a message both in the table and in a failure store |
| CacheKeys.SortedMeaning | internal/intelligence/summary/cache_key.go:76-83 | the sort permutes and orders by domain and event type |
| CacheKeys.SortStable | internal/intelligence/summary/cache_key.go:76-83 | in place, on the copied array |
| CacheTexts.SerialisedInjective | internal/intelligence/summary/cache_key.go:64-98 | the text determines the parameters and the statistics up to order, if no domain has a bar and no event type holds the end of a line, or the other way round |
| CacheTexts.Canonical | internal/intelligence/summary/cache_key.go:53-98 | then, with distinct keys, two inputs give the same text if and only if they are permutations with equal parameters |
| CacheTexts.CanonicalExactly | internal/intelligence/summary/cache_key.go:53-98 | over all fields made of given characters this holds if and only if not both may have a bar and neither can write a bar, a digit and a newline |
| CacheTexts.CollidesExactly | internal/intelligence/summary/cache_key.go:85-95 | where no domain has a bar, an event type collides with statistics of distinct keys if and only if it looks like two of different keys in order |
| CacheTexts.LineEndInTypeCollides | internal/intelligence/summary/cache_key.go:85-95 | any two statistics in order have the text of a single one with such a type |
| CacheTexts.BarsCollide | internal/intelligence/summary/cache_key.go:86-88 | with bars in both fields the boundary between them is lost |
| CacheTexts.UnknownTypesCollide | internal/ingestor/transformer.go:76-79 | types that are not listed get the domain "unknown", and can collide there |
| CacheTexts.GrownTextTells | internal/intelligence/summary/cache_key.go:85-98 | statistics whose keys only became more have the same text only if they are the same, whatever is in the fields |
| CacheKeys.ComputeInputHash | internal/intelligence/summary/cache_key.go:64-98 | the loop writes the specified text and leaves the given statistics alone |
| SummaryCaches.GroupMeaning | internal/sqlc/generated/events.sql.go:292-301 | a statistic for exactly the keys that occur, with their count, least and greatest time |
| SummaryCaches.FilteredGroups | internal/intelligence/summary/service.go:69-74 | whatever order the database used, the service ends up with the groups of its window and domain |
| SummaryCaches.SinceMeaning | internal/sqlc/generated/events.sql.go:298 | the window has the rows from its start on, each as often as the table |
| SummaryCaches.OfDomainMeaning | internal/intelligence/summary/service.go:69-74 | and of them those of the domain asked for, or all |
| SummaryCaches.FilterDomain | internal/intelligence/summary/service.go:69-74 | the loop keeps the statistics of the requested domain |
| SummaryCaches.SameGroupsSameRows | internal/sqlc/generated/events.sql.go:292-301 | as the table grows, equal statistics mean equal rows in the window |
| SummaryCaches.SameTextSameStats | internal/intelligence/summary/cache_key.go:64-98 | two reads of one growing table with the same text have read the same statistics |
| SummaryCaches.MatchMeaning | internal/sqllite/storer.go:393-456 | a saved summary matches a request if and only if request, names, parameters and the event rows read are the same |
| SummaryCaches.HitIsCurrent | internal/intelligence/summary/service.go:76-101 | over any history a hit has the requested and configured values and was made from exactly the statistics and the event rows the request has read |
| SummaryCaches.HitIsAnswer | internal/intelligence/summary/service.go:98-155 | text and time of a hit are those of the save of its flight, which read what the request has read |
| SummaryCaches.ConfiguredTableIsClean | cmd/main.go:73-74 | rows the transformer gives, and their statistics, are clean when types are configured and "unknown" is not among them |
| SummaryCaches.DomainsHaveNoBar | internal/ingestor/transformer.go:76-79 | no domain it writes has a bar, whatever the configuration |
| SummaryCaches.RepeatHits | internal/intelligence/summary/service.go:76-173 | a repeated request matches if and only if its window is unchanged and the saved model and provider are the configured ones, and then it cannot miss |
| SummaryCaches.SummaryService.LatestSummary | internal/sqllite/storer.go:393-432 | a matching summary none is newer than, or none if none matches |
| SummaryCaches.SummaryService.SaveLinks | internal/intelligence/summary/service.go:157-170 | one link per piece of evidence beside those already there, all or none |
| SummaryCaches.SummaryService.Summarize | internal/intelligence/summary/service.go:63-173 | a hit changes nothing; a miss answers with each column of the report - the trimmed text of the completion, or the text that there are no events - and saves it and its links as far as the stores work |
| Text.TrimSpaceMeaning | internal/intelligence/summary/service.go:139 | trimming takes off white space only, and all of it at both ends |
| Utf8.CutIsClean | internal/log/handler.go:100-104 | cutting valid UTF-8 splits no character and loses at most three bytes more than needed |
| Utf8.CutIsLongest | internal/log/handler.go:100-104 | no longer prefix within the limit is valid |
| LogHandler.ResolveMeaning | internal/log/handler.go:74-76 | a value is found behind at most 99 valuers, any more and panics are shown as errors |
| LogHandler.TransformedTokens | internal/log/handler.go:74-111 | read from left to right, the transformed tree is the original with a marker for each outermost listed attribute and capped strings: order, nesting and number are kept |
| LogHandler.TransformedShows | internal/log/handler.go:74-111 | under each path of keys it shows exactly the marker at the first listed key and the capped originals elsewhere, at any depth |
| LogHandler.ListedNeverShown | internal/log/handler.go:78-81 | nothing but the marker is shown at or below a listed key |
| LogHandler.BytesAreKept | internal/log/handler.go:95-110 | outside listed keys a byte slice is shown as it is, however long |
| LogHandler.CapMeaning | internal/log/handler.go:95-108 | a long string keeps its longest valid prefix within the cap, the suffix on top, and stays valid |
| LogHandler.FindCut | internal/log/handler.go:100-104 | the loop stops where specified |
| LogHandler.TransformAttr | internal/log/handler.go:74-111 | the recursive rewrite with its filled slices gives the specified tree |
| LogHandler.Handle | internal/log/handler.go:48-59 | the record shows its attributes from left to right, redacted and capped at every depth, and no listed one but by the marker |
| LogHandler.WithAttrs | internal/log/handler.go:61-68 | and so does a derived handler, attribute by attribute |

## Left out

- Goroutine bodies of the pool: modelled as steps of program counters, not as imperative loops; the
  batcher loop, the retry loop, the acks and the dead-letter path are also there as methods.
- Fairness: the stopping theorems bound the work and exclude deadlock; that a runnable goroutine is
  eventually scheduled, and that each external call returns, is taken for granted.
- Whether a store succeeds under a cancelled context: the steps leave it open, for any storer.
- Durable: a note that an ack failed is not counted as a record of the message, since it carries none.
- PipelineSafety.CommitsCatchUp: assumes offsets without holes, as a log with compaction or transactions may have them; the safety results do not.
- Ownership changes of partitions between consumers; a redelivered offset is just another fetch.
- SQLite itself: a failed transaction is taken to leave nothing, statements are functions on tables, rows are never deleted (no caller of the generated delete).
- Decoding of stored rows into events, and the error it may cause in a page.
- Times, the temperature and their formats: integers with decimal texts, which stand for injective texts free of delimiters; the order of times is that of the integers.
- The name-based UUID, SHA-256 and the cursor encoding: identified with what they are made from, so free of collisions.
- Integer widths: offsets, counts and limits are unbounded.
- Headers, labels other than partition and offset, and the id and time of failure records.
- JSON decoding, payload normalisation and validation: a free function of the data type and the metrics, to a text or an error.
- What happens to the process behind a panic: a run may end anywhere, and the next session starts anew.
- Evidence selection, prompt text, completion routing and cache metrics: the completion's answer is free.
- A log valuer that never ends: every valuer answers after finitely many steps or panics, and more than 100 answers end as the error value.
- Logging and metrics decorators, HTTP API, authentication, configuration, health checks and deployment: easy claims or foreign code.
