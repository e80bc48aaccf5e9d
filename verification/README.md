# Verified model of the TikBlog unsubscribe platform

The platform takes unsubscribe requests from three sources (the UI, customer success, and Legal CSV files), sends
them through Kafka, and uses them twice: a consumer applies each event to the subscription database, and an analytics
pipeline copies it from Bronze to Silver to Gold. Everything is at-least-once. This project models those stages in
Dafny and proves what repetition, crashes and interleaving can do to them: where they are harmless, under which
conditions, and where they are not.

- **Analytics.** Micro-batches are appended to Bronze under a version guard, checked, split into quarantined and valid
  rows, deduplicated and merged into Silver by an insert-only MERGE. Gold is refreshed incrementally by replacing whole
  dates. Batches crash and are replayed, several writers run at once, and Gold is refreshed while Silver grows.
- **Delivery.** Consumers poll, call the service with bounded retries, park what cannot be delivered in the dead-letter
  queue, and commit. Processes crash, partitions move, committed offsets may regress, and a call may take effect and
  still report an error. The database keeps the earliest request of each (reader, writer) pair.
- **Legal files.** Rows of a CSV file become events or rejects; the file is finished only if Kafka confirmed every
  event, by a copy followed by a delete. The job may die between any two steps.

Code that changes state step by step is a class or a method proved against a specification function
(`Warehouse.Tables`, `BronzeStream.BronzeTable`, `Subscriptions.Repository`, `Consumer.Worker`,
`Producer.UnsubscribeProducer`, `LandingZone.Zones`, `LegalIngestion.Run` and others). What spans processes is a state
machine whose runs are arbitrary lists of steps (`OptimisticMerge`, `GoldProtocol`, `BronzeStream`, `LegalSensor`,
`ConsumerGroup`, `LegalProtocol`, and the histories of `Replay`). Lemmas tie the two together: a call of the Bronze
closure, a delivery with its retries, a turn and the whole loop of a consumer, a batch that merges, an attempt at a
Legal file and the writes that finish it are runs of these machines (`BronzeStream.ProcessIsAStep`,
`ConsumerGroup.DeliverIsARun`, `Turns.TurnIsARun`, `Turns.LoopIsARun`, `GoldProtocol.BatchMergeIsAStep`,
`LegalTopic.FullAttemptRun`, `LegalStore.FinishingIsARun`). Choices that libraries leave open (the order in which
groups are collected, the row `dropDuplicates` keeps, which delivery reports arrive when, clock readings) are left open
in the model.

## Assumptions about the environment

- Delta: a commit fails if another commit landed after its snapshot, a conflict means that nothing was written, and an
  append whose `txnVersion` is not newer than the last one of its `txnAppId` is skipped.
- Timestamps taken in successive critical sections of `silver_gold_lock` strictly increase.
  `GoldProtocol.EqualTimestampsHideARow` shows what goes wrong otherwise; `GoldProtocol.WhatARefreshHeals` and
  `GoldProtocol.LookBackHealsLateRows` say without this assumption what a refresh repairs.
- The clock does not run backwards between the attempts of one batch, for the only-if half of
  `Verdicts.OneVerdictIsWhatItTakes`. Nothing else is assumed about the clocks of attempts: which changes of the verdict
  about `requested_at <= now` replay tolerates is the subject of that theorem.
- Kafka: with `acks=all` and idempotence an event reported as delivered is in the topic, and no event is there twice. A
  failed report says nothing: the event may have been refused, or be stored later, even after the process has ended.
- Spark: an `availableNow` query ends without an error only after it has processed all that was available when it
  started; a schema id of 2^31 or more casts to null.
- UnsubscribeMe answers 2xx only after the upsert is committed, and a row locked by the upsert is not deleted before the
  select that follows it.
- One Legal job runs at a time, and the content of a file name never changes.

## Where code and documentation differ

The model follows the code.

- The service also answers `updated` (docs/operational-design.md:106 lists `created` and `unchanged`), and
  `unsubscribed_at` is the earliest request applied, not the first one (docs/operational-design.md:99).
- Three attempts make two pauses, 0.5 s and 1 s, not three (docs/operational-design.md:177).
- An unreadable Legal file is not set aside (docs/operational-design.md:145): it raises, ends the job and stays in the
  inbox.

## What turned out not to hold

Each of these is a property the documentation or the code's comments suggest. The lemmas named give an input for which
it fails, and the exact condition under which it holds.

- *What is committed is stored.* `park` looks neither at what `flush` returns nor at the failure counter, so an offset
  can be committed while its letter is left waiting, or after the broker has refused it
  (`ConsumerGroup.UnconfirmedLettersAreCommitted` reaches both). If every such flush returns zero and counts no failure,
  everything committed is durable over all runs (`ConsumerGroup.CommittedIsDurable`). For one last turn after such a
  run, in which a process parks a message, commits it and ends, this is exact: everything committed stays durable if and
  only if that flush is clean too or the message was durable anyway (`ConsumerGroup.CleanFlushIsWhatItTakes`; for the
  producer itself `Delivery.DeadLetters.Park`). A process that lives on may still have a waiting letter confirmed by a
  later flush.
- *A single unprocessable event cannot stall the queue.* A turn commits the message it reads if and only if nothing in
  it raises: with a dead-letter producer and a broker that take what they are given, exactly if the record has a value
  and, if it decodes, the deciding answer is not a 2xx with an unreadable body (`Turns.ATurnCommitsUnlessItRaises`, for
  whatever the service answers). Both exceptions stall the queue: a record without a value is never committed, over all
  runs and by any process, as long as it is retained (`Turns.TombstonesAreNeverCommitted`), and neither is an event all
  of whose answers are unreadable (`Turns.UnreadableAnswersAreNeverCommitted`). Both are reached
  (`Turns.ATombstoneHoldsUpAQueue`, `Turns.AnEventHoldsUpAQueue`). The record without a value is the only kind that no
  behaviour of the service gets past (`Turns.OnlyTombstonesHoldUpTheQueue`).
- *An accepted request leaves the reader unsubscribed.* The schema allows a row that is SUBSCRIBED and has a time; the
  upsert answers `unchanged` and leaves it SUBSCRIBED exactly if that time is no later than every request
  (`Subscriptions.UnsubscribedUnlessShielded`). For any requests to come there is such a row
  (`Subscriptions.EveryHistoryHasAShield`).
- *A row of a Legal file is one event.* Every attempt at a file sends its rows under new event ids, which Silver cannot
  merge. In the topic each row of a processed file is one event if and only if no other attempt's event for it was
  stored (`LegalTopic.RowsAreStoredOnceIffNoOtherAttemptStored`). What can be checked when the file is opened: every way
  in which this attempt may finish it leaves each row there once if and only if the topic holds no event of the file and
  none can still get there (`LegalTopic.CleanStartIsWhatItTakes`). For every readable file with a usable row both fates
  of a failed attempt are reached (`LegalTopic.BothFatesArePossible`): its events stored, and each row in the topic more
  than once; or refused, and each row there once, although rows were handed to the client again. The code's own comment
  calls this out of its scope (services/legal-ingestion/legal_ingestion/main.py:80-82).
- *The DQ key (run, source, check) identifies a result.* It does if and only if the batch does not hold both an empty
  source and a null or `UNKNOWN` one (`DqKeys.DqKeysIdentifyResults`, `DqKeys.DqKeysCanCollide`).
- *The reports tell how many rows were inserted.* They do if and only if no event id occurs under two sources
  (`BatchReports.DuplicateChecksChainUp`, `BatchReports.IdsCanSpanSources`).
- *Replaying a batch changes nothing.* The check `requested_at <= now` reads the clock of each attempt, so a replay can
  merge a row that an earlier attempt quarantined (`Replay.VerdictChangeIsVisible`, `Verdicts.AReplayCanDisagree`). The
  tables are those of one uninterrupted attempt if and only if no attempt adds a row, a source or an id to what the
  first one wrote to the same table, and the first writers of the three tables agree
  (`Verdicts.OneVerdictIsWhatItTakes`).
- *Incremental Gold is up to date.* With equal or receding timestamps a row can be hidden
  (`GoldProtocol.EqualTimestampsHideARow`). A refresh heals its group if and only if some row of its date was processed
  within the interval and its look-back or is newer than its Gold row (`GoldProtocol.WhatARefreshHeals`).

## Model

| member | source | states |
|---|---|---|
| DeltaTables.InsertOnceKeys | analytics/common/delta.py:45-53 | The insert-only MERGE leaves exactly the keys of target and source in the table. |
| DeltaTables.InsertOnceUnique | analytics/common/delta.py:45-53 | If target and source are each unique by the key, so is the merged table. |
| DeltaTables.InsertOnceNoOp | analytics/common/delta.py:45-59 | Merging rows whose keys are all present changes nothing, row for row. |
| DeltaTables.InsertOnceDoesNotDeduplicateItsSource | analytics/common/delta.py:51 | The MERGE alone does not make a table unique: a key repeated in the source is inserted repeatedly. |
| OptimisticMerge.Retry | analytics/common/delta.py:10-29 | `retry` returns the value of its last call or raises its error, after at most `merge_attempts` calls; it calls again exactly while attempts are left and the error mentions one of the seven conflicts anywhere in its message; it falls through without a call exactly if the attempt count is below one. |
| OptimisticMerge.ConflictsAreMentioned | analytics/common/delta.py:15-26 | An error counts as a conflict exactly if its message is any text, one of the seven names, and any text. |
| OptimisticMerge.PausesDouble | analytics/common/delta.py:29 | Random parts aside, the first pause of `retry` is the backoff of the settings and each later one twice the one before. |
| OptimisticMerge.ConcurrentMergesAreSerial | analytics/common/delta.py:45-53 | Any interleaving of concurrent merges, retries and faults leaves the table the callers would have produced by taking turns in commit order. |
| OptimisticMerge.ConcurrentMergesStayUnique | analytics/common/delta.py:77-80 | Silver never holds two rows with one key, for any number of concurrent writers that deduplicate their own rows. |
| OptimisticMerge.RowsAreNeverChanged | analytics/common/delta.py:77-80 | Whatever runs next, the present contents of the table remain a prefix of it. |
| OptimisticMerge.CallsCommitOnceOrRaise | analytics/common/delta.py:10-29 | A call that returned committed exactly once; one that raised on a conflict used up all attempts and committed nothing; one that is still trying has committed nothing; no call commits twice. |
| OptimisticMerge.UndisturbedCallsCommit | analytics/common/delta.py:45-59 | A call between whose snapshot and commit no other one lands succeeds at once, and leaves the table as one MERGE into what was there. |
| OptimisticMerge.NextKeepsInv | analytics/common/delta.py:10-53 | Every step of every writer keeps the invariant behind these results and never shrinks the table. |
| Rows.TrimmedAwayIffBlank | analytics/common/dq.py:41-43 | SQL `trim` leaves nothing exactly when every character of a text is a space. |
| Checks.ValidIffWellFormed | analytics/common/dq.py:40-54 | Under three-valued logic a row has no failed check exactly when it is well formed in two-valued terms; no null slips through. |
| Checks.FailedChecksInOrder | analytics/common/dq.py:40-54 | The failed checks of a row, check by check and in order: an id is listed exactly if it is null or only spaces, the source exactly if it is null or none of the three, the time exactly if it is null, or null or in the future, the decoding exactly if there is a decode error. |
| Checks.ValidityOnlyGrows | analytics/common/dq.py:46 | A row once valid stays valid; a row that becomes valid later had failed `requested_at_not_future` and nothing else. |
| Checks.MoreFailuresAreNoBetter | analytics/common/observability.py:53-71 | Among the same rows more failures never give a less severe level, whatever the thresholds, and every result is measured. |
| Checks.LevelsInCounts | analytics/common/observability.py:53-58 | In row counts: RED exactly from the red share of the rows on or when forced, GREEN exactly below both shares; no YELLOW unless the yellow threshold is the lower one. |
| Checks.NoFailuresAreGreen | analytics/common/config.py:40-47 | Zero failures are GREEN exactly when both thresholds of the check are positive. |
| BatchConservation.BatchIsConserved | analytics/common/dq.py:82-144 | Batch size = quarantined + duplicates in the batch + already in Silver (summed over the sources) + inserted. |
| BatchConservation.ChoiceDoesNotMatter | analytics/common/dq.py:101-126 | How many deduplicated rows Silver already holds does not depend on the rows `dropDuplicates` kept, although the join and the merge may see different ones. |
| BatchConservation.GroupsPartitionTheRows | analytics/common/dq.py:57-67 | The group sizes add up to the number of rows, in whatever order the groups are collected. |
| BatchConservation.PerSourceIdCounts | analytics/common/dq.py:102-106 | Distinct ids counted per source are at least the distinct ids of all sources, with equality exactly when no id spans two sources. |
| BatchConservation.ReportedDuplicates | analytics/common/dq.py:102-118 | Duplicates counted per source never exceed those dropped, and equal them exactly when no id spans two sources. |
| BatchConservation.DqCountsAreSane | analytics/common/dq.py:57-138 | Every Silver result has 0 <= failed <= total, also when an id spans several sources. |
| BatchConservation.FailuresAddUp | analytics/common/dq.py:57-81 | Per-source failures of a check add up to the rows of the batch that fail it. |
| BatchConservation.DriftedBatchesAreQuarantined | analytics/common/dq.py:23-39 | A batch with a column of another type, or without a required one, is quarantined whole, puts nothing into Silver and is RED for every source. |
| BatchConservation.DriftedRowsAreKept | analytics/common/dq.py:30-39 | In a drifted batch every mistyped column is null in the quarantine, and the batch can be read back, row by row, from the JSON kept there as the raw value. |
| BatchConservation.QuarantineExplainsItself | analytics/common/dq.py:82-98 | A quarantined row is a row of the batch with its coordinates and well-typed columns, the run and the time of quarantine, keeps its raw value or, in a drifted batch, the whole row as JSON, names a source, and lists exactly the checks that the diagnosed row violates, at least one. |
| BatchConservation.InsertedRowsAreBatchRows | analytics/common/dq.py:141-144 | An inserted Silver row is, column by column, a well-formed row of the batch with a new id and the attempt's timestamp. |
| Warehouse.InsertedRowsKeepTheirDay | analytics/common/avro.py:69-71 | A Silver row merged from a batch is dated with the UTC day of the request of its event. |
| BatchConservation.InsertedAreTheRest | analytics/common/dq.py:119-144 | What the MERGE inserts are the deduplicated rows the left-semi join does not count as already present. |
| BatchReports.RowChecksCoverTheBatch | analytics/common/dq.py:57-81 | In the recorded results every row check is reported over every row of the batch exactly once, and its failures are exactly the rows that violate it. |
| BatchReports.EveryGroupIsReported | analytics/common/dq.py:57-81 | For every source of the batch and every row check there is a recorded result, and every result of a row check is one of these: under the name of the source, with the number of its rows and of those that violate the check. |
| BatchReports.DuplicateResultsOfAGroup | analytics/common/dq.py:99-138 | The duplicate results of one source count its well-formed rows less their distinct ids, and of the distinct ids those of the kept rows that Silver holds. |
| BatchReports.DuplicateChecksChainUp | analytics/common/dq.py:99-138 | In the recorded results the duplicate checks start from the rows not quarantined and chain up; what they leave is at least what is inserted, and equal to it exactly when no id spans two sources. |
| BatchReports.IdsCanSpanSources | analytics/common/dq.py:104 | There is a batch with one event id under two sources, and its reports promise more rows than are inserted. |
| BatchReports.RecordedLevelsFollowTheCounts | analytics/common/dq.py:68-138 | The level of every recorded Silver result follows from its own counts: RED for any schema or decode failure, by its rate otherwise. |
| DqKeys.DqKeysIdentifyResults | analytics/common/tables.py:30 | The DQ key identifies the results of one attempt exactly when the batch does not hold both an empty source and a null or `UNKNOWN` one. |
| DqKeys.DqKeysCanCollide | analytics/common/observability.py:63 | There is a batch with an empty and a null source, and two of its results share a key. |
| Replay.SilverKeys | analytics/common/dq.py:99-101 | A complete attempt offers Silver exactly the ids of the valid rows, whichever representatives were kept. |
| Replay.FirstWriteWins | analytics/common/dq.py:98-144 | For any history of cut attempts and merges of other batches in which no attempt adds a row, a source or an id to what the first one wrote to the same table, each table equals what that first attempt wrote; all later attempts leave it alone. |
| Replay.ReplayIsOneMerge | analytics/common/dq.py:119-144 | Then Silver equals one merge among the other batches' merges, and the recorded results were computed from Silver without any row of this batch, so "already in silver" never counts the batch itself. |
| Replay.CondensedAttempt | analytics/common/dq.py:98-144 | Three attempts that each got one write through, found the same failed checks and merged only rows valid there, can be condensed into one feasible attempt with the same three writes. |
| Replay.ReplayEqualsOneAttempt | analytics/jobs/streams.py:117-118 | Any number of attempts, each cut after any write, one of them complete, leave Silver, quarantine and DQ results equal to those of one uninterrupted attempt, whenever their verdicts do not contradict each other in the sense shown to be necessary in `Verdicts`. |
| Replay.ReplayEqualsOneAttemptAmongOthers | analytics/common/dq.py:98-144 | The same, under the same condition, with merges of other batches between the attempts: the tables are those of one single attempt that writes quarantine and results at one moment of the history and merges at a later one, the others merging when they did. |
| Replay.SilverStaysUnique | analytics/common/dq.py:99-144 | Over any history of attempts and other merges Silver stays unique by `event_id` and only grows at its end. |
| Replay.StreamsFillSilver | analytics/jobs/streams.py:117-120 | For attempts of any batches of any streams and backfills, in any interleaving, cut anywhere and with any clocks, Silver stays unique, keeps its rows, and holds exactly the ids it had and the valid ids of every attempt whose merge landed. |
| Replay.VerdictChangeIsVisible | analytics/common/dq.py:46 | If, in any history, one attempt quarantines a row and another one merges it, the row ends up in both tables, which no single attempt does. |
| Verdicts.OneVerdictIsWhatItTakes | analytics/common/dq.py:46 | For a batch new to the tables and a clock that does not run backwards, attempts cut anywhere, one of them complete, leave the tables of some uninterrupted attempt if and only if no attempt adds a row, a source or an id to what the first one wrote to the same table, and the first writers agree: same failed checks in quarantine and results, and only rows merged that were valid there. |
| Verdicts.SameCountSameVerdict | analytics/common/dq.py:46 | Two clocks that find equally many rows of a batch in the future reach the same failed checks for every row. |
| Verdicts.SameVerdictsAreEnough | analytics/jobs/streams.py:117-118 | In particular replay equals one attempt whenever all attempts reach the same verdict on every row, whatever other batches do in between. |
| Verdicts.AReplayCanDisagree | analytics/common/dq.py:46 | For every well-formed row there is a batch and two feasible attempts at it, the first one with a clock behind the request, that leave tables no single attempt leaves. |
| Gold.FreshnessAgreesWithTouched | analytics/jobs/gold.py:27-33 | The per-row test of `freshness` finds a row exactly in the groups that the maximum test of `touched` selects. |
| Gold.RefreshingEveryDateRebuilds | analytics/jobs/gold.py:63-73 | Refreshing all dates of Silver and Gold gives the aggregate of all of Silver and no other group: every day is counted for every source. |
| Gold.DateIsTheDayOfTheRequest | analytics/common/avro.py:69-71 | A row is dated with the UTC day of its request, whenever it was processed. |
| Gold.RefreshCountsItsDays | analytics/jobs/gold.py:49-73 | After a refresh, for each of its dates and any source, Gold has a row exactly if Silver holds requests of that source made within that day, and it holds the number of them, of their readers and of their writers. |
| Gold.OneMoreRow | analytics/jobs/gold.py:55-59 | Row by row, the aggregate counts one more event, and a reader or writer only if not seen before in the group. |
| Gold.DistinctValuesAreBounded | analytics/jobs/gold.py:57-58 | Distinct readers and writers never outnumber the rows. |
| GoldChecks.ReconciliationFindsEveryDifference | analytics/jobs/gold.py:77-84 | The reconciliation check reports no failure for a source exactly when Gold and Silver agree on its groups and counts on those dates. |
| GoldChecks.BoundsFindEveryExcess | analytics/jobs/gold.py:77-84 | The other three checks report a group exactly if Gold lacks it, or holds more readers or more writers than events in it. |
| GoldChecks.GoldResultsOfASource | analytics/jobs/gold.py:85-100 | A source contributes one result for each of the four checks, in order, over the groups of the source on these dates which Gold or Silver holds, counting those the check reports. |
| GoldChecks.SourcesOfTheJoin | analytics/jobs/gold.py:77-96 | Results are recorded for exactly the sources of which Gold or Silver holds a group on these dates. |
| GoldChecks.RefreshPassesItsChecks | analytics/jobs/gold.py:63-84 | Right after the partition replacement none of the four checks can fail, for any dates and source. |
| GoldChecks.GoldResultsAreGreen | analytics/jobs/gold.py:85-100 | The recorded Gold results have zero failures and are GREEN exactly when the thresholds are positive. |
| GoldProtocol.NextKeepsInv | analytics/jobs/gold.py:17-73 | Merges, refreshes and the unlocked reads of `touched` keep: every Gold row aggregates exactly the Silver rows of its group processed up to its update, and every date a job leaves out is covered for the rows it saw. |
| GoldProtocol.TouchedIsComplete | analytics/jobs/gold.py:20-37 | Every row of the Silver snapshot is either on a returned date or already reflected in the Gold snapshot. |
| GoldProtocol.PendingIffStale | analytics/jobs/gold.py:27-33 | In every reachable state the pending test selects exactly the groups whose Gold row is missing or wrong, and Gold holds no group that Silver lacks. |
| GoldProtocol.TouchedIsRecentOrStale | analytics/jobs/gold.py:17-37 | In every reachable state `touched` returns exactly the dates of rows processed in the interval and its look-back, and of stale groups. |
| GoldProtocol.TouchedIsRecentOrUncounted | analytics/jobs/gold.py:20-37 | With any steps between its two reads `touched` returns exactly the dates of the rows of its Silver snapshot that were processed recently, or that the Gold row of their group does not count. |
| GoldProtocol.CoveredSilverMeansRebuilt | analytics/jobs/gold.py:40-73 | If Gold covers every Silver row it equals a full rebuild. |
| GoldProtocol.IncrementalRefreshRefinesRebuild | analytics/jobs/gold.py:17-73 | After `touched` and the refresh of its result, with any steps between its two reads and before the refresh, every row that was in Silver at the first read is reflected in Gold; without a merge in between Gold equals a full rebuild. |
| GoldProtocol.EqualTimestampsHideARow | analytics/jobs/gold.py:32 | With equal timestamps a row can be missing from Gold while its group is not pending. |
| GoldProtocol.WhatARefreshHeals | analytics/jobs/gold.py:17-37 | On any tables, without assumptions about clocks: a refresh of what `touched` found leaves a group wrong exactly if it was wrong and no row of its date was processed in the interval and its look-back or is newer than its Gold row. |
| GoldProtocol.LookBackHealsLateRows | analytics/jobs/gold.py:18-20 | A row that becomes visible during an interval under a timestamp at most the look-back older is reflected in Gold after the run of that interval, whatever the timestamps of Gold. |
| GoldProtocol.OlderRowsStayHidden | analytics/jobs/gold.py:18-20 | For every look-back there are tables in which an older hidden row stays hidden after the refresh. |
| GoldProtocol.BatchMergeIsAStep | analytics/common/dq.py:11-13 | What a batch does to Silver, cut after any write, is one merge step of this state machine. |
| Warehouse.CollectSources | analytics/common/dq.py:57-67 | The groups of the rows, each once, in an arbitrary order. |
| Warehouse.DropDuplicates | analytics/common/dq.py:101 | One arbitrary row for each event id, from among the rows. |
| Warehouse.Tables.ValidateAndMerge | analytics/common/dq.py:16-144 | The table writes of an attempt cut after any number of them, as the specification of batch processing says. |
| Warehouse.Tables.CheckGroup | analytics/common/dq.py:68-81 | The seven row-check results of one source. |
| Warehouse.Tables.CheckRows | analytics/common/dq.py:68-81 | The row-check results of all sources. |
| Warehouse.Tables.CheckInBatch | analytics/common/dq.py:107-118 | The results for duplicates within the batch. |
| Warehouse.Tables.CheckInSilver | analytics/common/dq.py:119-138 | The results for ids already in Silver, as it was before the merge. |
| Warehouse.Tables.Refresh | analytics/jobs/gold.py:40-112 | Gold becomes the partition replacement of the given dates, which counts the requests of each of these days, and the recorded results are exactly those of the four checks for every source of the joined groups, all without failures. |
| Warehouse.CheckGold | analytics/jobs/gold.py:74-100 | The results are exactly those of the four checks for every source, all without failures. |
| Warehouse.RangeRefresh | analytics/jobs/maintenance.py:64-74 | Refreshing the dates found in a range rebuilds the range, dropping groups absent from Silver, and keeps every row outside it. |
| Warehouse.Tables.ReplayRange | analytics/jobs/maintenance.py:59-63 | One complete attempt over the well-formed rows requested from the first to the last day of the range, both included: afterwards each of their ids is in Silver, no other id is new, and if all were there Silver is unchanged row for row. |
| Warehouse.Tables.ReplayBoth | analytics/jobs/maintenance.py:59-63 | The same for both channels, one after the other, each under a run id of its own. |
| Warehouse.Tables.Backfill | analytics/jobs/maintenance.py:55-74 | A reversed range raises and changes nothing; otherwise Gold counts every day of the range and is kept outside it; a Gold backfill leaves Silver and quarantine alone; a Silver backfill puts the ids of the well-formed rows requested in the range into Silver, no others, and changes nothing if they are there. |
| Warehouse.Tables.BackfillTwice | analytics/jobs/maintenance.py:55-74 | Repeating a Silver backfill with the same verdicts leaves Silver unchanged row for row and yields the same Gold aggregates. |
| Warehouse.MergedIds | analytics/common/dq.py:99-144 | A complete attempt leaves every valid id in Silver, and Silver unchanged if they all were there. |
| Warehouse.SameRangeSameAggregates | analytics/jobs/maintenance.py:64-74 | Two rebuilds of a range from the same Silver agree on all aggregates. |
| Warehouse.Tables.EnforceBronzeRetention | analytics/jobs/maintenance.py:17-28 | From each Bronze table exactly the rows that arrived before its own cutoff disappear, order kept, and no Silver range that was complete becomes incomplete. |
| Warehouse.Tables.PendingAge | analytics/jobs/gold.py:119-132 | If a group of the source is pending, the reported age is that of its oldest unresolved row, in whole seconds of both clock readings; otherwise it is zero. |
| Warehouse.PendingGroupsHaveUnresolvedRows | analytics/jobs/gold.py:123-126 | A source has an unresolved row exactly when one of its groups is pending. |
| Decoding.Decode | analytics/common/avro.py:18-71 | Splitting by null-safe schema id and reuniting yields a permutation of the records decoded one by one; None exactly for an empty batch; it raises exactly if some id cannot be resolved. |
| Decoding.FilterOneMore | analytics/common/avro.py:24-28 | The parts of distinct ids are disjoint and together make up the batch. |
| Decoding.MalformedRecordsAreKept | analytics/common/avro.py:45-66 | Every record becomes a row with its coordinates, bytes and time of arrival; its error names frame, schema or payload exactly if that is what is wrong; a payload without an event id keeps its columns, any other problem leaves only nulls. |
| Decoding.FrameRoundTrip | analytics/common/avro.py:19-23 | Framing and parsing round-trip for every 32-bit schema id up to 2^31 - 1; larger ones are treated as an invalid frame. |
| Decoding.SchemaIdIsInTheFrame | analytics/common/avro.py:19-23 | The schema id is the big-endian number after a zero byte; shorter values, another first byte and ids of 2^31 or more are no frame. |
| BronzeStream.EachVersionLandsOnce | analytics/common/delta.py:62-74 | Whatever appends are attempted, repeated or late under one identity, the table gains exactly the frames of versions beyond all those tried before, each once. |
| BronzeStream.BronzeTable.Process | analytics/jobs/streams.py:103-109 | Table and version after one call of the closure, for an empty batch, a failure, a replay and a new batch; it raises exactly if the registry does not know the schema of some record. |
| BronzeStream.NextKeepsInv | analytics/jobs/streams.py:103-120 | New partitions, arrivals, planning, processing, crashes and completion keep the invariant behind the results below. |
| BronzeStream.BronzeHoldsEachOffsetOnce | analytics/jobs/streams.py:103-109 | In every reachable state Bronze holds each consumed (topic, partition, offset) exactly once and nothing else, each row the decoding of its record, also when partitions are added. |
| BronzeStream.ProcessIsAStep | analytics/jobs/streams.py:103-109 | What a call of the closure does to the table is the processing step of this state machine. |
| BronzeStream.ReplayIsANoOp | analytics/common/delta.py:68-69 | Processing the same batch again after a crash, at another time, leaves the whole state as it was. |
| LegalSensor.PendingOffsets | airflow/dags/legal_sensor.py:22-41 | The event is returned exactly if some partition has messages beyond its committed offset, or beyond its low mark if none is committed, and it carries the high marks of all partitions. |
| LegalSensor.AProbeIsPendingOffsets | airflow/dags/legal_sensor.py:22-41 | In the state machine, a probe that nothing comes between, reading the partitions in any order, wakes the sensor exactly when `pending_offsets` returns an event, and with the same ends. |
| LegalSensor.AcknowledgingLeavesTheNewMessages | airflow/dags/legal_sensor.py:65-75 | A run, however long it takes and often its tasks fail, acknowledges what its probe read: afterwards the sensor is due again exactly if some partition has gone beyond that end, or one it did not list has something new. |
| LegalSensor.NextKeepsInv | airflow/dags/analytics_legal_ingestion.py:22-41 | Every read of a probe and every step of the DAG, failed and retried tasks included, keeps acknowledged <= Silver <= Bronze and the soundness of probes and runs. |
| LegalSensor.UnprocessedMessagesWakeTheSensor | airflow/dags/legal_sensor.py:34-39 | In every reachable state, if a retained message has not passed both stages, the offsets show it as pending. |
| LegalSensor.ProbesSeeUnprocessedMessages | airflow/dags/legal_sensor.py:26-39 | A probe, which reads group and partitions one after the other while everything goes on, wakes the sensor with an end beyond every message that was there when it began and is still retained and unprocessed when it has read the last partition. |
| LegalSensor.AcknowledgedIsProcessed | airflow/dags/legal_sensor.py:65-73 | What is acknowledged has been processed by both stages. |
| LegalSensor.AcknowledgingTheEndsIsQuiet | airflow/dags/legal_sensor.py:65-73 | Right after acknowledging the current ends nothing is pending. |
| Delivery.Deliver | services/unsubscribe-consumer/unsubscribe_consumer/main.py:23-89 | At most `max_attempts` calls, all but the last transient; the last answer decides; returning without delivery means exactly one letter with its reason and attempts; the pauses begin with the initial delay and the k-th one after it is min(initial * multiplier^k, max). |
| Delivery.OnlyRefusalsEndEarly | services/unsubscribe-consumer/unsubscribe_consumer/main.py:43-82 | After transient answers only, a 4xx other than 408 and 429 ends the delivery at once as a permanent rejection; no answer, 408, 429 and 5xx end it only with the budget, as exhausted. |
| Delivery.BiggerBudgetsSettleMore | services/unsubscribe-consumer/unsubscribe_consumer/main.py:38-59 | A bigger retry budget never makes fewer calls and changes nothing for a message that a smaller one settles; only a message all of whose answers are transient uses it up. |
| Delivery.NextPause | services/unsubscribe-consumer/unsubscribe_consumer/main.py:89 | The delay recurrence has that closed form, which needs the settings' bounds. |
| Delivery.PausesGrow | services/unsubscribe-consumer/unsubscribe_consumer/main.py:36-89 | The pauses of a delivery are the initial delay and then each time the previous pause times the multiplier, or the cap if that is less. |
| Delivery.TotalPauseIsBounded | services/unsubscribe-consumer/unsubscribe_consumer/config.py:34-37 | The pauses of one delivery sum to at most initial + (max_attempts - 2) * max, and to zero with one attempt. |
| Delivery.DeadLetters.Park | libs/tikblog_kafka/dlq.py:49-72 | The letter joins the queue, the flush reports on any part of it, and the returned rest and the failure counter together show zero and no change exactly if the whole queue, this letter included, is now stored. |
| Delivery.DeadLetters.Flush | libs/tikblog_kafka/dlq.py:72 | The flush moves every letter it reports on into stored or failed, and leaves the others waiting. |
| Reports.CleanFlushMeansAcknowledged | libs/tikblog_kafka/dlq.py:70-78 | No rest and no failure mean that the whole queue was acknowledged, and only then. |
| Delivery.DeadLetters.OnDelivery | libs/tikblog_kafka/dlq.py:74-80 | Each confirmation moves one waiting letter into exactly one counter. |
| Consumer.Worker.constructor | libs/tikblog_kafka/consumer.py:44-54 | A new process has received, resolved and committed nothing. |
| Consumer.Worker.Receive | libs/tikblog_kafka/consumer.py:95-110 | Every message is counted as received, an undecodable one as failed too. |
| Consumer.Worker.Commit | libs/tikblog_kafka/consumer.py:114-122 | A commit follows a resolution of the same offset, and the counter grows only if the broker accepted it. |
| Consumer.Worker.Resolve | services/unsubscribe-consumer/unsubscribe_consumer/main.py:101-122 | A resolution is the acceptance or hand-over of this very offset, as the deciding answer says; a hand-over adds exactly the letter of this message, for undecodable bytes with that reason and no attempts, and anything else adds none; a record without value is never resolved. |
| Consumer.Worker.Handle | services/unsubscribe-consumer/unsubscribe_consumer/main.py:101-129 | One turn of the loop is received, resolved, committed in this order, cut short exactly where something raises, writes the letter of its message exactly if it hands it over, and moves the counters accordingly. |
| Consumer.Worker.Run | services/unsubscribe-consumer/unsubscribe_consumer/main.py:101-129 | Over any polls, the effects and the letters are those of the turns up to the first one that raises; at most the message in hand is received and not committed, and none if the loop ends normally; `Valid` keeps every commit preceded by a resolution. |
| Consumer.LettersSayWhy | services/unsubscribe-consumer/unsubscribe_consumer/main.py:43-112 | A letter names partition and offset of its message; undecodable bytes are parked with that reason and zero attempts; an event as refused at its first answer that is a fault of the request, and as exhausted only after the whole budget, each of its answers a timeout, a throttle, a server error or none. |
| Consumer.OnlyReadableSuccessIsAccepted | services/unsubscribe-consumer/unsubscribe_consumer/main.py:38-82 | A message is accepted exactly if it decodes and its deciding answer is a readable 2xx; it ends the process exactly if it has no value, if that answer is an unreadable 2xx, or if it has to be parked and the producer is full. |
| Consumer.LoopHandsOverItsLetters | services/unsubscribe-consumer/unsubscribe_consumer/main.py:101-129 | The letters of a loop over any polls are, in order, those of the messages it hands over, one each. |
| ConsumerGroup.NextKeepsInv | services/unsubscribe-consumer/unsubscribe_consumer/main.py:101-129 | Polls, calls, parking, late reports, commits, crashes, rebalances, retention and regressing commits keep the invariant behind the results below. |
| ConsumerGroup.ANewProcessResumes | libs/tikblog_kafka/consumer.py:61-73 | A process that is given a partition reads on at the committed offset, or at the oldest message left if retention has come further. |
| ConsumerGroup.DeliverIsARun | services/unsubscribe-consumer/unsubscribe_consumer/main.py:36-89 | The retry loop is a run of this state machine, with the same calls, and ends with the message accepted, about to be parked, or the process ended, as the last answer says. |
| ConsumerGroup.CommittedOffsetsAreResolved | services/unsubscribe-consumer/unsubscribe_consumer/main.py:124-129 | In every reachable state each offset below the committed one was accepted, handed to the dead-letter queue, or had expired before it could be read. |
| ConsumerGroup.AcceptedMeansApplied | libs/tikblog_kafka/consumer.py:102-112 | An accepted record is one that decodes and whose event has been applied. |
| ConsumerGroup.TableIsOnePassOverTheApplied | docs/operational-design.md:94-104 | In every reachable state the database is what one pass over the applied events makes of the initial table, in any order, on status and `unsubscribed_at`, and on the whole row if times are distinct; all applied events are from the topics. |
| ConsumerGroup.AllAppliedIffNoneParked | services/unsubscribe-consumer/unsubscribe_consumer/main.py:43-82 | When everything is committed and nothing expired, the applied events are those of the topics exactly if every parked event was applied all the same. |
| ConsumerGroup.DeliveryConverges | docs/operational-design.md:94-104 | Then the database agrees with one pass over the topics. |
| Turns.TurnIsARun | services/unsubscribe-consumer/unsubscribe_consumer/main.py:101-129 | A turn of the loop is a run of the consumer group: its effects are what happens to accepted and parked messages and to committed offsets, and a turn that does not raise leaves the process at the next offset. |
| Turns.LoopIsARun | services/unsubscribe-consumer/unsubscribe_consumer/main.py:101-129 | So is the whole loop of a process over any polls, up to the turn that raises. |
| Turns.ATurnCommitsUnlessItRaises | README.md:546-549 | Whatever the service answers, a turn commits its message if and only if nothing in it raises: with a dead-letter producer and a broker that take what they are given, exactly if the record has a value and, if it decodes, the deciding answer is not a success with an unreadable body. |
| Turns.TombstonesAreNeverCommitted | libs/tikblog_kafka/consumer.py:97-100 | Over all runs, by any process, a record without a value is never committed while it is retained. |
| Turns.OnlyTombstonesHoldUpTheQueue | README.md:546-549 | From any reachable state in which a process is about to read a record, some behaviour of the environment leads to its commit exactly if the record has a value. |
| Turns.UnreadableAnswersAreNeverCommitted | services/unsubscribe-consumer/unsubscribe_consumer/client.py:61-71 | Over all runs in which every answer about an event is a success with an unreadable body, it is never committed while it is retained, by any process. |
| Turns.ATombstoneHoldsUpAQueue | libs/tikblog_kafka/consumer.py:97-100 | A run after which a record without a value is about to be read, and no continuation commits it. |
| Turns.AnEventHoldsUpAQueue | services/unsubscribe-consumer/unsubscribe_consumer/client.py:61-71 | A run after which an event is about to be read, and no continuation commits it as long as every answer about it is unreadable. |
| ConsumerGroup.CommittedIsDurable | libs/tikblog_kafka/dlq.py:70-72 | Over all runs in which every flush of `park` returns zero and counts no failure, each committed retained offset is applied or acknowledged by the dead-letter topic. |
| ConsumerGroup.CleanFlushIsWhatItTakes | libs/tikblog_kafka/dlq.py:70-78 | After such a run, let a process park one more retained message, commit it and end: everything committed is then durable if and only if that flush was clean too or the message was durable already. |
| ConsumerGroup.UnconfirmedLettersAreCommitted | libs/tikblog_kafka/dlq.py:72-78 | Two runs that commit an offset neither applied nor acknowledged, with no process left to remember it: one leaves the letter waiting, in the other the flush returns zero after a refusal. |
| Subscriptions.Repository.Unsubscribe | services/unsubscribeme/unsubscribeme/db.py:71-111 | New table, outcome and returned row of one call; `unchanged` leaves the table as it is, any other outcome changes the row of this reader and writer only, and stores status, time, source and id of the event and the time of the write; the answer is still SUBSCRIBED exactly if a SUBSCRIBED row had a time no later than the request. |
| Subscriptions.RowsAreIndependent | services/unsubscribeme/unsubscribeme/db.py:22 | A key's row depends only on the deliveries for that key. |
| Subscriptions.RowIsFirstEarliest | services/unsubscribeme/unsubscribeme/db.py:22-29 | After any deliveries to any table a row holds, field by field, the first delivery with the earliest `requested_at`, or is the old row if that has a time no later than it. |
| Subscriptions.OutcomesTellTheMinimum | services/unsubscribeme/unsubscribeme/db.py:88-100 | From any initial row: `created` exactly for the first delivery without a row, `updated` exactly at a new strict minimum or on a row without a time, `unchanged` exactly otherwise, and then the row is untouched. |
| Subscriptions.RedeliveryIsUnchanged | services/unsubscribeme/unsubscribeme/db.py:28-29 | On any table, any redelivery is `unchanged` and leaves the table as it is. |
| Subscriptions.HistoriesConverge | docs/operational-design.md:94-104 | Two histories with the same set of events on the same table agree on status and `unsubscribed_at`, and on source and event id if times are distinct. |
| Subscriptions.UnsubscribedUnlessShielded | services/unsubscribeme/unsubscribeme/db.py:22-29 | After some delivery for a key its row is UNSUBSCRIBED, unless it was SUBSCRIBED with a time no later than every request, and exactly then. |
| Subscriptions.EveryHistoryHasAShield | infra/migrations/001_create_subscription.sql:21-23 | For any requests the schema allows a row under which each of them is answered `unchanged` and the reader stays SUBSCRIBED. |
| Subscriptions.SchemaIsKept | infra/migrations/001_create_subscription.sql:21-23 | No deliveries violate the constraint that an unsubscribe has a time. |
| Subscriptions.TiesGoToTheFirst | services/unsubscribeme/unsubscribeme/db.py:29 | With equal times the row holds the first applied event, its source and its id. |
| Prefixes.AsPrefixIsIdempotent | libs/tikblog_storage/storage.py:14-16 | Normalising twice is normalising once, and a non-empty result ends with a slash. |
| Prefixes.OuterSlashesAreReplaced | libs/tikblog_storage/storage.py:14-16 | A setting becomes its inner part with one slash at the end, whatever slashes are around it; slashes alone become nothing. |
| Prefixes.Configure | services/legal-ingestion/legal_ingestion/config.py:40-57 | The settings are refused exactly if two prefixes coincide or one is empty after normalisation, and accepted as normalised. |
| Prefixes.DefaultsAreAccepted | services/legal-ingestion/legal_ingestion/config.py:18-20 | The default settings are accepted as they are. |
| Prefixes.KeysAreUnambiguous | services/legal-ingestion/legal_ingestion/landing_zone.py:34-50 | A key determines its prefix and its slash-free name. |
| Prefixes.KeySpacesAreSeparate | services/legal-ingestion/legal_ingestion/landing_zone.py:59-72 | Inbox, processed and reject keys never coincide, nested prefixes included, and names are not confused within an area. |
| Prefixes.OnlyInboxFilesAreListed | services/legal-ingestion/legal_ingestion/landing_zone.py:34-46 | No moved file and no reject file is ever listed as a batch; an inbox file is listed exactly if its name ends in `.csv`. |
| Prefixes.BatchesAreCsvFiles | services/legal-ingestion/legal_ingestion/landing_zone.py:34-46 | A key under the inbox is a batch exactly if the rest has no slash and ends in `.csv`, in upper or lower case. |
| LegalParsing.StrippedAwayIffAllSpace | services/legal-ingestion/legal_ingestion/parsing.py:18-24 | `strip` leaves nothing exactly when a cell is all white space. |
| LegalParsing.UsableRowsBecomeEvents | services/legal-ingestion/legal_ingestion/parsing.py:13-43 | A row becomes an event exactly if it has three cells, non-blank ids and an ISO time with a zone. |
| LegalParsing.CellsBecomeTheirTexts | services/legal-ingestion/legal_ingestion/parsing.py:18-43 | Whatever white space is around the three texts of a row, the event holds the two ids and the time of the texts themselves, unchanged. |
| LegalParsing.TheFirstFailureIsReported | services/legal-ingestion/legal_ingestion/parsing.py:15-32 | The reported reason is that of the first test the row fails. |
| LegalParsing.RowsAreSplit | services/legal-ingestion/legal_ingestion/main.py:26-34 | Rejects and messages together are as many as the rows. |
| LegalParsing.EveryRowIsAccountedFor | services/legal-ingestion/legal_ingestion/main.py:26-32 | The i-th row, counted from zero, is sent as its event or rejected with its own error, under line i + 2; the header is line one. |
| LegalParsing.OneMoreRow | services/legal-ingestion/legal_ingestion/main.py:26-32 | One more row adds its reject or its message and nothing else. |
| LegalParsing.LinesAreDistinct | services/legal-ingestion/legal_ingestion/main.py:26 | No two messages of a file are the same. |
| Producer.UnsubscribeProducer.constructor | libs/tikblog_kafka/producer.py:39-44 | A new producer has nothing in flight and zero counters. |
| Producer.UnsubscribeProducer.ReportDelivery | libs/tikblog_kafka/producer.py:159-183 | A report moves one message from in flight to delivered or failed, and moves the matching counter. |
| Producer.UnsubscribeProducer.Poll | libs/tikblog_kafka/producer.py:140-142 | Callbacks conserve the messages sent and only add to delivered and failed. |
| Producer.UnsubscribeProducer.Enqueue | libs/tikblog_kafka/producer.py:96-138 | A message is sent exactly once or counted as queue-full; `Valid` keeps sent = delivered + delivery failures + in flight and failed = delivery failures + queue full. |
| Producer.UnsubscribeProducer.Flush | libs/tikblog_kafka/producer.py:144-150 | The returned number is the number of messages still in flight; nothing sent is lost. |
| LandingZone.FinishingMovesOneFile | services/legal-ingestion/legal_ingestion/landing_zone.py:59-72 | Finishing a file moves its content from the inbox to processed under its name, writes its rejects, if it has any, under the name with `.rejects.csv` added, changes no other object, and takes exactly this name off the list of batches. |
| LandingZone.Zones.ListKeys | libs/tikblog_storage/storage.py:38-47 | All keys with the prefix, each once. |
| LandingZone.Zones.ListBatches | services/legal-ingestion/legal_ingestion/landing_zone.py:34-46 | All CSV files directly inside the inbox, each once. |
| LandingZone.Zones.AlreadyProcessed | services/legal-ingestion/legal_ingestion/landing_zone.py:48-50 | True exactly if the processed prefix with this name is a key, not for a longer key it is a prefix of. |
| LegalStore.WriteRejectsIsAStep | services/legal-ingestion/legal_ingestion/landing_zone.py:59-68 | Writing the reject object touches no inbox and no processed object and no rejects of another file; it is the protocol step of that name. |
| LegalStore.CopyIsAStep | libs/tikblog_storage/storage.py:56-62 | The copy puts the file under processed and changes nothing else that can be listed or looked up; it is the protocol step of that name. |
| LegalStore.DeleteIsAStep | libs/tikblog_storage/storage.py:63 | The delete takes the file, and only it, out of the inbox. |
| LegalStore.FinishingIsARun | services/legal-ingestion/legal_ingestion/main.py:75-78 | The writes that finish a file in one bucket, cut after any of them, are a run of the protocol with its three areas. |
| LegalStore.ListingIsTheInbox | services/legal-ingestion/legal_ingestion/landing_zone.py:34-46 | What is listed is the inbox of the protocol. |
| LegalIngestion.HandleRow | services/legal-ingestion/legal_ingestion/main.py:29-32 | A row is sent or rejected, as its parsing decides. |
| LegalIngestion.ProcessBatch | services/legal-ingestion/legal_ingestion/main.py:14-34 | Rows read, rejects and messages sent are exactly those of the file, unless the file is unreadable or the queue stays full. |
| LegalIngestion.CountsDecide | services/legal-ingestion/legal_ingestion/main.py:61-73 | With nothing in flight before and after, the delivered-count difference equals the expected number exactly when every message of this file was confirmed. |
| LegalIngestion.IngestFile | services/legal-ingestion/legal_ingestion/main.py:61-84 | Done means everything confirmed, nothing in flight and the file finished; an exception means the store is untouched or everything was confirmed before the first write. |
| LegalIngestion.FinishFile | services/legal-ingestion/legal_ingestion/main.py:75-78 | The writes of finishing a file, cut after any of them. |
| LegalIngestion.Run | services/legal-ingestion/legal_ingestion/main.py:37-109 | A run that ends normally has every listed file under the processed prefix and leaves nothing in flight; however it ends, every inbox file is still there as it was or has been moved as it was, and no processed object changed. |
| LegalProtocol.CheckIsExact | services/legal-ingestion/legal_ingestion/main.py:64-73 | At the check, the counts agree exactly when every valid row of this file has been acknowledged in this attempt. |
| LegalProtocol.NextKeepsInv | services/legal-ingestion/legal_ingestion/main.py:56-84 | Every step, crash and restart of the job keeps the invariant behind the results below. |
| LegalProtocol.ProcessedFilesAreComplete | services/legal-ingestion/legal_ingestion/main.py:69-78 | In every reachable state a file under the processed prefix has all its valid rows acknowledged by Kafka and exactly its invalid rows in the reject file. |
| LegalProtocol.ProcessedFilesAreFinal | services/legal-ingestion/legal_ingestion/main.py:57-59 | From then on no event is published for that name, and neither the processed object nor the rejects change, also when a crash left the file in both places. |
| LegalProtocol.ProcessedOnceAndForAll | services/legal-ingestion/legal_ingestion/main.py:56-84 | The two results together, over any history and any further history from the first upload on. |
| LegalProtocol.RowsAreHandedOverOnceIffNoOtherAttemptDid | services/legal-ingestion/legal_ingestion/main.py:79-84 | The attempt that finished a file gave each of its valid rows to the client under ids of its own; each was given once exactly if no other attempt gave any row of the file, and a row another attempt gave was given at least twice. (What reaches the topic is the subject of `LegalTopic`.) |
| LegalProtocol.InterruptedFilesAreHandedOverAgain | services/legal-ingestion/legal_ingestion/parsing.py:34-36 | If a job ended after an event of an unfinished file was given to the client, the file cannot become processed without more hand-overs than it has valid rows. |
| LegalTopic.RowsAreStoredOnceIffNoOtherAttemptStored | services/legal-ingestion/legal_ingestion/main.py:64-84 | Over any history the topic holds each valid row of a processed file, under an id of the attempt that finished it, and no other row; a row is there once if and only if no other attempt's event for it was stored. |
| LegalTopic.StoredRowsOfUnfinishedFilesAreRepeated | services/legal-ingestion/legal_ingestion/main.py:79-84 | If a job ended with an event of an unfinished file in the topic, the topic holds that row at least twice once the file is processed. |
| LegalTopic.CleanStartIsWhatItTakes | services/legal-ingestion/legal_ingestion/main.py:56-62 | When a readable file is about to be opened, every way in which this attempt may finish it leaves each valid row in the topic once, if and only if the topic holds no event of the file and the broker cannot come to store one. |
| LegalTopic.FullAttemptRun | services/legal-ingestion/legal_ingestion/main.py:56-78 | From any sound state a readable file can be finished by the attempt that is about to begin, which adds exactly its valid rows to the topic. |
| LegalTopic.BothFatesArePossible | services/legal-ingestion/legal_ingestion/main.py:79-84 | For every readable file with a usable row there is a run in which a failed attempt was stored and each row ends up in the topic more than once, and one in which it was refused and each row is there once, though rows were handed over again. |
| LegalTopic.NextKeepsStorage | libs/tikblog_kafka/producer.py:53-61 | Every step of job and broker keeps the facts behind these results: no event is stored twice, what was acknowledged is stored, and the attempt that finished a file was the last one. |

## Left out

- Replay.ReplayEqualsOneAttempt: does not speak about `alert_events` or `pipeline_metrics`; alerts are computed from recomputed rows and are not idempotent under replay.
- GoldProtocol.TouchedIsRecentOrStale: does not model that the two tables are read at different moments; `GoldProtocol.TouchedIsRecentOrUncounted` does.
- BatchConservation.DriftedBatchesAreQuarantined: does not model the text of the mismatch reason with the names of the columns, and only columns of the event itself can drift.
- Decoding.MalformedRecordsAreKept: does not model the names of the mismatched fields that follow `schema_type_mismatch:`.
- BatchConservation.DriftedRowsAreKept: does not model JSON text; the raw value is the row itself.
- Checks.MoreFailuresAreNoBetter: does not model that rates are binary floating point; rates and thresholds are real numbers.
- Warehouse.Tables.Backfill: does not model merges by streams between its steps, a run cut short, or drifted Bronze rows; it runs alone. Interleaved and cut attempts are the subject of `Replay.StreamsFillSilver`.
- LegalIngestion.ProcessBatch: does not model the loop as a run of `LegalProtocol`; that attempts are such runs is shown for given fates of their events (`LegalTopic.FullAttemptRun`).
- Turns.LoopIsARun: does not model steps of other processes between those of one loop; arbitrary interleavings are the runs of `ConsumerGroup`.
- Warehouse.Tables.Refresh: does not model a failed overwrite; retries on conflicts are the subject of `OptimisticMerge`.
- Warehouse.Tables.PendingAge: does not model the levels and result rows that `freshness` derives from the age.
- Decoding.Decode: does not model the bytes of Avro payloads or fetching schemas; parser and registry are parameters.
- BronzeStream.BronzeHoldsEachOffsetOnce: does not model the Bronze retention delete, after which an offset may be gone.
- Producer.UnsubscribeProducer.Enqueue: does not model how long `poll` takes; the remaining time is a count that decreases with each wait, so termination by wall clock is not shown.
- LandingZone.Zones.ListKeys: does not model the sorting of listings; the order of files is left open.
- LegalStore.WriteRejectsIsAStep: does not model the CSV quoting of reject files; the object holds the rejects themselves.
- Delivery.DeadLetters.Park: does not model keys, payloads and headers other than the reason, the attempts and the source offset, nor whether an unacknowledged letter was stored all the same.
- Subscriptions.Repository.Unsubscribe: does not model `created_at` or connection errors, which raise before anything is committed.
- Columns that are only passed through (`request_id`, `cs_agent_id`, `legal_batch_id` in Silver, evolved columns) and request ids; the random event id of a Legal event is the number of its attempt and its line.
- One time of recording per attempt stands for the separate clock readings of its DQ results.
- Latency percentiles, executor and progress metrics, `emit_alerts` and log output: approximate or external values.
- `optimize`, `vacuum` and the monitoring retention: they change no table content the model speaks of, or only shorten monitoring tables.
- Spark, Delta, Kafka, Avro, Postgres and S3 themselves beyond the rules listed under the assumptions.
- The HTTP services and clients, Airflow scheduling, the schema registry, session set-up, dashboards, event generators and topic administration: plumbing or easy claims.
