# Verification of the driving-data pipeline server

A Dafny model of the parts of the server whose correctness spans several
functions, several stores or a whole run, with proofs of what they guarantee.
`dafny verify dfyconfig.toml` checks all of it.

- **The outbox protocol** (`OutboxStore`, `OutboxProtocol`, `OutboxRuns`,
  `OutboxAccounting`, `OutboxHandling`, `OutboxDeployments`, `OutboxService`).
  Relays and zombie recoverers run over one collection; the transition system has
  one step per store operation and per dispatch call, for any number of processes, and a
  process may stop anywhere. The two sequential services are methods over a
  mutable store whose writes may fail, and their loops are shown to be runs of
  the transition system.
- **Submission** (`Submission`, `SubmissionHistory`). The chunked ingest and the
  transaction are methods over a database that may fail at every operation. The
  history puts overlapping submits, the whole outbox protocol and the worker's
  task updates next to each other.
- **The refiners** (`Parsing`, `Collecting`, `Refiners`, `RefinerLaws`,
  `RefinedFields`, `RejectedFields`). Each field parser ends in a value, a caught exception (a rejection in the list that
  the parsers of one row share) or an exception that escapes.
- **The pipeline** (`Tables`, `Phase`, `Pipeline`, `PhaseContents`, `Resume`,
  `LateFailure`, `Reporting`, `Interruption`, `Worker`, `Service`, `Integrity`,
  `EndToEnd`). INSERT IGNORE over keyed tables, chunk loops at two levels, the checkpoint in MongoDB and the
  rows in MySQL with their different durability, commit, rollback, retries, and
  crashes of the worker.
- **Search** (`Search`, `SearchPaging`, `SearchMeaning`, `Paging`, `CursorRows`,
  `Assembly`). The built query is a syntax tree with an evaluator; the compiled query, both paging schemes and
  the batched assembly are compared with naive definitions.

Integers are unbounded, temperatures and confidences are reals, timestamps are
integers. Library calls that are not modelled (`int` on unusual texts, `float`
on texts, ISO dates, id generation, clocks, the files' contents) are parameters.
A store operation or dispatch call that may fail is a nondeterministic choice;
ghost counters of the failures say what holds when there are none.

## Where the code and its documents differ

- `docs/architecture.md` and `README.md` promise that a run which fails in the
  middle resumes after its last finished phase. In the code a failure inside a
  phase saves the task as it was before the phases, so the next attempt starts
  from the old checkpoint. This agrees with the MySQL rollback, and the retries
  are proved equivalent to one attempt (`Resume.RetriesEndLikeOneAttempt`).
- A failure after the last phase, a failed commit, or a crash between two phases
  keeps the new checkpoint while the rows are rolled back. The next attempt skips
  the finished stages and never stores their rows. For any sequence of failures
  and crashes, `Interruption.InterruptedRetriesEndExactly` gives the exact
  condition under which this goes unnoticed.
- The refiners are documented to turn every bad field into a rejection. Some
  numbers and ids raise instead; the `...RaisesExactly` lemmas say which.
- The compare-and-set of the outbox is documented to protect against overlapping
  processes. The claim is an unconditional save, and the status alone does not
  tell an old snapshot from a new one. Two relays can reopen a PUBLISHED message
  (`OutboxDeployments.TerminalMessagesStayExactly`), and overlapping relays or
  overlapping recoverers can dispatch a message more than `max_retries` times. `OutboxDeployments.RetryBoundHoldsExactly` says for
  which numbers of processes the bound holds, and
  `OutboxAccounting.DispatchesAreAccounted` bounds the excess in every run by the
  retries that stale writes have lost.
- The odd tag join repeats a selection that has several matching tags, and
  `next_after` skips the repeats that do not fit on a page.
  `CursorRows.EveryWalkGivesTheAnswerExactly` says when every row is shown.

## Model

| member | source | states |
|---|---|---|
| OutboxProtocol.AnyNumberOfProcesses | app/application/outbox_relay_service.py:44-92 | over every interleaved run of any number of relays and recoverers: a PUBLISHED ANALYZE message has been dispatched, FAILED means the retries are used up, and no other message, stored or in flight, has used them up |
| OutboxProtocol.YoungMessagesAreSpared | app/application/outbox_relay_service.py:75-92 | in every run a recoverer changes a message only if it is PROCESSING now and was listed as PROCESSING and older than the cutoff |
| OutboxProtocol.CallsAreExact | app/application/outbox_relay_service.py:48-50 | a step counts a dispatch call exactly for an ANALYZE message with a task id, and a delivery if the call returns |
| OutboxProtocol.WritesAreExact | app/application/outbox_relay_service.py:45-91 | a stored message changes only in a counted write: a claim, or a write while the stored message is PROCESSING |
| OutboxProtocol.ListedAsStored | app/adapter/outbound/mongodb/repositories.py:131-141 | relays list stored PENDING messages, recoverers stored PROCESSING messages with `updated_at` before the cutoff |
| OutboxProtocol.TerminalIsLeftExactlyByStaleClaims | app/application/outbox_relay_service.py:44-46 | PUBLISHED and FAILED are left by a step if and only if it is a relay claiming that message from an old snapshot; otherwise the message stays as it is |
| OutboxProtocol.SafeStep | app/application/outbox_relay_service.py:40-100 | every single step keeps the invariant, loses no message, changes no envelope and forgets no delivery |
| OutboxProtocol.SafeRun | app/application/outbox_relay_service.py:28-100 | the same over whole runs |
| OutboxRuns.OneRelayMovesAlongEdges | app/application/outbox_relay_service.py:44-57 | with one relay and any number of recoverers every step moves a stored status along PENDING, PROCESSING, then PUBLISHED, PENDING or FAILED, and terminal messages never change again |
| OutboxRuns.OneRelayRun | app/application/outbox_relay_service.py:40-57 | with one relay its unhandled snapshots are always exactly what is stored |
| OutboxRuns.OneRelayOneRecovererIsExact | app/application/outbox_relay_service.py:28-100 | with one relay and one recoverer, claims = retries + 1 while PROCESSING or PUBLISHED, dispatch calls are at most claims and those at most max_retries, and writes at most twice max_retries |
| OutboxAccounting.CoveredStep | app/application/outbox_relay_service.py:45-50 | for any number of processes every step keeps: dispatch calls plus relays about to dispatch are at most the claims, message by message |
| OutboxAccounting.BalanceMovesByDrift | app/application/outbox_relay_service.py:45-91 | claims minus what the stored message accounts for moves in each step by exactly what the written snapshot is behind in retries |
| OutboxAccounting.BalanceIsLostExactlyByStaleWrites | app/application/outbox_relay_service.py:45-53 | a step breaks the claims equation of a message if and only if it writes that message from a snapshot whose retry count is out of date |
| OutboxAccounting.DispatchesAreAccounted | app/application/outbox_relay_service.py:28-100 | after every run of any number of processes: claims = retries, plus one while PROCESSING or PUBLISHED, plus what stale writes have lost; dispatch calls are at most max_retries plus that loss |
| OutboxAccounting.BalancedExactlyWithoutStaleWrites | app/application/outbox_relay_service.py:28-100 | the claims equation holds in every state of a run if and only if no step of it is a stale write; then the message is dispatched at most max_retries times |
| OutboxDeployments.RetryBoundHoldsExactly | app/application/outbox_relay_service.py:28-100 | over all runs, messages are dispatched at most max_retries times if and only if there is no relay, or no recoverer and at most max_retries relays, or one relay with one recoverer (or with several when max_retries is 1) |
| OutboxDeployments.SafeDeploymentKeepsTheBound | app/application/outbox_relay_service.py:44-57 | the bound after each run of such a deployment |
| OutboxDeployments.UnsafeDeploymentsBreakTheBound | app/application/outbox_relay_service.py:44-91 | for every other deployment and every retry limit, a reachable state in which a message was dispatched more often |
| OutboxDeployments.TwoRecoverersCanExceedTheRetryBound | app/application/outbox_relay_service.py:77-91 | a reachable state in which a message was dispatched more than max_retries times, with one relay and two recoverers |
| OutboxDeployments.TwoRelaysCanExceedTheRetryBound | app/application/outbox_relay_service.py:41-50 | the same with two relays and one recoverer |
| OutboxDeployments.TerminalMessagesStayExactly | app/application/outbox_relay_service.py:41-46 | over all runs, no step ever changes a PUBLISHED or FAILED message if and only if there is at most one relay, for any number of recoverers |
| OutboxDeployments.TwoRelaysCanReopenAPublishedMessage | app/application/outbox_relay_service.py:41-46 | with any two or more relays, a reachable state and a step that takes a PUBLISHED message back to PROCESSING |
| OutboxHandling.OneMessageIsARun | app/application/outbox_relay_service.py:44-57 | handling one listed message, however its dispatch and its write end, is two or three steps of the protocol |
| OutboxService.OutboxRepository.Save | app/adapter/outbound/mongodb/repositories.py:112-119 | unconditional upsert under the message id; one that raises may have been applied |
| OutboxService.OutboxRepository.SaveIfStatus | app/adapter/outbound/mongodb/repositories.py:121-129 | replaces the message if and only if its stored status is the expected one, and says whether it did; or it raises, applied or not |
| OutboxService.OutboxRepository.FindBy | app/adapter/outbound/mongodb/repositories.py:131-141 | only stored messages with that status and updated before that time, each once, oldest first, and none left out unless the limit is used up by messages at least as old |
| OutboxService.OutboxRelayService.Relay | app/application/outbox_relay_service.py:28-62 | the store, the dispatch calls in order and the returned count, for every outcome of every dispatch and of every write; a claim that raises ends the call there; messages that are not PENDING are never touched; if the store answers every operation, the whole list is handled |
| OutboxService.OutboxRelayService.RelayEach | app/application/outbox_relay_service.py:44-60 | the loop over the listed messages computes the same |
| OutboxService.OutboxRelayService.DispatchAndPublish | app/application/outbox_relay_service.py:48-60 | the `try` block: one call for an ANALYZE message with a task id, publication only after it succeeded, counted only when the write was answered |
| OutboxService.OutboxRelayService.RecoverZombies | app/application/outbox_relay_service.py:64-100 | the store and the returned count, for every outcome of every write; a message that is not PROCESSING, or not older than the cutoff, is never touched, and each older one gets its retry if the limit and the writes allow; if the store answers every operation, the call and its writes go through |
| OutboxService.OutboxRelayService.RecoverEach | app/application/outbox_relay_service.py:80-98 | the loop over the listed zombies computes the same, passing over writes that raise |
| OutboxService.RelayedMessages | app/application/outbox_relay_service.py:44-57 | each listed message ends PUBLISHED if its dispatch went through and the write was applied, PROCESSING otherwise, and no other message changes |
| OutboxService.RelayedCount | app/application/outbox_relay_service.py:42-62 | the returned count is the number of messages that were dispatched with their write answered |
| OutboxService.RelayedCalls | app/application/outbox_relay_service.py:49-50 | a task id is dispatched once for each listed ANALYZE message that carries it |
| OutboxService.NothingStaysPending | app/application/outbox_relay_service.py:40-57 | every listed message ends PUBLISHED or PROCESSING, and none stays PENDING unless the limit cuts the list off |
| OutboxService.RecoveredMessages | app/application/outbox_relay_service.py:80-93 | each listed zombie whose write was applied has one more retry and is PENDING, or FAILED if that was the last; the answered writes are counted, no other message changes |
| OutboxService.RecoveryIsExact | app/application/outbox_relay_service.py:75-92 | recovery leaves young and not PROCESSING messages as they are and retries each older one, on the stored fields |
| OutboxService.RoundLowersTotal | app/application/outbox_relay_service.py:40-100 | one round of relay, ageing and recovery strictly lowers the total rank while any message is not terminal, whatever dispatch does and whatever the limits |
| OutboxService.OutboxDrains | app/application/outbox_relay_service.py:28-100 | after more rounds than the initial total every message is PUBLISHED or FAILED |
| OutboxService.RelayLoopIsARun | app/application/outbox_relay_service.py:44-57 | the sequential relay loop is a run of the protocol with the same stores after every message |
| OutboxService.RecoverLoopIsARun | app/application/outbox_relay_service.py:80-92 | the sequential recovery loop is a run of the protocol |
| Submission.MongoDatabase.BulkSave | app/adapter/outbound/mongodb/repositories.py:44-54 | all items in order, whatever the bulk size, or an exception |
| Submission.MongoDatabase.CreateIfNotActive | app/adapter/outbound/mongodb/repositories.py:89-103 | writes the task only if no pending or processing task is visible to the session; a domain error only if one is; without an answer nothing is written |
| Submission.MongoDatabase.Commit | app/adapter/outbound/mongodb/transaction.py:33-40 | all writes of the session or none; a failing commit may have happened |
| Submission.WritesAreFresh | app/domain/models.py:201-312 | a submit writes a pending task with the files' lengths as totals, no progress and no checkpoint, and a pending ANALYZE message for it with three retries |
| Submission.DataIngestor.LoadAndSave | app/application/data_ingestor.py:66-81 | on success the whole file was read and stored in order and the total is its length, for both chunk sizes |
| Submission.AnalysisService.WriteAll | app/application/analysis_service.py:36-50 | on success the session holds the raw rows, the task with the totals and the message, all files were readable and no task was active; a domain error only if a file was unreadable or a task active; without such a cause or a failure of the server it succeeds |
| Submission.AnalysisService.Submit | app/application/analysis_service.py:28-53 | all or nothing: an answer means everything is stored, with a fresh task and message, and that every earlier task was COMPLETED or FAILED; an exception means nothing is, unless only the commit's answer was lost; a domain error always leaves nothing and means an unreadable file or an active task; if the server answers every operation, it succeeds if and only if the files are readable and no task is active |
| SubmissionHistory.SubmitsAreAllOrNothing | app/application/decorators.py:25-36 | over every history of overlapping submits, outbox steps and task updates: an accepted submit has its raw rows per source in order, totals equal to their numbers and exactly one ANALYZE message; a failed or open one left no trace; every message names a stored task |
| SubmissionHistory.DispatchedTasksAreStored | app/application/outbox_relay_service.py:49-53 | a message in flight names a stored task, and the message of a PUBLISHED task has been dispatched |
| SubmissionHistory.CommitRecords | app/application/analysis_service.py:36-50 | a commit makes the submit recorded: rows, totals, one message |
| SubmissionHistory.CommitSparesOthers | app/application/analysis_service.py:36-50 | a commit changes nothing about any other submit |
| SubmissionHistory.OutboxKeepsMessages | app/adapter/outbound/mongodb/repositories.py:112-129 | relays and recoverers neither add, remove nor readdress messages |
| SubmissionHistory.TransitionsKeepTheJob | app/domain/models.py:246-274 | no task transition of the worker changes the id or a total |
| Parsing.TemperatureRangeIsCheckedAfterRounding | app/domain/value_objects.py:43-51 | a Celsius value is accepted if and only if it lies between -90.005 and 60.005 |
| Parsing.RoundedIsNearest | app/domain/value_objects.py:49-58 | the stored temperature is a whole hundredth at most half a hundredth from the input, and the even one of two |
| Parsing.TruncatesTowardZero | app/application/label_refiner.py:58-62 | `int` of a number drops the digits behind the point |
| Parsing.FalsyExactly | app/application/selection_refiner.py:101 | the raw values that `bool` takes for false |
| Parsing.DecimalRoundTrip | app/application/label_refiner.py:37 | every number is read back from its decimal digits, with any number of zeros before them |
| Parsing.UnitsAgree | app/domain/value_objects.py:53-58 | a temperature in Fahrenheit is accepted, and stored, exactly like the same one in Celsius |
| Parsing.OddEnumsRoundTrip | app/domain/enums.py:4-26 | a raw value reads as a weather, time of day or road surface if and only if it is that value's text |
| Parsing.ObjectClassRoundTrip | app/domain/enums.py:29-39 | a raw value reads as an object class if and only if it is that class's text |
| Collecting.Rejections.Note | app/application/selection_refiner.py:85-149 | one parser's `except` part: the list gains exactly this parser's rejection, or the exception goes through |
| Refiners.SelectionRefiner.RefineSingle | app/application/selection_refiner.py:16-26 | going through the fields with the shared list gives the specified outcome, for both schemas and for neither |
| Refiners.SelectionRefiner.RefineV1 | app/application/selection_refiner.py:28-45 | the same for a v1 row |
| Refiners.SelectionRefiner.RefineV2 | app/application/selection_refiner.py:47-70 | the same for a v2 row, with the early return when the sensor is no dict |
| Refiners.LabelRefiner.RefineSingle | app/application/label_refiner.py:16-33 | the same for a label row |
| Refiners.OddTagRefiner.RefineSingle | app/application/odd_tag_refiner.py:15-32 | the same for an odd tag row, whose own id is checked last |
| RefinerLaws.SelectionRefinerCollectsErrors | app/application/selection_refiner.py:16-149 | a valid selection if and only if every parser succeeds; otherwise one rejection per failing parser in order, never none; an exception if and only if a parser stops, and it is the first one's |
| RefinerLaws.LabelRefinerCollectsErrors | app/application/label_refiner.py:16-79 | the same for labels |
| RefinerLaws.OddTagRefinerCollectsErrors | app/application/odd_tag_refiner.py:15-57 | the same for odd tags; all parsers succeeding is not enough when the id is not positive |
| RefinerLaws.LabelRefinerRaisesExactly | app/application/label_refiner.py:35-72 | an exception escapes if and only if the video id is a number that is not positive, the count not finite, or the confidence not between 0 and 1 (or one of them beyond the doubles) |
| RefinerLaws.OddTagRefinerRaisesExactly | app/application/odd_tag_refiner.py:26-47 | an exception escapes if and only if the id is the empty text or infinite, the video id is an integer or a text that reads as a number that is not positive, or the id is such a number in an otherwise correct row |
| RefinerLaws.SelectionRefinerRaisesExactly | app/application/selection_refiner.py:72-149 | an exception escapes if and only if the id is the empty text, or the row is of a known schema and its path is truthy but no text, its temperature an integer beyond the doubles (in a unit that is known), or its wiper data complete with an infinite level |
| RefinedFields.SelectionIsExact | app/application/selection_refiner.py:28-149 | a row is refined to this selection if and only if each raw field of its schema gives this column: id, date, temperature in the given unit, wiper state and level, headlights, path |
| RefinedFields.LabelIsExact | app/application/label_refiner.py:16-72 | a row is refined to this label if and only if each raw field gives this column |
| RefinedFields.OddTagIsExact | app/application/odd_tag_refiner.py:15-57 | a row is refined to this odd tag if and only if each raw field gives this column, and its own id is a positive integer |
| RejectedFields.SelectionRejectionsAreExact | app/application/selection_refiner.py:16-149 | the rejections of a refused selection row, in order, with field and reason, from the raw fields alone, for both schemas and for neither |
| RejectedFields.LabelRejectionsAreExact | app/application/label_refiner.py:16-79 | the same for labels, with the three reasons for a count |
| RejectedFields.OddTagRejectionsAreExact | app/application/odd_tag_refiner.py:15-64 | the same for odd tags |
| RejectedFields.SelectionErrorIsExact | app/application/selection_refiner.py:72-149 | a raising selection row ends in a domain error exactly for an empty id |
| RejectedFields.LabelErrorIsExact | app/application/label_refiner.py:35-72 | a raising label row ends in a domain error exactly when the first bad number is one that its value object refuses |
| RejectedFields.OddTagErrorIsExact | app/application/odd_tag_refiner.py:26-47 | a raising odd tag row ends in a domain error unless its id is infinite |
| RefinerLaws.ZeroPaddingIsIgnored | app/application/odd_tag_refiner.py:41-47 | both refiners read a decimal video id with any number of zeros before it as its value |
| RefinerLaws.PaddedRowsAreRefinedAlike | app/application/label_refiner.py:35-40 | padding the video id of a row changes neither refiner's outcome, except for the source id of a label's rejections |
| Tables.InsertIgnoreAddsFirstOccurrences | app/adapter/outbound/mysql/repositories.py:41-49 | INSERT IGNORE extends the table by the first row of each new unique key, and afterwards every key is there |
| Tables.InsertIgnoreKeepsKeysUnique | app/adapter/outbound/mysql/entities.py:35 | unique keys stay unique |
| Tables.InsertIgnoreConcat | app/adapter/outbound/mysql/repositories.py:66-74 | inserting two chunks one after the other is inserting their concatenation |
| Phase.ChunkingIsOnePass | app/application/phase_runners.py:68-90 | for every stream and chunk size the phase extends the table by the first row of each new key in stream order, and `loaded` counts those rows |
| Phase.PhaseConserves | app/application/phase_runners.py:70-101 | every outcome is loaded, counted in a duplicate record or refused; `rejected` is the number of saved records: those of refused rows plus one per chunk with a duplicate |
| PhaseContents.LinkedRowsAreStored | app/application/phase_runners.py:210-220 | after a phase the key of every row that the refiner accepts is stored if the row is a selection, its video is selected or no selection is known; and no other rows are added |
| PhaseContents.RecordsAreExact | app/application/phase_runners.py:121-151 | a phase adds, in order, the refiner's rejections of each refused row and one UNLINKED_RECORD for each accepted odd tag or label of an unknown video, and otherwise only records of duplicates; refused rows are those two kinds |
| PhaseContents.SucceedsExactly | app/application/phase_runners.py:121-135 | no row of the stream raises if and only if the refiner raises on none |
| Pipeline.SameWorkRuns | app/application/pipeline_service.py:61-80 | the phases depend on nothing in the task but progress and checkpoint |
| Pipeline.AllStagesHaveResults | app/application/pipeline_service.py:64-80 | after the stage loop every stage has a result, whether it ran or was skipped |
| Resume.FinishedStagesAreSkipped | app/application/pipeline_service.py:67-78 | walking past finished stages changes nothing, rebuilds their results from the progress and reloads the selection ids |
| Resume.ResumeIsARunOfEveryStage | app/application/pipeline_service.py:61-80 | with the rows and progress up to the checkpoint in place, a resumed run ends with the same tables, results, progress and checkpoint as a run of every stage |
| Resume.RedeliveryHasNoEffect | app/application/pipeline_service.py:34-57 | any number of further runs after a completed one complete, change no row and report the same result |
| Resume.RetriesEndLikeOneAttempt | app/adapter/inbound/worker/pipeline_task.py:28-47 | after any number of attempts that failed inside a phase, an attempt ends as a single uninterrupted one would |
| Reporting.ReportTellsProgress | app/application/pipeline_service.py:82-100 | a completed task reports, for each of the three stages, the total, processed and rejected counts of that stage's progress; and the numbers of linked and partial videos, from the rows |
| Reporting.ReportIsAccurate | app/application/pipeline_service.py:61-100 | for each stage that ran, loaded and rejected are the rows added to that stage's table and the rejections added for it; for the others the counts are the earlier progress and nothing was added |
| Interruption.InterruptedRetriesEndExactly | app/application/pipeline_service.py:39-57 | after any sequence of attempts that failed or crashed anywhere, the next attempt ends as one uninterrupted attempt would if and only if that one would fail too, or no stage with raw rows has been left behind the checkpoint |
| Interruption.PhasesFailExactly | app/application/phase_runners.py:73-90 | the phases fail if and only if a raw row of a stage still to run makes its refiner raise, whatever is stored |
| Interruption.FailureGetsAhead | app/application/pipeline_service.py:61-80 | a failed attempt changes no row, and the stages it leaves behind did not raise and show their progress |
| LateFailure.LateFailureLosesTheRows | app/application/pipeline_service.py:44-57 | after a failure behind the last phase the next attempt always completes and stores nothing; it ends like an uninterrupted one if and only if no stage that was still to run has a raw row |
| LateFailure.PhasesLeaveATrace | app/application/phase_runners.py:73-90 | a run changes the database if and only if some stage it runs has a raw row |
| LateFailure.StreamLeavesATrace | app/application/phase_runners.py:80-90 | a stream with rows adds at least one row or one rejection |
| Worker.MySqlSession.SaveAll | app/adapter/outbound/mysql/repositories.py:92-100 | one INSERT IGNORE of all items and the number added, whatever the chunk size; on failure some first items were inserted |
| Worker.MySqlSession.SaveRejections | app/adapter/outbound/mysql/repositories.py:118-122 | appends the records chunk by chunk; on failure those of some first chunks |
| Worker.MySqlSession.FindIds | app/adapter/outbound/mysql/repositories.py:55-58 | the video ids of the task's rows |
| Worker.PhaseRunner.RefineChunk | app/application/phase_runners.py:121-135 | the refined rows and the rejections in order, or the first exception that a row raises |
| Worker.PhaseRunner.SaveChunk | app/application/phase_runners.py:80-90 | the chunk's effect on table, rejections and counters |
| Worker.PhaseRunner.Run | app/application/phase_runners.py:60-101 | the phase's function of the stream: table, rejections, result, progress and checkpoint; a failure, also of reading the raw rows, leaves a prefix of the rows uncommitted and the task as it was, or as the last save made it; if both servers answer, it succeeds if and only if no row raises |
| Service.PipelineService.RunStageLoop | app/application/pipeline_service.py:61-80 | the stage loop computes the pipeline function; where it fails, the stored task is that of some first stages; if both servers answer, it fails only if a row raises |
| Service.PipelineService.CollectResult | app/application/pipeline_service.py:82-100 | each stage's result in its own place, and the linked statistics from the rows |
| Service.PipelineService.Execute | app/application/pipeline_service.py:34-57 | success stores the completed task, whose result is its progress, stage by stage; a failure inside the phases puts progress and checkpoint back; a later one keeps them; if that save fails too, or the worker crashes, the stored task is that of some first stages; a missing task fails at once; if both servers answer, it completes if and only if the task exists and no row raises |
| Service.PipelineService.ProcessAnalysis | app/adapter/inbound/worker/pipeline_task.py:28-47 | what each outcome leaves in both stores, also when a commit raises after it went through; only domain errors are not retried, and only when an attempt could not have completed; if both servers answer, it commits exactly then |
| Service.PipelineService.Deliver | app/adapter/inbound/worker/pipeline_task.py:15-47 | with retries: every failure along the way is one of those above, and the last outcome follows from the last of them; if all failed inside a phase, the end is that of one uninterrupted attempt, or nothing has changed; if both servers answer, the delivery commits if and only if the task exists and one attempt would complete |
| Service.DeliveryEndsExactly | app/adapter/inbound/worker/pipeline_task.py:28-47 | a delivery that commits leaves both stores as one uninterrupted attempt would if and only if no stage with raw rows was left behind the checkpoint; one that is given up would have failed at once and stored no row |
| Integrity.ReferencesStayLinked | app/application/phase_runners.py:210-220 | over every history of attempts interrupted at any row, with rows kept or rolled back: a task with a selection has only odd tags and labels of its own selections; `fully_linked` is then the number of videos with both, and `partial` is never negative |
| Integrity.InvariantStep | app/application/pipeline_service.py:67-78 | each step of such a history keeps the invariant behind this |
| Integrity.StageStepIsAnEvent | app/application/pipeline_service.py:67-78 | every iteration of the stage loop is a step of such a history |
| Integrity.CompletedAttemptIsAHistory | app/application/pipeline_service.py:61-80 | and a whole attempt that completes and commits is such a history |
| Integrity.FailedPhaseIsAnEvent | app/application/phase_runners.py:73-90 | so is every failure of a phase, with its rows kept or rolled back and its checkpoint kept or put back |
| EndToEnd.ConservedFromIngestToResult | app/application/phase_runners.py:92-101 | after any history, a phase of an accepted task streams the rows of its file; the task's total is loaded plus ignored plus refused rows; `rejected` is the number of records saved; every row added is valid and the task's |
| EndToEnd.RefinedRowsAreProper | app/application/phase_runners.py:177-178 | every refiner gives a valid row of its stage's kind for this task, or a non-empty list of this task's rejections, or raises |
| EndToEnd.RefinersRecordRefusals | app/application/phase_runners.py:128-132 | no refiner refuses a row without a rejection |
| EndToEnd.RefinersKeepToTheirOwn | app/application/phase_runners.py:128-132 | the refiners' rejections are the task's and the stage's own, and speak neither of links nor of duplicates |
| Search.CompiledQueryMeansTheCriteria | app/adapter/outbound/mysql/query_builder.py:21-84 | a selection comes out of the compiled query exactly as often as the criteria say: once per odd tag meeting all odd conditions, if it meets the selection conditions and some one label meets all label conditions |
| Search.SelectionConditionsMean | app/adapter/outbound/mysql/query_builder.py:36-50 | the selection conditions hold of a row if and only if the selection meets the criteria |
| Search.OddConditionsMean | app/adapter/outbound/mysql/query_builder.py:52-66 | join and odd conditions hold if and only if this one tag belongs to the video and meets all of them |
| Search.ExistsMeans | app/adapter/outbound/mysql/query_builder.py:68-84 | the EXISTS clause asks for one label meeting all conditions, and is absent when only zero minimums are given |
| SearchPaging.QueriesGiveTheAnswer | app/adapter/outbound/mysql/query_builder.py:86-93 | the page query is a slice of the sorted answer, and the count query its unpaged length |
| SearchPaging.AnswerIsExact | app/adapter/outbound/mysql/query_builder.py:21-34 | the answer holds exactly the matching selections behind the cursor, each with its multiplicity, by ascending id |
| SearchMeaning.ReturnedRowsAreWanted | app/adapter/outbound/mysql/query_builder.py:21-84 | every returned selection meets its conditions and has one odd tag meeting all given odd conditions and one label meeting all given label conditions; a first page that is not full shows all such selections |
| SearchMeaning.MultiplicityMeans | app/adapter/outbound/mysql/query_builder.py:52-66 | a wanted selection comes once, or once for each odd tag that meets the odd conditions if any is given |
| SearchMeaning.LabelsHaveNoSay | app/adapter/outbound/mysql/query_builder.py:68-71 | with no object class and no minimum other than zero, page and count do not depend on the labels |
| SearchMeaning.TagsHaveNoSay | app/adapter/outbound/mysql/query_builder.py:52-55 | with no odd condition, page and count do not depend on the odd tags |
| Paging.Validated | app/adapter/inbound/rest/schemas.py:163-169 | refused if and only if both a page and a cursor are given; a request with one of them is kept as it is, and one with neither asks for page 1 |
| Paging.CursorWalkCoversEachIdOnce | app/adapter/inbound/rest/routers.py:125-132 | following `next_after` ends, its pages hold exactly the matching ids behind the start, and every id of a page is below every id of a later one |
| CursorRows.WalkGivesTheAnswerExactly | app/adapter/inbound/rest/routers.py:125-132 | for one page size: all pages together are the answer behind the start, row by row, if and only if no page ends between two rows of one selection; otherwise they are fewer rows |
| CursorRows.EveryWalkGivesTheAnswerExactly | app/adapter/outbound/mysql/query_builder.py:86-93 | all pages together are the answer for every page size if and only if no selection behind the start is in the answer twice; so always when no odd condition is given |
| CursorRows.AnswerBeyond | app/adapter/outbound/mysql/query_builder.py:87-89 | the answer behind a later cursor is the part of the earlier one with higher ids |
| Paging.OffsetPagesCoverTheAnswer | app/adapter/inbound/rest/schemas.py:44-55 | page p is the p-th piece of the answer, non-empty exactly up to `total_pages`; `last` exactly when nothing lies beyond; all pages together are the answer |
| Paging.CeilingOfPages | app/adapter/inbound/rest/schemas.py:46 | `total_pages` is the ceiling of total by size |
| Assembly.SqlDataSearchRepository.Search | app/adapter/outbound/mysql/repositories.py:137-173 | the page in order with the total; each selection with exactly its labels in table order and one of its odd tags |
| Assembly.SqlDataSearchRepository.Assemble | app/adapter/outbound/mysql/repositories.py:146-171 | the same for the part after the page query |
| Assembly.SqlDataSearchRepository.TagsByVideo | app/adapter/outbound/mysql/repositories.py:148-151 | the last tag of each video |
| Assembly.SqlDataSearchRepository.LabelsByVideo | app/adapter/outbound/mysql/repositories.py:153-158 | all labels of each video in order |
| Assembly.BatchedLookupAgrees | app/adapter/outbound/mysql/repositories.py:76-79 | for each selection of a page the attached tag is what `find_by_video_id` finds, unless the video has several tags, where that fails; the whole page agrees if and only if no video on it has two tags |

## Left out

- The REST layer apart from paging, mappers, dependency wiring, read services, and the filters and paging of the rejection search: field copies and easy members.
- MySQL, MongoDB, Redis and Celery clients, indexes other than the unique keys, column lengths and numeric column ranges.
- JSON and CSV reading: a file is a sequence of rows that may end in an exception.
- Detail texts, log messages, timestamps of tasks and rejections, and generated row ids.
- Rounding of floating point numbers: temperatures are rounded as exact reals, and integers below the range of a double convert exactly.
- Python's limit on the number of digits that `int` accepts in a text.
- Two tasks writing the same selection id at the same time, and overlapping runs of one task.
- "At most one active task" over time: the check and the insert are separate operations, so it is stated for the submit alone.
- `find_by` is one atomic snapshot, and a query without ORDER BY answers in table order.
- Paging.CursorWalkCoversEachIdOnce: speaks of ids, over fixed tables; `CursorRows` has the rows.
- OutboxService.OutboxDrains: the rounds assume a store that answers, since a recovery whose writes are lost changes nothing; dispatch calls may end in any way.
- Submission.AnalysisService.Submit: no other process writes between its operations; the history covers overlapping submits, whose conflict checks may see any earlier state.
- Service.PipelineService.Deliver: waiting times between the retries are not modelled; when retries run out the committed rows are claimed unchanged only if no commit went through unanswered.
- Parsing.UnitsAgree: over exact reals; the rounding of the Fahrenheit conversion in floating point is not covered.
- Integrity.ReferencesStayLinked: without any selection row the code switches the link check off, so nothing is claimed for such a task.
- Resume.ResumeIsARunOfEveryStage: claimed only when the checkpointed rows are present; after a crash or a late failure they are not.
