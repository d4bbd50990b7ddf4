/** What a failure after the last phase, or a failed commit, costs: the
    checkpoint stays ahead of the rows that were rolled back. */
module LateFailure {
  import opened Domain
  import opened Tables
  import opened Phase
  import opened Pipeline
  import opened Resume

  /** Every refusal comes with a rejection. */
  ghost predicate RefusalsAreRecorded(job: Job) {
    forall stage, raw :: job.refine(stage, raw).Refused? ==> job.refine(stage, raw).rejections != []
  }

  predicate AllRecorded(os: seq<Outcome>) {
    forall o :: o in os && o.Refused? ==> o.rejections != []
  }

  lemma {:induction false} RefusalsHaveRecords(os: seq<Outcome>)
    requires AllRecorded(os)
    ensures RefusedCount(os) > 0 ==> |RecordsOf(os)| > 0
    decreases |os|
  {
    if os == [] {
    } else {
      var n := |os| - 1;
      RefusalsHaveRecords(os[..n]);
      assert os[n] in os;
    }
  }

  function Size(st: PhaseState): nat {
    |st.table| + |st.rejections|
  }

  lemma ChunkLeavesATrace(taskId: string, stage: Stage, st: PhaseState, os: seq<Outcome>)
    requires os != [] && NoneRaised(os) && AllRecorded(os)
    ensures Size(ChunkStep(taskId, stage, st, os)) > Size(st)
  {
    OutcomesSplit(os);
    RefusalsHaveRecords(os);
    InsertIgnoreGrows(st.table, RowsOf(os));
    hide InsertIgnore, RowsOf, RecordsOf, RefusedCount;
  }

  /** A stream that has rows leaves a row or a record behind. */
  lemma {:induction false} StreamLeavesATrace(taskId: string, stage: Stage, st: PhaseState, os: seq<Outcome>, size: nat)
    requires size >= 1 && NoneRaised(os) && AllRecorded(os)
    ensures Size(RunChunks(taskId, stage, st, os, size)) >= Size(st)
    ensures if os == [] then RunChunks(taskId, stage, st, os, size) == st
            else Size(RunChunks(taskId, stage, st, os, size)) > Size(st)
    decreases |os|
  {
    hide ChunkStep;
    if os == [] {
    } else {
      var k := Min(size, |os|);
      ChunkLeavesATrace(taskId, stage, st, os[..k]);
      StreamLeavesATrace(taskId, stage, ChunkStep(taskId, stage, st, os[..k]), os[k..], size);
    }
  }

  function Weight(db: Database): nat {
    |db.selections| + |db.oddTags| + |db.labels| + |db.rejections|
  }

  /** A stage changes the database exactly when it runs over some rows. */
  lemma StageLeavesATrace(job: Job, stage: Stage, st: PipeState)
    requires job.chunkSize >= 1 && RefusalsAreRecorded(job) && StageStep(job, stage, st).Some?
    ensures var st' := StageStep(job, stage, st).value;
      if st.task.ShouldRunPhase(stage) && job.RowsFor(stage) != [] then Weight(st'.db) > Weight(st.db)
      else st'.db == st.db
  {
    if st.task.ShouldRunPhase(stage) {
      var os := Outcomes(job, stage, st.valid, job.RowsFor(stage));
      assert AllRecorded(os);
      StreamLeavesATrace(job.taskId, stage, PhaseState(TableOf(st.db, stage), st.db.rejections, 0, 0), os,
        job.chunkSize);
      hide RunChunks;
    }
  }

  /** Running one stage decides nothing about whether a later one runs. */
  lemma LaterStagesRunAlike(job: Job, stage: Stage, st: PipeState, later: Stage)
    requires job.chunkSize >= 1 && StageStep(job, stage, st).Some? && later.Index() > stage.Index()
    ensures StageStep(job, stage, st).value.task.ShouldRunPhase(later) ==
      (st.task.ShouldRunPhase(stage) || st.task.ShouldRunPhase(later))
  {
    hide PhaseResult, Outcomes, NoneRaised;
  }

  /** Some stage that the task still has to run has raw rows. */
  predicate HasRowsToRun(job: Job, task: AnalyzeTask) {
    || (task.ShouldRunPhase(SelectionStage) && job.selections != [])
    || (task.ShouldRunPhase(OddTaggingStage) && job.odds != [])
    || (task.ShouldRunPhase(AutoLabelingStage) && job.labels != [])
  }

  lemma PhasesLeaveATrace(job: Job, task: AnalyzeTask, db: Database)
    requires job.chunkSize >= 1 && RefusalsAreRecorded(job) && RunPhases(job, task, db).Some?
    ensures RunPhases(job, task, db).value.db != db <==> HasRowsToRun(job, task)
  {
    var st := Initially(task, db);
    RunPhasesUnfolded(job, st);
    hide StageStep, RunStages, RefusalsAreRecorded;
    StageLeavesATrace(job, SelectionStage, st);
    LaterStagesRunAlike(job, SelectionStage, st, OddTaggingStage);
    LaterStagesRunAlike(job, SelectionStage, st, AutoLabelingStage);
    var st1 := StageStep(job, SelectionStage, st).value;
    StageLeavesATrace(job, OddTaggingStage, st1);
    LaterStagesRunAlike(job, OddTaggingStage, st1, AutoLabelingStage);
    var st2 := StageStep(job, OddTaggingStage, st1).value;
    StageLeavesATrace(job, AutoLabelingStage, st2);
  }

  /** A failure after the last phase is not like the others. The next attempt
      always completes and reports every row as loaded, but stores none: it ends
      like an uninterrupted attempt exactly when no stage that was still to run
      has a raw row. */
  lemma LateFailureLosesTheRows(job: Job, w: World, w': World)
    requires job.chunkSize >= 1 && RefusalsAreRecorded(job) && FailedLate(job, w, w')
    ensures Completed(job, w).Some? && Completed(job, w').Some?
    ensures var full, resumed := Completed(job, w).value, Completed(job, w').value;
      && resumed.db == w.db
      && resumed.task.result.value.selection == full.task.result.value.selection
      && resumed.task.result.value.oddTagging == full.task.result.value.oddTagging
      && resumed.task.result.value.autoLabeling == full.task.result.value.autoLabeling
      && (SameEnd(Some(resumed), Some(full)) <==> !HasRowsToRun(job, w.task))
  {
    var task := w.task.StartProcessing();
    var done := RunPhases(job, task, w.db).value;
    PhasesLeaveATrace(job, task, w.db);
    hide HasRowsToRun, RefusalsAreRecorded;
    assert HasRowsToRun(job, task) == HasRowsToRun(job, w.task) by { StartingKeepsRowsToRun(job, w.task); }
    StagesAreRunPhases(job, task, w.db);
    StagesCheckpoint(job, task, w.db, 3);
    SkippingKeepsAnyDatabase(job, w'.task.StartProcessing(), done, w.db);
  }

  lemma StartingKeepsRowsToRun(job: Job, task: AnalyzeTask)
    ensures HasRowsToRun(job, task.StartProcessing()) == HasRowsToRun(job, task)
  {
  }
}
