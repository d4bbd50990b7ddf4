/** The result that a completed attempt reports: for each stage what its progress
    says, which is what the attempt added to the stage's table and rejections. */
module Reporting {
  import opened Domain
  import opened Tables
  import opened Phase
  import opened Pipeline
  import opened PhaseContents
  import opened Resume
  import opened LateFailure

  /** The rejections of one stage. */
  function OfStage(records: seq<Rejection>, stage: Stage): nat {
    if records == [] then 0
    else
      var n := |records| - 1;
      OfStage(records[..n], stage) + if records[n].stage == stage then 1 else 0
  }

  lemma {:induction false} OfStageConcat(a: seq<Rejection>, b: seq<Rejection>, stage: Stage)
    ensures OfStage(a + b, stage) == OfStage(a, stage) + OfStage(b, stage)
    decreases |b|
  {
    if b == [] {
      assert a + b == a;
    } else {
      var n := |b| - 1;
      OfStageConcat(a, b[..n], stage);
      assert (a + b)[..|a| + n] == a + b[..n];
    }
  }

  lemma {:induction false} OfOneStage(records: seq<Rejection>, stage: Stage, x: Stage)
    requires forall r :: r in records ==> r.stage == stage
    ensures OfStage(records, x) == if x == stage then |records| else 0
    decreases |records|
  {
    if records != [] {
      OfOneStage(records[..|records| - 1], stage, x);
    }
  }

  lemma RecordsKeepToStage(job: Job, stage: Stage, ids: set<int>, rows: seq<RawRow>)
    requires RefinersKeepToTheirFields(job)
    ensures forall r :: r in RecordsFor(job, stage, ids, rows) ==> r.stage == stage
    ensures NoneRaised(Outcomes(job, stage, ids, rows)) ==> PlainDetails(Outcomes(job, stage, ids, rows))
  {
    if rows != [] {
      RecordsKeepToStage(job, stage, ids, rows[..|rows| - 1]);
    }
  }

  lemma PhaseTotals(job: Job, stage: Stage, db: Database, os: seq<Outcome>)
    requires job.chunkSize >= 1 && NoneRaised(os) && PlainDetails(os)
    ensures var ps := PhaseResult(job, stage, db, os);
      && ps.loaded == |ps.table| - |TableOf(db, stage)|
      && ps.rejected == |ps.rejections| - |db.rejections|
  {
    var st := PhaseState(TableOf(db, stage), db.rejections, 0, 0);
    hide RunChunks, NoneRaised, PlainDetails;
    ChunkingIsOnePass(job.taskId, stage, st, os, job.chunkSize);
    PhaseConserves(job.taskId, stage, st, os, job.chunkSize);
  }

  lemma AddedByStage(before: seq<Rejection>, after: seq<Rejection>, stage: Stage, x: Stage)
    requires before <= after && forall r :: r in after[|before|..] ==> r.stage == stage
    ensures OfStage(after, x) == OfStage(before, x) + if x == stage then |after| - |before| else 0
  {
    var added := after[|before|..];
    assert after == before + added;
    OfOneStage(added, stage, x);
    OfStageConcat(before, added, x);
  }

  /** The two counters of a phase are the rows and the rejections it adds. */
  lemma PhaseCounts(job: Job, stage: Stage, ids: set<int>, db: Database)
    requires job.chunkSize >= 1 && RefinersKeepToTheirFields(job)
    requires NoneRaised(Outcomes(job, stage, ids, job.RowsFor(stage)))
    ensures var ps := PhaseResult(job, stage, db, Outcomes(job, stage, ids, job.RowsFor(stage)));
      && ps.loaded == |ps.table| - |TableOf(db, stage)|
      && forall x :: OfStage(ps.rejections, x) ==
           OfStage(db.rejections, x) + (if x == stage then ps.rejected else 0)
  {
    hide *;
    var os := Outcomes(job, stage, ids, job.RowsFor(stage));
    RecordsKeepToStage(job, stage, ids, job.RowsFor(stage));
    RecordsAreExact(job, stage, ids, db);
    PhaseTotals(job, stage, db, os);
    var after := PhaseResult(job, stage, db, os).rejections;
    BatchesKeepToStage(job, stage, after[|db.rejections|..]);
    forall x {
      AddedByStage(db.rejections, after, stage, x);
    }
  }

  lemma BatchesKeepToStage(job: Job, stage: Stage, added: seq<Rejection>)
    ensures forall r :: r in added && IsBatchRecord(job, stage, r) ==> r.stage == stage
  {
  }

  /** `a` and `b` agree about this stage: its progress, rows and rejections. */
  predicate SameStage(a: PipeState, b: PipeState, stage: Stage) {
    && b.task.ProgressFor(stage) == a.task.ProgressFor(stage)
    && TableOf(b.db, stage) == TableOf(a.db, stage)
    && OfStage(b.db.rejections, stage) == OfStage(a.db.rejections, stage)
  }

  /** The stage has run from `a` to `b`: its progress counts what it added. */
  predicate HasRun(a: PipeState, b: PipeState, stage: Stage) {
    var p := b.task.ProgressFor(stage);
    && p.total == a.task.ProgressFor(stage).total
    && p.processed == |TableOf(b.db, stage)| - |TableOf(a.db, stage)|
    && p.rejected == OfStage(b.db.rejections, stage) - OfStage(a.db.rejections, stage)
  }

  /** The result of the stage is its progress. */
  predicate Tells(st: PipeState, stage: Stage) {
    stage in st.results &&
    var p, r := st.task.ProgressFor(stage), st.results[stage];
    r.total == p.total && r.loaded == p.processed && r.rejected == p.rejected
  }

  lemma StageTells(job: Job, stage: Stage, st: PipeState)
    requires job.chunkSize >= 1 && StageStep(job, stage, st).Some?
    ensures var st' := StageStep(job, stage, st).value;
      Tells(st', stage) && forall x :: x != stage && Tells(st, x) ==> Tells(st', x)
  {
    hide Outcomes, NoneRaised, PhaseResult;
  }

  lemma RunTells(job: Job, st: PipeState)
    requires job.chunkSize >= 1 && RunStages(job, st, STAGE_ORDER).Some?
    ensures forall stage: Stage :: Tells(RunStages(job, st, STAGE_ORDER).value, stage)
  {
    RunPhasesUnfolded(job, st);
    hide StageStep, RunStages, Tells;
    var st1 := StageStep(job, SelectionStage, st).value;
    var st2 := StageStep(job, OddTaggingStage, st1).value;
    StageTells(job, SelectionStage, st);
    StageTells(job, OddTaggingStage, st1);
    StageTells(job, AutoLabelingStage, st2);
    forall stage: Stage ensures Tells(RunStages(job, st, STAGE_ORDER).value, stage) {
      match stage
      case SelectionStage =>
      case OddTaggingStage =>
      case AutoLabelingStage =>
    }
  }

  /** What one stage does to its own share of the state and to the others'. */
  lemma StageAccounts(job: Job, stage: Stage, st: PipeState)
    requires job.chunkSize >= 1 && RefinersKeepToTheirFields(job) && StageStep(job, stage, st).Some?
    ensures var st' := StageStep(job, stage, st).value;
      && (if st.task.ShouldRunPhase(stage) then HasRun(st, st', stage) else SameStage(st, st', stage))
      && (forall x :: x != stage ==> SameStage(st, st', x))
  {
    hide RefinersKeepToTheirFields, Outcomes, NoneRaised, PhaseResult, OfStage;
    if st.task.ShouldRunPhase(stage) {
      PhaseCounts(job, stage, st.valid, st.db);
    }
  }

  /** From `a` to `b` the stage has run, or nothing of it has changed. */
  predicate Accounts(a: PipeState, b: PipeState, stage: Stage, runs: bool) {
    if runs then HasRun(a, b, stage) else SameStage(a, b, stage)
  }

  lemma ThenAnother(a: PipeState, b: PipeState, c: PipeState, stage: Stage, runs: bool)
    ensures Accounts(a, b, stage, runs) && SameStage(b, c, stage) ==> Accounts(a, c, stage, runs)
    ensures SameStage(a, b, stage) && Accounts(b, c, stage, runs) ==> Accounts(a, c, stage, runs)
    ensures SameStage(a, b, stage) && SameStage(b, c, stage) ==> SameStage(a, c, stage)
  {
    hide OfStage;
  }

  lemma RunAccounts(job: Job, st: PipeState)
    requires job.chunkSize >= 1 && RefinersKeepToTheirFields(job) && RunStages(job, st, STAGE_ORDER).Some?
    ensures forall stage: Stage ::
      Accounts(st, RunStages(job, st, STAGE_ORDER).value, stage, st.task.ShouldRunPhase(stage))
  {
    RunPhasesUnfolded(job, st);
    hide StageStep, RunStages, RefinersKeepToTheirFields, HasRun, SameStage, AnalyzeTask.ShouldRunPhase;
    var st1 := StageStep(job, SelectionStage, st).value;
    var st2 := StageStep(job, OddTaggingStage, st1).value;
    var st3 := StageStep(job, AutoLabelingStage, st2).value;
    StageAccounts(job, SelectionStage, st);
    LaterStagesRunAlike(job, SelectionStage, st, OddTaggingStage);
    LaterStagesRunAlike(job, SelectionStage, st, AutoLabelingStage);
    StageAccounts(job, OddTaggingStage, st1);
    LaterStagesRunAlike(job, OddTaggingStage, st1, AutoLabelingStage);
    StageAccounts(job, AutoLabelingStage, st2);
    forall stage: Stage ensures Accounts(st, st3, stage, st.task.ShouldRunPhase(stage)) {
      ThenAnother(st, st1, st2, stage, st.task.ShouldRunPhase(stage));
      ThenAnother(st, st2, st3, stage, st.task.ShouldRunPhase(stage));
      match stage
      case SelectionStage =>
      case OddTaggingStage =>
      case AutoLabelingStage =>
    }
  }

  /* ---- the reported result ---- */

  /** The videos with a selection, an odd tag and a label of the task. */
  ghost function FullyLinkedVideos(taskId: string, db: Database): set<int> {
    set s | s in db.selections && s.taskId == taskId
      && (exists o :: o in db.oddTags && o.taskId == taskId && o.videoId == s.videoId)
      && (exists l :: l in db.labels && l.taskId == taskId && l.videoId == s.videoId) :: s.videoId
  }

  ghost function SelectedVideos(taskId: string, db: Database): set<int> {
    set s | s in db.selections && s.taskId == taskId :: s.videoId
  }

  /** A completed task tells of each stage what its progress says. */
  predicate ReportsItsProgress(task: AnalyzeTask) {
    && task.status == TaskCompleted && task.result.Some?
    && task.result.value.selection.total == task.selectionProgress.total
    && task.result.value.selection.loaded == task.selectionProgress.processed
    && task.result.value.selection.rejected == task.selectionProgress.rejected
    && task.result.value.oddTagging.total == task.oddTaggingProgress.total
    && task.result.value.oddTagging.loaded == task.oddTaggingProgress.processed
    && task.result.value.oddTagging.rejected == task.oddTaggingProgress.rejected
    && task.result.value.autoLabeling.total == task.autoLabelingProgress.total
    && task.result.value.autoLabeling.loaded == task.autoLabelingProgress.processed
    && task.result.value.autoLabeling.rejected == task.autoLabelingProgress.rejected
  }

  /** The two link counts, from the rows. */
  ghost predicate ReportsLinks(r: AnalysisResult, taskId: string, db: Database) {
    && r.fullyLinked == |FullyLinkedVideos(taskId, db)|
    && r.partially == |SelectedVideos(taskId, db)| - |FullyLinkedVideos(taskId, db)|
  }

  /** The whole result of a completed task. */
  ghost predicate IsReported(task: AnalyzeTask, taskId: string, db: Database) {
    ReportsItsProgress(task) && ReportsLinks(task.result.value, taskId, db)
  }

  /** What a stage is reported with: the rows and rejections added for it, or what
      an earlier attempt has left in its progress. */
  predicate CountsAdded(r: StageResult, earlier: StageProgress, runs: bool, rows: int, rejections: int) {
    && r.total == earlier.total
    && r.loaded == (if runs then rows else earlier.processed)
    && r.rejected == (if runs then rejections else earlier.rejected)
    && (!runs ==> rows == 0 && rejections == 0)
  }

  lemma LinksOfRows(job: Job, db: Database, results: map<Stage, StageResult>)
    requires SelectionStage in results && OddTaggingStage in results && AutoLabelingStage in results
    ensures ReportsLinks(BuildResult(job, db, results), job.taskId, db)
  {
    assert LinkedIds(job, db) == FullyLinkedVideos(job.taskId, db);
    assert IdsOf(db.selections, job.taskId) == SelectedVideos(job.taskId, db);
  }

  /** A completed attempt reports of each stage what its progress says, and the
      links between the stored rows. */
  lemma ReportTellsProgress(job: Job, w: World)
    requires job.chunkSize >= 1 && Completed(job, w).Some?
    ensures IsReported(Completed(job, w).value.task, job.taskId, Completed(job, w).value.db)
  {
    hide RunStages, ReportsLinks, LinkedIds, IdsOf;
    var st := Initially(w.task.StartProcessing(), w.db);
    var fin := RunStages(job, st, STAGE_ORDER).value;
    RunTells(job, st);
    assert Tells(fin, SelectionStage) && Tells(fin, OddTaggingStage) && Tells(fin, AutoLabelingStage);
    LinksOfRows(job, fin.db, fin.results);
  }

  /** The counts it reports are those of the rows and rejections that the attempt
      added for the stage, or what an earlier one has left in the progress if the
      checkpoint is past the stage. */
  lemma ReportIsAccurate(job: Job, w: World)
    requires job.chunkSize >= 1 && RefinersKeepToTheirFields(job) && Completed(job, w).Some?
    ensures var w' := Completed(job, w).value;
      var at := w.task.lastCompletedPhase;
      && ReportsItsProgress(w'.task)
      && CountsAdded(w'.task.result.value.selection, w.task.selectionProgress, at == None,
           |w'.db.selections| - |w.db.selections|,
           OfStage(w'.db.rejections, SelectionStage) - OfStage(w.db.rejections, SelectionStage))
      && CountsAdded(w'.task.result.value.oddTagging, w.task.oddTaggingProgress,
           at == None || at == Some(SelectionStage),
           |w'.db.oddTags| - |w.db.oddTags|,
           OfStage(w'.db.rejections, OddTaggingStage) - OfStage(w.db.rejections, OddTaggingStage))
      && CountsAdded(w'.task.result.value.autoLabeling, w.task.autoLabelingProgress, at != Some(AutoLabelingStage),
           |w'.db.labels| - |w.db.labels|,
           OfStage(w'.db.rejections, AutoLabelingStage) - OfStage(w.db.rejections, AutoLabelingStage))
  {
    hide Completed, RefinersKeepToTheirFields, ReportsItsProgress, ReportsLinks, CountsAdded, OfStage;
    ReportTellsProgress(job, w);
    ResultTells(Completed(job, w).value.task, SelectionStage);
    hide AnalyzeTask.ShouldRunPhase;
    RunsExactly(w.task);
    StageIsAccurate(job, w, SelectionStage);
    StageIsAccurate(job, w, OddTaggingStage);
    StageIsAccurate(job, w, AutoLabelingStage);
  }

  lemma RunsExactly(task: AnalyzeTask)
    ensures task.ShouldRunPhase(SelectionStage) <==> task.lastCompletedPhase == None
    ensures task.ShouldRunPhase(OddTaggingStage) <==>
      task.lastCompletedPhase == None || task.lastCompletedPhase == Some(SelectionStage)
    ensures task.ShouldRunPhase(AutoLabelingStage) <==> task.lastCompletedPhase != Some(AutoLabelingStage)
  {
  }

  function ResultOf(r: AnalysisResult, stage: Stage): StageResult {
    match stage
    case SelectionStage => r.selection
    case OddTaggingStage => r.oddTagging
    case AutoLabelingStage => r.autoLabeling
  }

  lemma StageIsAccurate(job: Job, w: World, stage: Stage)
    requires job.chunkSize >= 1 && RefinersKeepToTheirFields(job) && Completed(job, w).Some?
    requires ReportsItsProgress(Completed(job, w).value.task)
    ensures var w' := Completed(job, w).value;
      CountsAdded(ResultOf(w'.task.result.value, stage), w.task.ProgressFor(stage), w.task.ShouldRunPhase(stage),
                  |TableOf(w'.db, stage)| - |TableOf(w.db, stage)|,
                  OfStage(w'.db.rejections, stage) - OfStage(w.db.rejections, stage))
  {
    hide *;
    var st := Initially(w.task.StartProcessing(), w.db);
    CompletedIsRun(job, w, stage);
    var fin := RunStages(job, st, STAGE_ORDER).value;
    ResultTells(Completed(job, w).value.task, stage);
    RunAccounts(job, st);
    CountsOfStage(st, fin, stage, ResultOf(Completed(job, w).value.task.result.value, stage),
                  w.task.ShouldRunPhase(stage));
  }

  lemma ResultTells(task: AnalyzeTask, stage: Stage)
    requires ReportsItsProgress(task)
    ensures task.result.Some?
    ensures var p, r := task.ProgressFor(stage), ResultOf(task.result.value, stage);
      r.total == p.total && r.loaded == p.processed && r.rejected == p.rejected
  {
  }

  lemma CountsOfStage(a: PipeState, b: PipeState, stage: Stage, r: StageResult, runs: bool)
    requires Accounts(a, b, stage, runs)
    requires var p := b.task.ProgressFor(stage);
      r.total == p.total && r.loaded == p.processed && r.rejected == p.rejected
    ensures CountsAdded(r, a.task.ProgressFor(stage), runs, |TableOf(b.db, stage)| - |TableOf(a.db, stage)|,
                        OfStage(b.db.rejections, stage) - OfStage(a.db.rejections, stage))
  {
    hide OfStage;
  }

  lemma CompletedIsRun(job: Job, w: World, stage: Stage)
    requires job.chunkSize >= 1 && Completed(job, w).Some?
    ensures var st := Initially(w.task.StartProcessing(), w.db);
      var fin := RunStages(job, st, STAGE_ORDER);
      var w' := Completed(job, w).value;
      && fin.Some? && w'.db == fin.value.db && st.db == w.db
      && w'.task.ProgressFor(stage) == fin.value.task.ProgressFor(stage)
      && st.task.ProgressFor(stage) == w.task.ProgressFor(stage)
      && st.task.ShouldRunPhase(stage) == w.task.ShouldRunPhase(stage)
  {
    hide RunStages, BuildResult;
  }
}
