/** The refinement pipeline as a function of the stored task and the database:
    the three phases in order, checkpoint and resume, and the final statistics. */
module Pipeline {
  import opened Domain
  import opened Tables
  import opened Phase

  datatype Database = Database(
    selections: seq<Row>, oddTags: seq<Row>, labels: seq<Row>, rejections: seq<Rejection>)

  function TableOf(db: Database, stage: Stage): seq<Row> {
    match stage
    case SelectionStage => db.selections
    case OddTaggingStage => db.oddTags
    case AutoLabelingStage => db.labels
  }

  /** The database with this stage's table and the rejections replaced. */
  function Put(db: Database, stage: Stage, table: seq<Row>, rejections: seq<Rejection>): Database {
    match stage
    case SelectionStage => db.(selections := table, rejections := rejections)
    case OddTaggingStage => db.(oddTags := table, rejections := rejections)
    case AutoLabelingStage => db.(labels := table, rejections := rejections)
  }

  /** One task's raw rows per source, its refiners, and the phase chunk size. */
  datatype Job = Job(
    taskId: string,
    selections: seq<RawRow>, odds: seq<RawRow>, labels: seq<RawRow>,
    refine: (Stage, RawRow) -> Outcome,
    chunkSize: nat)
  {
    function RowsFor(stage: Stage): seq<RawRow> {
      match stage
      case SelectionStage => selections
      case OddTaggingStage => odds
      case AutoLabelingStage => labels
    }
  }

  /** The link check of the odd tag and label phases; it is off when no
      selection id is known. */
  function Link(taskId: string, stage: Stage, valid: set<int>, o: Outcome): Outcome {
    if o.Refined? && stage != SelectionStage && valid != {} && o.row.videoId !in valid then
      Refused([Rejection(taskId, stage, UnlinkedRecord, LinkSource(o.row), VideoIdField, Message)])
    else o
  }

  function LinkSource(row: Row): SourceId {
    if row.Label? then Paired(Printed(Whole(row.videoId)), ClassName(row.objectClass))
    else Printed(Whole(row.videoId))
  }

  function RefineSingle(job: Job, stage: Stage, valid: set<int>, raw: RawRow): Outcome {
    Link(job.taskId, stage, valid, job.refine(stage, raw))
  }

  /** The outcomes of the whole stream of a stage. */
  function Outcomes(job: Job, stage: Stage, valid: set<int>, rows: seq<RawRow>): (os: seq<Outcome>)
    ensures |os| == |rows| && forall i :: 0 <= i < |rows| ==> os[i] == RefineSingle(job, stage, valid, rows[i])
  {
    seq(|rows|, i requires 0 <= i < |rows| => RefineSingle(job, stage, valid, rows[i]))
  }

  /** `find_all_ids_by_task` and its two siblings. */
  function IdsOf(table: seq<Row>, taskId: string): set<int> {
    set r | r in table && r.taskId == taskId :: r.videoId
  }

  /** The state between two stages. An unknown id set and an empty one behave
      alike, so both are `{}`. */
  datatype PipeState = PipeState(
    task: AnalyzeTask, db: Database, results: map<Stage, StageResult>, valid: set<int>)

  /** The database after a complete phase over the outcomes `os`. */
  function PhaseResult(job: Job, stage: Stage, db: Database, os: seq<Outcome>): PhaseState
    requires job.chunkSize >= 1
  {
    RunChunks(job.taskId, stage, PhaseState(TableOf(db, stage), db.rejections, 0, 0), os, job.chunkSize)
  }

  function DatabaseAfter(stage: Stage, db: Database, ps: PhaseState): Database {
    Put(db, stage, ps.table, ps.rejections)
  }

  /** Progress and checkpoint after a complete phase. */
  function TaskAfter(stage: Stage, task: AnalyzeTask, ps: PhaseState): AnalyzeTask {
    task.WithProgress(stage, StageProgress(task.ProgressFor(stage).total, ps.loaded, ps.rejected))
        .WithCompletedPhase(stage)
  }

  /** The result of a stage, as its progress tells it. */
  function ResultFrom(p: StageProgress): StageResult {
    StageResult(p.total, p.processed, p.rejected)
  }

  function Reload(job: Job, stage: Stage, st: PipeState): PipeState {
    if stage == SelectionStage then st.(valid := IdsOf(st.db.selections, job.taskId)) else st
  }

  /** One iteration of the stage loop; `None` when a refiner raises. */
  function StageStep(job: Job, stage: Stage, st: PipeState): Option<PipeState>
    requires job.chunkSize >= 1
  {
    if st.task.ShouldRunPhase(stage) then
      var os := Outcomes(job, stage, st.valid, job.RowsFor(stage));
      if !NoneRaised(os) then None
      else
        var ps := PhaseResult(job, stage, st.db, os);
        var total := st.task.ProgressFor(stage).total;
        Some(Reload(job, stage, PipeState(
          TaskAfter(stage, st.task, ps), DatabaseAfter(stage, st.db, ps),
          st.results[stage := StageResult(total, ps.loaded, ps.rejected)], st.valid)))
    else
      Some(Reload(job, stage, st.(results := st.results[stage := ResultFrom(st.task.ProgressFor(stage))])))
  }

  function RunStages(job: Job, st: PipeState, stages: seq<Stage>): Option<PipeState>
    requires job.chunkSize >= 1
    decreases |stages|
  {
    if stages == [] then Some(st)
    else
      match StageStep(job, stages[0], st)
      case None => None
      case Some(st') => RunStages(job, st', stages[1..])
  }

  function Initially(task: AnalyzeTask, db: Database): PipeState {
    PipeState(task, db, map[], {})
  }

  function RunPhases(job: Job, task: AnalyzeTask, db: Database): Option<PipeState>
    requires job.chunkSize >= 1
  {
    RunStages(job, Initially(task, db), STAGE_ORDER)
  }

  function LinkedIds(job: Job, db: Database): set<int> {
    IdsOf(db.selections, job.taskId) * IdsOf(db.oddTags, job.taskId) * IdsOf(db.labels, job.taskId)
  }

  function BuildResult(job: Job, db: Database, results: map<Stage, StageResult>): AnalysisResult
    requires SelectionStage in results && OddTaggingStage in results && AutoLabelingStage in results
  {
    AnalysisResult(results[SelectionStage], results[OddTaggingStage], results[AutoLabelingStage],
                   |LinkedIds(job, db)|, |IdsOf(db.selections, job.taskId)| - |LinkedIds(job, db)|)
  }

  lemma AllStagesHaveResults(job: Job, task: AnalyzeTask, db: Database)
    requires job.chunkSize >= 1 && RunPhases(job, task, db).Some?
    ensures forall stage: Stage :: stage in RunPhases(job, task, db).value.results
  {
    RunPhasesUnfolded(job, Initially(task, db));
    forall stage: Stage ensures stage in RunPhases(job, task, db).value.results {
      match stage
      case SelectionStage =>
      case OddTaggingStage =>
      case AutoLabelingStage =>
    }
  }

  lemma RunPhasesUnfolded(job: Job, st: PipeState)
    requires job.chunkSize >= 1
    ensures RunStages(job, st, STAGE_ORDER) ==
      match StageStep(job, SelectionStage, st)
      case None => None
      case Some(st1) =>
        match StageStep(job, OddTaggingStage, st1)
        case None => None
        case Some(st2) => StageStep(job, AutoLabelingStage, st2)
  {
    assert STAGE_ORDER[1..] == [OddTaggingStage, AutoLabelingStage];
    assert STAGE_ORDER[1..][1..] == [AutoLabelingStage];
    assert [AutoLabelingStage][1..] == [];
    if StageStep(job, SelectionStage, st).Some? {
      var st1 := StageStep(job, SelectionStage, st).value;
      assert RunStages(job, st, STAGE_ORDER) == RunStages(job, st1, [OddTaggingStage, AutoLabelingStage]);
      if StageStep(job, OddTaggingStage, st1).Some? {
        var st2 := StageStep(job, OddTaggingStage, st1).value;
        assert RunStages(job, st1, [OddTaggingStage, AutoLabelingStage]) == RunStages(job, st2, [AutoLabelingStage]);
      }
    }
  }

  /* ---- the parts of a task that retries must preserve ---- */

  /** Equal up to status, result and error text. */
  predicate SameWork(a: AnalyzeTask, b: AnalyzeTask) {
    && a.taskId == b.taskId
    && a.selectionProgress == b.selectionProgress
    && a.oddTaggingProgress == b.oddTaggingProgress
    && a.autoLabelingProgress == b.autoLabelingProgress
    && a.lastCompletedPhase == b.lastCompletedPhase
  }

  /** Equal up to the status, result and error text of the task. */
  predicate SameState(a: Option<PipeState>, b: Option<PipeState>) {
    match (a, b)
    case (None, None) => true
    case (Some(x), Some(y)) => SameWork(x.task, y.task) && x.db == y.db && x.results == y.results && x.valid == y.valid
    case _ => false
  }

  lemma SameWorkStep(job: Job, stage: Stage, a: PipeState, b: PipeState)
    requires job.chunkSize >= 1 && SameState(Some(a), Some(b))
    ensures SameState(StageStep(job, stage, a), StageStep(job, stage, b))
  {
  }

  /** Running the phases depends on nothing but progress, checkpoint and rows. */
  lemma SameWorkRuns(job: Job, a: AnalyzeTask, b: AnalyzeTask, db: Database)
    requires job.chunkSize >= 1 && SameWork(a, b)
    ensures SameState(RunPhases(job, a, db), RunPhases(job, b, db))
  {
    var sa, sb := Initially(a, db), Initially(b, db);
    RunPhasesUnfolded(job, sa);
    RunPhasesUnfolded(job, sb);
    SameWorkStep(job, SelectionStage, sa, sb);
    if StageStep(job, SelectionStage, sa).Some? {
      var sa1, sb1 := StageStep(job, SelectionStage, sa).value, StageStep(job, SelectionStage, sb).value;
      SameWorkStep(job, OddTaggingStage, sa1, sb1);
      if StageStep(job, OddTaggingStage, sa1).Some? {
        SameWorkStep(job, AutoLabelingStage, StageStep(job, OddTaggingStage, sa1).value,
          StageStep(job, OddTaggingStage, sb1).value);
      }
    }
  }
}
