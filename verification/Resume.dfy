/** Resuming, repeating and retrying the pipeline. */
module Resume {
  import opened Domain
  import opened Phase
  import opened Pipeline

  /* ---- resume from a checkpoint ---- */

  function DoneStages(k: nat): set<Stage> {
    set stage: Stage | stage.Index() < k
  }

  /** The first `k` stages are behind: the checkpoint says so, their results can
      be read off the progress, and the selection ids are those stored. */
  ghost predicate Checkpointed(job: Job, st: PipeState, k: nat) {
    && (k > 0 ==> st.task.lastCompletedPhase.Some? && st.task.lastCompletedPhase.value.Index() + 1 >= k)
    && st.results.Keys == DoneStages(k)
    && (forall stage :: stage in st.results ==> st.results[stage] == ResultFrom(st.task.ProgressFor(stage)))
    && (k > 0 ==> st.valid == IdsOf(st.db.selections, job.taskId))
  }

  lemma StepCheckpoints(job: Job, st: PipeState, k: nat)
    requires job.chunkSize >= 1 && k < 3 && Checkpointed(job, st, k)
    ensures StageStep(job, STAGE_ORDER[k], st).Some? ==>
      Checkpointed(job, StageStep(job, STAGE_ORDER[k], st).value, k + 1)
  {
    var stage := STAGE_ORDER[k];
    assert DoneStages(k + 1) == DoneStages(k) + {stage};
    if StageStep(job, stage, st).Some? {
      var st' := StageStep(job, stage, st).value;
      forall s | s in st'.results ensures st'.results[s] == ResultFrom(st'.task.ProgressFor(s)) {
        if s != stage {
          assert s in st.results;
        }
      }
    }
  }

  /** The state after the first `k` stages, if no refiner raises in them. */
  ghost function Stages(job: Job, st: PipeState, k: nat): Option<PipeState>
    requires job.chunkSize >= 1 && k <= 3
  {
    if k == 0 then Some(st)
    else
      match Stages(job, st, k - 1)
      case None => None
      case Some(mid) => StageStep(job, STAGE_ORDER[k - 1], mid)
  }

  /* ---- what one iteration of the stage loop amounts to ---- */

  lemma NextStage(job: Job, init: PipeState, i: nat, st: PipeState)
    requires job.chunkSize >= 1 && i < 3 && Stages(job, init, i) == Some(st)
    ensures Stages(job, init, i + 1) == StageStep(job, STAGE_ORDER[i], st)
  {
  }

  lemma LaterStagesFail(job: Job, init: PipeState, i: nat, k: nat)
    requires job.chunkSize >= 1 && i <= k <= 3
    ensures Stages(job, init, i).None? ==> Stages(job, init, k).None?
    decreases k
  {
    if i < k {
      LaterStagesFail(job, init, i, k - 1);
    }
  }

  lemma RanStage(job: Job, stage: Stage, st: PipeState)
    requires job.chunkSize >= 1 && st.task.ShouldRunPhase(stage)
    ensures var os := Outcomes(job, stage, st.valid, job.RowsFor(stage));
      var ps := PhaseResult(job, stage, st.db, os);
      NoneRaised(os) ==> StageStep(job, stage, st) == Some(Reload(job, stage, PipeState(
        TaskAfter(stage, st.task, ps), DatabaseAfter(stage, st.db, ps),
        st.results[stage := StageResult(st.task.ProgressFor(stage).total, ps.loaded, ps.rejected)], st.valid)))
  {
  }

  lemma RaisedStage(job: Job, stage: Stage, st: PipeState)
    requires job.chunkSize >= 1 && st.task.ShouldRunPhase(stage)
    ensures !NoneRaised(Outcomes(job, stage, st.valid, job.RowsFor(stage))) ==> StageStep(job, stage, st).None?
  {
  }

  lemma SkippedStage(job: Job, stage: Stage, st: PipeState)
    requires job.chunkSize >= 1 && !st.task.ShouldRunPhase(stage)
    ensures StageStep(job, stage, st) ==
      Some(Reload(job, stage, st.(results := st.results[stage := ResultFrom(st.task.ProgressFor(stage))])))
  {
  }

  lemma StagesAreRunPhases(job: Job, task: AnalyzeTask, db: Database)
    requires job.chunkSize >= 1
    ensures RunPhases(job, task, db) == Stages(job, Initially(task, db), 3)
  {
    var st := Initially(task, db);
    RunPhasesUnfolded(job, st);
    assert Stages(job, st, 0) == Some(st);
    assert Stages(job, st, 1) == StageStep(job, SelectionStage, st);
    if Stages(job, st, 1).Some? {
      assert Stages(job, st, 2) == StageStep(job, OddTaggingStage, Stages(job, st, 1).value);
    }
  }

  lemma {:induction false} StagesCheckpoint(job: Job, task: AnalyzeTask, db: Database, k: nat)
    requires job.chunkSize >= 1 && k <= 3 && Stages(job, Initially(task, db), k).Some?
    ensures Checkpointed(job, Stages(job, Initially(task, db), k).value, k)
  {
    if k == 0 {
      assert DoneStages(0) == {};
    } else {
      StagesCheckpoint(job, task, db, k - 1);
      StepCheckpoints(job, Stages(job, Initially(task, db), k - 1).value, k - 1);
    }
  }

  /** What a resumed run has gathered after walking past `j` finished stages. */
  function Walked(job: Job, task: AnalyzeTask, done: PipeState, j: nat): PipeState {
    PipeState(task, done.db, map stage | stage in done.results && stage.Index() < j :: done.results[stage],
              if j == 0 then {} else IdsOf(done.db.selections, job.taskId))
  }

  /** Finished stages are skipped: no row and no progress changes. */
  lemma {:induction false} FinishedStagesAreSkipped(job: Job, task: AnalyzeTask, done: PipeState, k: nat, j: nat)
    requires job.chunkSize >= 1 && j <= k <= 3 && Checkpointed(job, done, k) && SameWork(task, done.task)
    ensures Stages(job, Initially(task, done.db), j) == Some(Walked(job, task, done, j))
  {
    if j == 0 {
    } else {
      FinishedStagesAreSkipped(job, task, done, k, j - 1);
      var stage := STAGE_ORDER[j - 1];
      assert stage in DoneStages(k);
      assert !task.ShouldRunPhase(stage);
      var before, after := Walked(job, task, done, j - 1), Walked(job, task, done, j);
      assert after.results == before.results[stage := done.results[stage]];
    }
  }

  lemma {:induction false} SameFromHere(job: Job, a: PipeState, b: PipeState, k: nat, m: nat)
    requires job.chunkSize >= 1 && k <= m <= 3
    requires SameState(Stages(job, a, k), Stages(job, b, k))
    ensures SameState(Stages(job, a, m), Stages(job, b, m))
    decreases m
  {
    if m > k {
      SameFromHere(job, a, b, k, m - 1);
      if Stages(job, a, m - 1).Some? {
        SameWorkStep(job, STAGE_ORDER[m - 1], Stages(job, a, m - 1).value, Stages(job, b, m - 1).value);
      }
    }
  }

  /** Resume correctness: with the rows and the progress of the first `k`
      stages in place, a run from that checkpoint leaves the finished stages
      alone and ends exactly as the run of every stage does, with the same
      database, stage results, progress and checkpoint. */
  lemma ResumeIsARunOfEveryStage(job: Job, task: AnalyzeTask, db: Database, k: nat, resumed: AnalyzeTask)
    requires job.chunkSize >= 1 && k <= 3 && Stages(job, Initially(task, db), k).Some?
    requires SameWork(resumed, Stages(job, Initially(task, db), k).value.task)
    ensures var done := Stages(job, Initially(task, db), k).value;
      && Stages(job, Initially(resumed, done.db), k).Some?
      && Stages(job, Initially(resumed, done.db), k).value.db == done.db
      && SameState(RunPhases(job, resumed, done.db), RunPhases(job, task, db))
  {
    var done := Stages(job, Initially(task, db), k).value;
    StagesCheckpoint(job, task, db, k);
    FinishedStagesAreSkipped(job, resumed, done, k, k);
    assert Walked(job, resumed, done, k).results == done.results;
    SameFromHere(job, Initially(resumed, done.db), Initially(task, db), k, 3);
    StagesAreRunPhases(job, resumed, done.db);
    StagesAreRunPhases(job, task, db);
  }

  /* ---- one successful attempt ---- */

  /** What is durable between attempts: the stored task and the committed rows. */
  datatype World = World(task: AnalyzeTask, db: Database)

  /** The world after an attempt that completes and commits. */
  function Completed(job: Job, w: World): Option<World>
    requires job.chunkSize >= 1
  {
    match RunPhases(job, w.task.StartProcessing(), w.db)
    case None => None
    case Some(fin) =>
      AllStagesHaveResults(job, w.task.StartProcessing(), w.db);
      Some(World(fin.task.CompleteWith(BuildResult(job, fin.db, fin.results)), fin.db))
  }

  /** The same rows, progress, checkpoint and reported result. */
  predicate Unchanged(a: World, b: World) {
    b.db == a.db && SameWork(b.task, a.task) && b.task.result == a.task.result
  }

  /** `n` attempts, each of which has to succeed. */
  ghost function Repeat(attempt: World -> Option<World>, w: World, n: nat): Option<World> {
    if n == 0 then Some(w)
    else
      match Repeat(attempt, w, n - 1)
      case None => None
      case Some(w') => attempt(w')
  }

  lemma {:induction false} RepeatKeeps(attempt: World -> Option<World>, w: World, n: nat)
    requires forall x :: Unchanged(w, x) ==> attempt(x).Some? && Unchanged(w, attempt(x).value)
    ensures Repeat(attempt, w, n).Some? && Unchanged(w, Repeat(attempt, w, n).value)
  {
    if n > 0 {
      RepeatKeeps(attempt, w, n - 1);
    }
  }

  /** Delivering a message again has no effect: after a completed attempt, any
      number of further attempts complete too, change no row, no progress and
      no checkpoint, and report the same result. */
  lemma RedeliveryHasNoEffect(job: Job, w: World, n: nat)
    requires job.chunkSize >= 1
    ensures Completed(job, w).Some? ==>
      var done := Completed(job, w).value;
      var last := Repeat(x => Completed(job, x), done, n);
      last.Some? && Unchanged(done, last.value)
  {
    if Completed(job, w).Some? {
      var done := Completed(job, w).value;
      forall x | Unchanged(done, x) ensures Completed(job, x).Some? && Unchanged(done, Completed(job, x).value) {
        CompletingAgain(job, w, x);
      }
      RepeatKeeps(x => Completed(job, x), done, n);
    }
  }

  /** Whatever result the stored task shows, a further attempt reports the same. */
  lemma CompletingAgain(job: Job, w: World, done: World)
    requires job.chunkSize >= 1
    ensures Completed(job, w).Some? && FailedCleanly(Completed(job, w).value, done) ==>
      && Completed(job, done).Some? && Unchanged(Completed(job, w).value, Completed(job, done).value)
      && SameEnd(Completed(job, done), Completed(job, w))
  {
    if Completed(job, w).Some? && FailedCleanly(Completed(job, w).value, done) {
      var task := w.task.StartProcessing();
      StagesAreRunPhases(job, task, w.db);
      ResumeIsARunOfEveryStage(job, task, w.db, 3, done.task.StartProcessing());
    }
  }

  /* ---- retries ---- */

  /** An attempt that fails before or inside a phase and records the failure:
      the rows are rolled back and the FAILED save puts progress and checkpoint
      back to where the attempt found them. */
  predicate FailedCleanly(w: World, w': World) {
    w'.db == w.db && SameWork(w'.task, w.task)
  }

  /** An attempt that fails after its last phase: the rows are rolled back, but
      progress and checkpoint of the finished phases stay stored. */
  predicate FailedLate(job: Job, w: World, w': World)
    requires job.chunkSize >= 1
  {
    && RunPhases(job, w.task.StartProcessing(), w.db).Some?
    && w'.db == w.db
    && SameWork(w'.task, RunPhases(job, w.task.StartProcessing(), w.db).value.task)
  }

  /** The same end, up to the error text an earlier failure leaves behind. */
  predicate SameEnd(a: Option<World>, b: Option<World>) {
    match (a, b)
    case (None, None) => true
    case (Some(x), Some(y)) =>
      x.db == y.db && SameWork(x.task, y.task) && x.task.status == y.task.status && x.task.result == y.task.result
    case _ => false
  }

  /** Retry equivalence: after any number of clean failures, an attempt ends as
      a single uninterrupted attempt would have: the same tables, rejections,
      progress, checkpoint, status and result. */
  lemma {:induction false} RetriesEndLikeOneAttempt(job: Job, history: seq<World>)
    requires job.chunkSize >= 1 && history != []
    requires forall i :: 0 < i < |history| ==> FailedCleanly(history[i - 1], history[i])
    ensures SameEnd(Completed(job, history[|history| - 1]), Completed(job, history[0]))
    decreases |history|
  {
    var n := |history| - 1;
    if n > 0 {
      RetriesEndLikeOneAttempt(job, history[..n]);
      assert FailedCleanly(history[n - 1], history[n]);
      SameWorkRuns(job, history[n].task.StartProcessing(), history[n - 1].task.StartProcessing(), history[n].db);
    }
  }

  /** With every stage finished, a run changes nothing, whatever the rows are. */
  lemma SkippingKeepsAnyDatabase(job: Job, task: AnalyzeTask, done: PipeState, db: Database)
    requires job.chunkSize >= 1 && Checkpointed(job, done, 3) && SameWork(task, done.task)
    ensures RunPhases(job, task, db) == Some(PipeState(task, db, done.results, IdsOf(db.selections, job.taskId)))
  {
    var st := Initially(task, db);
    RunPhasesUnfolded(job, st);
    assert done.results.Keys == DoneStages(3);
    var r := st.results[SelectionStage := done.results[SelectionStage]]
      [OddTaggingStage := done.results[OddTaggingStage]][AutoLabelingStage := done.results[AutoLabelingStage]];
    forall stage: Stage ensures stage in r && stage in done.results {
      match stage case SelectionStage => case OddTaggingStage => case AutoLabelingStage =>
    }
    assert r == done.results;
  }
}
