/** Attempts that fail or crash anywhere. The checkpoint is stored at once and the
    rows only on commit, so an attempt that ends between two phases leaves a
    checkpoint ahead of its rows. What a later attempt makes of that, exactly. */
module Interruption {
  import opened Domain
  import opened Tables
  import opened Phase
  import opened Pipeline
  import opened Resume
  import opened LateFailure

  /** An attempt on `w` that stored the first `k` stages' checkpoint and progress
      and lost all its rows. Zero stages is a clean failure, three a late one;
      a crash of the worker can leave any number. */
  ghost predicate FailedAt(job: Job, w: World, w': World, k: nat)
    requires job.chunkSize >= 1 && k <= 3
  {
    var done := Stages(job, Initially(w.task.StartProcessing(), w.db), k);
    done.Some? && w'.db == w.db && SameWork(w'.task, done.value.task)
  }

  ghost predicate FailedSomewhere(job: Job, w: World, w': World)
    requires job.chunkSize >= 1
  {
    exists k: nat :: k <= 3 && FailedAt(job, w, w', k)
  }

  lemma CleanAndLateFailures(job: Job, w: World, w': World)
    requires job.chunkSize >= 1
    ensures FailedAt(job, w, w', 0) <==> FailedCleanly(w, w')
    ensures FailedAt(job, w, w', 3) <==> FailedLate(job, w, w')
  {
    StagesAreRunPhases(job, w.task.StartProcessing(), w.db);
    hide RunPhases;
    assert Stages(job, Initially(w.task.StartProcessing(), w.db), 0) == Some(Initially(w.task.StartProcessing(), w.db));
  }

  /* ---- when a phase raises ---- */

  /** A raw row of this stage makes its refiner raise. */
  ghost predicate StageRaises(job: Job, stage: Stage) {
    exists raw :: raw in job.RowsFor(stage) && job.refine(stage, raw).Raised?
  }

  /** Some stage that the task still has to run raises. */
  ghost predicate RowRaises(job: Job, task: AnalyzeTask) {
    exists stage: Stage :: task.ShouldRunPhase(stage) && StageRaises(job, stage)
  }

  lemma RaisesExactly(job: Job, stage: Stage, valid: set<int>)
    ensures NoneRaised(Outcomes(job, stage, valid, job.RowsFor(stage))) <==> !StageRaises(job, stage)
  {
    var rows := job.RowsFor(stage);
    var os := Outcomes(job, stage, valid, rows);
    if raw :| raw in rows && job.refine(stage, raw).Raised? {
      var i :| 0 <= i < |rows| && rows[i] == raw;
      assert os[i] in os;
    }
    if o :| o in os && o.Raised? {
      var i :| 0 <= i < |os| && os[i] == o;
      assert rows[i] in rows;
    }
  }

  lemma StageFailsExactly(job: Job, stage: Stage, st: PipeState)
    requires job.chunkSize >= 1
    ensures StageStep(job, stage, st).None? <==> st.task.ShouldRunPhase(stage) && StageRaises(job, stage)
  {
    RaisesExactly(job, stage, st.valid);
    hide NoneRaised, StageRaises, PhaseResult, Outcomes;
  }

  /* ---- what a task remembers of the stages behind it ---- */

  /** `t` agrees with `a` about the stages from the `i`-th on. */
  ghost predicate Tracks(i: nat, a: AnalyzeTask, t: AnalyzeTask) {
    && t.taskId == a.taskId
    && forall stage: Stage :: stage.Index() >= i ==>
         t.ProgressFor(stage) == a.ProgressFor(stage) && t.ShouldRunPhase(stage) == a.ShouldRunPhase(stage)
  }

  lemma TracksStep(job: Job, a: AnalyzeTask, stage: Stage, st: PipeState)
    requires job.chunkSize >= 1 && Tracks(stage.Index(), a, st.task) && StageStep(job, stage, st).Some?
    ensures Tracks(stage.Index() + 1, a, StageStep(job, stage, st).value.task)
  {
    hide PhaseResult, Outcomes, NoneRaised;
  }

  /** `b` is `a` with some stages behind it: what it skips ran without raising, and
      its progress shows it. */
  ghost predicate Ahead(job: Job, a: AnalyzeTask, b: AnalyzeTask) {
    && b.taskId == a.taskId
    && forall stage: Stage :: AheadIn(job, a, b, stage)
  }

  ghost predicate AheadIn(job: Job, a: AnalyzeTask, b: AnalyzeTask, stage: Stage) {
    && (b.ShouldRunPhase(stage) ==> a.ShouldRunPhase(stage))
    && (a.ShouldRunPhase(stage) == b.ShouldRunPhase(stage) ==> b.ProgressFor(stage) == a.ProgressFor(stage))
    && (a.ShouldRunPhase(stage) && !b.ShouldRunPhase(stage) ==>
          && !StageRaises(job, stage)
          && b.ProgressFor(stage).total == a.ProgressFor(stage).total
          && (job.RowsFor(stage) == [] ==> b.ProgressFor(stage) == StageProgress(a.ProgressFor(stage).total, 0, 0)))
  }

  lemma AheadTransitive(job: Job, a: AnalyzeTask, b: AnalyzeTask, c: AnalyzeTask)
    requires Ahead(job, a, b) && Ahead(job, b, c)
    ensures Ahead(job, a, c)
  {
    hide StageRaises;
    forall stage: Stage ensures AheadIn(job, a, c, stage) {
      assert AheadIn(job, a, b, stage) && AheadIn(job, b, c, stage);
    }
  }

  lemma AheadOfItself(job: Job, a: AnalyzeTask, b: AnalyzeTask)
    requires SameWork(a, b)
    ensures Ahead(job, a, b)
  {
    forall stage: Stage ensures AheadIn(job, a, b, stage) {
    }
  }

  lemma AheadOfRun(job: Job, stage: Stage, t: AnalyzeTask, ps: PhaseState)
    requires t.ShouldRunPhase(stage) && forall x: Stage :: x.Index() < stage.Index() ==> !t.ShouldRunPhase(x)
    requires !StageRaises(job, stage)
    requires job.RowsFor(stage) == [] ==> ps.loaded == 0 && ps.rejected == 0
    ensures Ahead(job, t, TaskAfter(stage, t, ps))
  {
    hide StageRaises;
    forall x: Stage ensures AheadIn(job, t, TaskAfter(stage, t, ps), x) {
    }
  }

  /** Running one more stage gets ahead by it. */
  lemma AheadStep(job: Job, stage: Stage, st: PipeState)
    requires job.chunkSize >= 1 && StageStep(job, stage, st).Some?
    requires forall x: Stage :: x.Index() < stage.Index() ==> !st.task.ShouldRunPhase(x)
    ensures Ahead(job, st.task, StageStep(job, stage, st).value.task)
  {
    StageFailsExactly(job, stage, st);
    if st.task.ShouldRunPhase(stage) {
      var os := Outcomes(job, stage, st.valid, job.RowsFor(stage));
      assert job.RowsFor(stage) == [] ==> os == [];
      hide RunChunks, Outcomes, NoneRaised, StageRaises, PhaseResult, Ahead, AnalyzeTask.ShouldRunPhase;
      EmptyStream(job, stage, st.db, os);
      AheadOfRun(job, stage, st.task, PhaseResult(job, stage, st.db, os));
    } else {
      AheadOfItself(job, st.task, StageStep(job, stage, st).value.task);
    }
  }

  lemma EmptyStream(job: Job, stage: Stage, db: Database, os: seq<Outcome>)
    requires job.chunkSize >= 1
    ensures os == [] ==> PhaseResult(job, stage, db, os) == PhaseState(TableOf(db, stage), db.rejections, 0, 0)
  {
  }

  lemma {:induction false} StagesGetAhead(job: Job, task: AnalyzeTask, db: Database, k: nat)
    requires job.chunkSize >= 1 && k <= 3 && Stages(job, Initially(task, db), k).Some?
    ensures Ahead(job, task, Stages(job, Initially(task, db), k).value.task)
  {
    hide StageStep, Ahead;
    if k == 0 {
      AheadOfItself(job, task, task);
    } else {
      StagesGetAhead(job, task, db, k - 1);
      var mid := Stages(job, Initially(task, db), k - 1).value;
      StagesCheckpoint(job, task, db, k - 1);
      AheadStep(job, STAGE_ORDER[k - 1], mid);
      AheadTransitive(job, task, mid.task, StageStep(job, STAGE_ORDER[k - 1], mid).value.task);
    }
  }

  lemma FailureGetsAhead(job: Job, w: World, w': World)
    requires job.chunkSize >= 1 && FailedSomewhere(job, w, w')
    ensures Ahead(job, w.task, w'.task) && w'.db == w.db
  {
    var k: nat :| k <= 3 && FailedAt(job, w, w', k);
    var start := w.task.StartProcessing();
    var done := Stages(job, Initially(start, w.db), k).value.task;
    StagesGetAhead(job, start, w.db, k);
    AheadOfItself(job, w.task, start);
    AheadOfItself(job, done, w'.task);
    hide Ahead;
    AheadTransitive(job, w.task, start, done);
    AheadTransitive(job, w.task, done, w'.task);
  }

  /* ---- two runs side by side ---- */

  /** `a` runs this stage over raw rows, and `b` takes it for finished. */
  predicate LosesStage(job: Job, a: AnalyzeTask, b: AnalyzeTask, stage: Stage) {
    a.ShouldRunPhase(stage) && !b.ShouldRunPhase(stage) && job.RowsFor(stage) != []
  }

  ghost predicate LosesBefore(job: Job, a: AnalyzeTask, b: AnalyzeTask, i: nat) {
    exists stage: Stage :: stage.Index() < i && LosesStage(job, a, b, stage)
  }

  /** Some stage that is behind `b`, but not behind `a`, has raw rows. */
  ghost predicate LosesRows(job: Job, a: AnalyzeTask, b: AnalyzeTask) {
    exists stage: Stage :: LosesStage(job, a, b, stage)
  }

  /** The databases differ for good once the first `i` stages are over: in a table
      of these, or, with equal tables, by more records in the first. */
  ghost predicate Diverged(i: nat, x: Database, y: Database) {
    || (exists stage: Stage :: stage.Index() < i && TableOf(x, stage) != TableOf(y, stage))
    || (SameTables(x, y) && |x.rejections| > |y.rejections|)
  }

  predicate SameTables(x: Database, y: Database) {
    x.selections == y.selections && x.oddTags == y.oddTags && x.labels == y.labels
  }

  /** The run of `t` over `db` after `i` stages: the later tables are untouched. */
  ghost predicate RunSoFar(job: Job, t: AnalyzeTask, db: Database, i: nat, st: PipeState) {
    && Tracks(i, t, st.task)
    && st.valid == (if i == 0 then {} else IdsOf(st.db.selections, job.taskId))
    && forall stage: Stage :: stage.Index() >= i ==> TableOf(st.db, stage) == TableOf(db, stage)
  }

  /** How the runs of `a` and of `b` compare after `i` stages. */
  ghost predicate Twins(job: Job, a: AnalyzeTask, b: AnalyzeTask, i: nat, x: PipeState, y: PipeState) {
    if LosesBefore(job, a, b, i) then Diverged(i, x.db, y.db) else AlikeBefore(i, x, y)
  }

  ghost predicate AlikeBefore(i: nat, x: PipeState, y: PipeState) {
    && x.db == y.db && x.results == y.results
    && forall stage: Stage :: stage.Index() < i ==> x.task.ProgressFor(stage) == y.task.ProgressFor(stage)
  }

  /** The records a stream adds do not depend on those that are there. */
  lemma {:induction false} RecordsAddAlike(
      taskId: string, stage: Stage, x: PhaseState, y: PhaseState, os: seq<Outcome>, size: nat)
    requires size >= 1 && x.table == y.table
    ensures var x', y' := RunChunks(taskId, stage, x, os, size), RunChunks(taskId, stage, y, os, size);
      x'.table == y'.table && |x'.rejections| - |x.rejections| == |y'.rejections| - |y.rejections|
    decreases |os|
  {
    if os == [] {
    } else {
      var k := Min(size, |os|);
      var x', y' := ChunkStep(taskId, stage, x, os[..k]), ChunkStep(taskId, stage, y, os[..k]);
      RecordsAddAlike(taskId, stage, x', y', os[k..], size);
    }
  }

  lemma RunSoFarStep(job: Job, t: AnalyzeTask, db: Database, stage: Stage, st: PipeState)
    requires job.chunkSize >= 1 && RunSoFar(job, t, db, stage.Index(), st) && StageStep(job, stage, st).Some?
    ensures RunSoFar(job, t, db, stage.Index() + 1, StageStep(job, stage, st).value)
  {
    TracksStep(job, t, stage, st);
    hide Tracks, RunChunks, Outcomes, NoneRaised;
  }

  /** The phase `stage` of a run: what it makes of the database. */
  ghost function Ran(job: Job, stage: Stage, db: Database, valid: set<int>): PhaseState
    requires job.chunkSize >= 1
  {
    PhaseResult(job, stage, db, Outcomes(job, stage, valid, job.RowsFor(stage)))
  }

  lemma EarlierTablesStay(i: nat, x: Database, y: Database, x': Database, y': Database)
    requires exists s: Stage :: s.Index() < i && TableOf(x, s) != TableOf(y, s)
    requires forall s: Stage :: s.Index() < i ==> TableOf(x', s) == TableOf(x, s) && TableOf(y', s) == TableOf(y, s)
    ensures Diverged(i + 1, x', y')
  {
    var s: Stage :| s.Index() < i && TableOf(x, s) != TableOf(y, s);
    assert TableOf(x', s) != TableOf(y', s);
  }

  lemma DivergedBothRun(job: Job, stage: Stage, x: Database, vx: set<int>, y: Database, vy: set<int>)
    requires job.chunkSize >= 1 && Diverged(stage.Index(), x, y)
    requires x.selections == y.selections ==> vx == vy
    ensures Diverged(stage.Index() + 1, DatabaseAfter(stage, x, Ran(job, stage, x, vx)),
                     DatabaseAfter(stage, y, Ran(job, stage, y, vy)))
  {
    hide RunChunks, Outcomes;
    var px, py := Ran(job, stage, x, vx), Ran(job, stage, y, vy);
    if exists s: Stage :: s.Index() < stage.Index() && TableOf(x, s) != TableOf(y, s) {
      EarlierTablesStay(stage.Index(), x, y, DatabaseAfter(stage, x, px), DatabaseAfter(stage, y, py));
    } else {
      RecordsAddAlike(job.taskId, stage, PhaseState(TableOf(x, stage), x.rejections, 0, 0),
                      PhaseState(TableOf(y, stage), y.rejections, 0, 0), Outcomes(job, stage, vx, job.RowsFor(stage)),
                      job.chunkSize);
    }
  }

  /** A stage that only the first run executes, over some rows. */
  lemma DivergedByOne(job: Job, stage: Stage, x: Database, vx: set<int>, y: Database)
    requires job.chunkSize >= 1 && RefusalsAreRecorded(job) && job.RowsFor(stage) != [] && !StageRaises(job, stage)
    requires x == y || Diverged(stage.Index(), x, y)
    ensures Diverged(stage.Index() + 1, DatabaseAfter(stage, x, Ran(job, stage, x, vx)), y)
  {
    var os, px := Outcomes(job, stage, vx, job.RowsFor(stage)), Ran(job, stage, x, vx);
    if exists s: Stage :: s.Index() < stage.Index() && TableOf(x, s) != TableOf(y, s) {
      hide RunChunks, Outcomes;
      EarlierTablesStay(stage.Index(), x, y, DatabaseAfter(stage, x, px), y);
    } else {
      RaisesExactly(job, stage, vx);
      assert AllRecorded(os);
      StreamLeavesATrace(job.taskId, stage, PhaseState(TableOf(x, stage), x.rejections, 0, 0), os, job.chunkSize);
      hide RunChunks, Outcomes;
      if px.table != TableOf(y, stage) {
        assert TableOf(DatabaseAfter(stage, x, px), stage) != TableOf(y, stage);
      }
    }
  }

  lemma LosesOneMore(job: Job, a: AnalyzeTask, b: AnalyzeTask, stage: Stage)
    ensures LosesBefore(job, a, b, stage.Index() + 1) <==>
      LosesBefore(job, a, b, stage.Index()) || LosesStage(job, a, b, stage)
  {
    assert forall s: Stage :: s.Index() < stage.Index() + 1 <==> s.Index() < stage.Index() || s == stage;
    hide LosesStage;
  }

  /** Database, results and progress after one stage. */
  lemma StepEffect(job: Job, stage: Stage, st: PipeState)
    requires job.chunkSize >= 1 && StageStep(job, stage, st).Some?
    ensures var st', run := StageStep(job, stage, st).value, st.task.ShouldRunPhase(stage);
      var ps, p := Ran(job, stage, st.db, st.valid), st.task.ProgressFor(stage);
      var p' := if run then StageProgress(p.total, ps.loaded, ps.rejected) else p;
      && st'.db == (if run then DatabaseAfter(stage, st.db, ps) else st.db)
      && st'.results == st.results[stage := ResultFrom(p')]
      && forall x: Stage :: st'.task.ProgressFor(x) == if x == stage then p' else st.task.ProgressFor(x)
  {
    hide PhaseResult, Outcomes, NoneRaised;
  }

  lemma RanOverNothing(job: Job, stage: Stage, db: Database, valid: set<int>)
    requires job.chunkSize >= 1 && job.RowsFor(stage) == []
    ensures Ran(job, stage, db, valid) == PhaseState(TableOf(db, stage), db.rejections, 0, 0)
    ensures DatabaseAfter(stage, db, Ran(job, stage, db, valid)) == db
  {
    assert Outcomes(job, stage, valid, job.RowsFor(stage)) == [];
  }

  lemma LaterDiverged(i: nat, x: Database, y: Database)
    requires Diverged(i, x, y)
    ensures Diverged(i + 1, x, y)
  {
    if s: Stage :| s.Index() < i && TableOf(x, s) != TableOf(y, s) {
      assert s.Index() < i + 1;
    }
  }

  lemma TwinsDiverge(job: Job, a: AnalyzeTask, b: AnalyzeTask, db: Database, stage: Stage, x: PipeState, y: PipeState)
    requires job.chunkSize >= 1 && RefusalsAreRecorded(job) && AheadIn(job, a, b, stage)
    requires RunSoFar(job, a, db, stage.Index(), x) && RunSoFar(job, b, db, stage.Index(), y)
    requires if LosesBefore(job, a, b, stage.Index()) then Diverged(stage.Index(), x.db, y.db)
             else LosesStage(job, a, b, stage) && x.db == y.db
    requires StageStep(job, stage, x).Some? && StageStep(job, stage, y).Some?
    ensures Diverged(stage.Index() + 1, StageStep(job, stage, x).value.db, StageStep(job, stage, y).value.db)
  {
    hide StageStep, Ran, RefusalsAreRecorded, StageRaises, Diverged, LosesBefore;
    StepEffect(job, stage, x);
    StepEffect(job, stage, y);
    var i := stage.Index();
    assert x.task.ShouldRunPhase(stage) == a.ShouldRunPhase(stage) &&
      y.task.ShouldRunPhase(stage) == b.ShouldRunPhase(stage);
    if !a.ShouldRunPhase(stage) {
      LaterDiverged(i, x.db, y.db);
    } else if b.ShouldRunPhase(stage) {
      DivergedBothRun(job, stage, x.db, x.valid, y.db, y.valid);
    } else if job.RowsFor(stage) == [] {
      RanOverNothing(job, stage, x.db, x.valid);
      LaterDiverged(i, x.db, y.db);
    } else {
      DivergedByOne(job, stage, x.db, x.valid, y.db);
    }
  }

  lemma TwinsStayAlike(job: Job, a: AnalyzeTask, b: AnalyzeTask, db: Database, stage: Stage, x: PipeState, y: PipeState)
    requires job.chunkSize >= 1 && AheadIn(job, a, b, stage) && !LosesStage(job, a, b, stage)
    requires RunSoFar(job, a, db, stage.Index(), x) && RunSoFar(job, b, db, stage.Index(), y)
    requires AlikeBefore(stage.Index(), x, y)
    requires StageStep(job, stage, x).Some? && StageStep(job, stage, y).Some?
    ensures AlikeBefore(stage.Index() + 1, StageStep(job, stage, x).value, StageStep(job, stage, y).value)
  {
    hide StageStep, Ran, StageRaises;
    StepEffect(job, stage, x);
    StepEffect(job, stage, y);
    assert x.task.ShouldRunPhase(stage) == a.ShouldRunPhase(stage) &&
      y.task.ShouldRunPhase(stage) == b.ShouldRunPhase(stage);
    if job.RowsFor(stage) == [] {
      RanOverNothing(job, stage, x.db, x.valid);
    }
  }

  /** One more stage, whichever of the runs execute it. */
  lemma TwinsStep(job: Job, a: AnalyzeTask, b: AnalyzeTask, db: Database, stage: Stage, x: PipeState, y: PipeState)
    requires job.chunkSize >= 1 && RefusalsAreRecorded(job) && Ahead(job, a, b)
    requires RunSoFar(job, a, db, stage.Index(), x) && RunSoFar(job, b, db, stage.Index(), y)
    requires Twins(job, a, b, stage.Index(), x, y)
    requires StageStep(job, stage, x).Some? && StageStep(job, stage, y).Some?
    ensures Twins(job, a, b, stage.Index() + 1, StageStep(job, stage, x).value, StageStep(job, stage, y).value)
  {
    StageFailsExactly(job, stage, x);
    assert AheadIn(job, a, b, stage);
    LosesOneMore(job, a, b, stage);
    hide Ahead, RefusalsAreRecorded, StageRaises;
    if LosesBefore(job, a, b, stage.Index() + 1) {
      TwinsDiverge(job, a, b, db, stage, x, y);
    } else {
      TwinsStayAlike(job, a, b, db, stage, x, y);
    }
  }

  lemma {:induction false} TwinRuns(job: Job, a: AnalyzeTask, b: AnalyzeTask, db: Database, i: nat)
    requires job.chunkSize >= 1 && RefusalsAreRecorded(job) && Ahead(job, a, b) && i <= 3
    requires Stages(job, Initially(a, db), i).Some? && Stages(job, Initially(b, db), i).Some?
    ensures var x, y := Stages(job, Initially(a, db), i).value, Stages(job, Initially(b, db), i).value;
      RunSoFar(job, a, db, i, x) && RunSoFar(job, b, db, i, y) && Twins(job, a, b, i, x, y)
  {
    hide StageStep, Ahead, RefusalsAreRecorded;
    if i == 0 {
    } else {
      TwinRuns(job, a, b, db, i - 1);
      var stage := STAGE_ORDER[i - 1];
      var x, y := Stages(job, Initially(a, db), i - 1).value, Stages(job, Initially(b, db), i - 1).value;
      hide RunSoFar, Twins;
      RunSoFarStep(job, a, db, stage, x);
      RunSoFarStep(job, b, db, stage, y);
      TwinsStep(job, a, b, db, stage, x, y);
    }
  }

  /* ---- how an attempt ends ---- */

  ghost predicate RaisesBefore(job: Job, task: AnalyzeTask, i: nat) {
    exists stage: Stage :: stage.Index() < i && task.ShouldRunPhase(stage) && StageRaises(job, stage)
  }

  lemma {:induction false} StagesFailExactly(job: Job, task: AnalyzeTask, db: Database, i: nat)
    requires job.chunkSize >= 1 && i <= 3
    ensures Stages(job, Initially(task, db), i).None? <==> RaisesBefore(job, task, i)
    ensures Stages(job, Initially(task, db), i).Some? ==>
      Tracks(i, task, Stages(job, Initially(task, db), i).value.task)
    decreases i
  {
    hide StageStep, StageRaises;
    if i == 0 {
    } else {
      StagesFailExactly(job, task, db, i - 1);
      var stage := STAGE_ORDER[i - 1];
      assert forall s: Stage :: s.Index() < i <==> s.Index() < i - 1 || s == stage;
      if Stages(job, Initially(task, db), i - 1).Some? {
        var mid := Stages(job, Initially(task, db), i - 1).value;
        StageFailsExactly(job, stage, mid);
        if StageStep(job, stage, mid).Some? {
          TracksStep(job, task, stage, mid);
        }
      }
    }
  }

  /** The phases fail if and only if some raw row of a stage that is still to run
      makes its refiner raise: rows, checkpoint and link check have no say. */
  lemma PhasesFailExactly(job: Job, task: AnalyzeTask, db: Database)
    requires job.chunkSize >= 1
    ensures RunPhases(job, task, db).None? <==> RowRaises(job, task)
  {
    StagesAreRunPhases(job, task, db);
    StagesFailExactly(job, task, db, 3);
    hide RunPhases, Stages, StageRaises;
    assert forall stage: Stage :: stage.Index() < 3;
  }

  lemma RaisesAlike(job: Job, a: AnalyzeTask, b: AnalyzeTask)
    requires Ahead(job, a, b)
    ensures RowRaises(job, a) <==> RowRaises(job, b)
  {
    hide StageRaises;
    if stage: Stage :| a.ShouldRunPhase(stage) && StageRaises(job, stage) {
      assert AheadIn(job, a, b, stage);
    }
    if stage: Stage :| b.ShouldRunPhase(stage) && StageRaises(job, stage) {
      assert AheadIn(job, a, b, stage);
    }
  }

  /** The last checkpoint is that of the last stage, however the run began. */
  lemma EndsAtLastStage(job: Job, task: AnalyzeTask, db: Database)
    requires job.chunkSize >= 1 && Stages(job, Initially(task, db), 3).Some?
    ensures Stages(job, Initially(task, db), 3).value.task.lastCompletedPhase == Some(AutoLabelingStage)
  {
    StagesCheckpoint(job, task, db, 3);
    hide Stages;
  }

  /** Two runs that complete: with the same rows, progress, checkpoint and results,
      or with different rows. */
  lemma TwinEnds(job: Job, a: AnalyzeTask, b: AnalyzeTask, db: Database)
    requires job.chunkSize >= 1 && RefusalsAreRecorded(job) && Ahead(job, a, b)
    requires RunPhases(job, a, db).Some? && RunPhases(job, b, db).Some?
    ensures var x, y := RunPhases(job, a, db).value, RunPhases(job, b, db).value;
      if LosesRows(job, a, b) then x.db != y.db else x.db == y.db && x.results == y.results && SameWork(x.task, y.task)
  {
    StagesAreRunPhases(job, a, db);
    StagesAreRunPhases(job, b, db);
    hide RunPhases, RefusalsAreRecorded;
    TwinRuns(job, a, b, db, 3);
    EndsAtLastStage(job, a, db);
    EndsAtLastStage(job, b, db);
    hide Stages, LosesStage, AheadIn;
    assert forall stage: Stage :: stage.Index() < 3;
    assert LosesRows(job, a, b) <==> LosesBefore(job, a, b, 3);
    var x, y := RunPhases(job, a, db).value, RunPhases(job, b, db).value;
    if !LosesRows(job, a, b) {
      assert forall stage: Stage :: x.task.ProgressFor(stage) == y.task.ProgressFor(stage);
      assert x.task.ProgressFor(SelectionStage) == y.task.ProgressFor(SelectionStage);
      assert x.task.ProgressFor(OddTaggingStage) == y.task.ProgressFor(OddTaggingStage);
      assert x.task.ProgressFor(AutoLabelingStage) == y.task.ProgressFor(AutoLabelingStage);
    }
  }

  lemma StartingChangesNothing(job: Job, a: AnalyzeTask, b: AnalyzeTask)
    requires Ahead(job, a, b)
    ensures Ahead(job, a.StartProcessing(), b.StartProcessing())
    ensures RowRaises(job, a.StartProcessing()) <==> RowRaises(job, a)
    ensures LosesRows(job, a.StartProcessing(), b.StartProcessing()) <==> LosesRows(job, a, b)
  {
    AheadOfItself(job, a.StartProcessing(), a);
    AheadOfItself(job, b, b.StartProcessing());
    AheadTransitive(job, a.StartProcessing(), a, b);
    AheadTransitive(job, a.StartProcessing(), b, b.StartProcessing());
    hide Ahead, StageRaises;
    forall stage: Stage
      ensures LosesStage(job, a.StartProcessing(), b.StartProcessing(), stage) <==> LosesStage(job, a, b, stage) {}
  }

  lemma EndsAlikeExactly(job: Job, a: AnalyzeTask, b: AnalyzeTask, db: Database)
    requires job.chunkSize >= 1 && RefusalsAreRecorded(job) && Ahead(job, a, b)
    ensures SameEnd(Completed(job, World(b, db)), Completed(job, World(a, db))) <==>
      RowRaises(job, a) || !LosesRows(job, a, b)
  {
    hide RunPhases, Ahead, RefusalsAreRecorded, RowRaises, LosesRows, BuildResult;
    var a', b' := a.StartProcessing(), b.StartProcessing();
    StartingChangesNothing(job, a, b);
    RaisesAlike(job, a', b');
    PhasesFailExactly(job, a', db);
    PhasesFailExactly(job, b', db);
    if !RowRaises(job, a) {
      TwinEnds(job, a', b', db);
      AllStagesHaveResults(job, a', db);
      AllStagesHaveResults(job, b', db);
    }
  }

  /** Attempts that failed or crashed, one after the other. */
  ghost predicate Failures(job: Job, history: seq<World>)
    requires job.chunkSize >= 1
  {
    forall i :: 0 < i < |history| ==> FailedSomewhere(job, history[i - 1], history[i])
  }

  lemma {:induction false} FailuresGetAhead(job: Job, history: seq<World>)
    requires job.chunkSize >= 1 && history != [] && Failures(job, history)
    ensures var first, last := history[0], history[|history| - 1];
      Ahead(job, first.task, last.task) && last.db == first.db
    decreases |history|
  {
    hide Ahead, FailedSomewhere;
    var n := |history| - 1;
    if n == 0 {
      AheadOfItself(job, history[0].task, history[0].task);
    } else {
      var before := history[..n];
      forall i | 0 < i < |before| ensures FailedSomewhere(job, before[i - 1], before[i]) {
        assert FailedSomewhere(job, history[i - 1], history[i]);
      }
      FailuresGetAhead(job, before);
      assert FailedSomewhere(job, history[n - 1], history[n]);
      FailureGetsAhead(job, history[n - 1], history[n]);
      AheadTransitive(job, history[0].task, history[n - 1].task, history[n].task);
    }
  }

  /** Retries, exactly: after any number of attempts that failed or crashed
      anywhere, the next attempt ends as a single uninterrupted one would have,
      with the same rows, progress, checkpoint, status and result, if and only if
      that one would fail too, or no stage with raw rows has been left behind the
      checkpoint meanwhile. */
  lemma InterruptedRetriesEndExactly(job: Job, history: seq<World>)
    requires job.chunkSize >= 1 && RefusalsAreRecorded(job) && history != [] && Failures(job, history)
    ensures var first, last := history[0], history[|history| - 1];
      SameEnd(Completed(job, last), Completed(job, first)) <==>
        RowRaises(job, first.task) || !LosesRows(job, first.task, last.task)
  {
    var first, last := history[0], history[|history| - 1];
    FailuresGetAhead(job, history);
    hide Failures, Ahead, Completed, RefusalsAreRecorded, RowRaises, LosesRows, SameEnd;
    EndsAlikeExactly(job, first.task, last.task, first.db);
    assert last == World(last.task, first.db) && first == World(first.task, first.db);
  }
}
