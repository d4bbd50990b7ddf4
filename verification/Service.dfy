/** One delivery of an analysis task: the stage loop, success and failure of an
    attempt, commit and rollback, and the retries. */
module Service {
  import opened Domain
  import opened Tables
  import opened Pipeline
  import opened Resume
  import opened LateFailure
  import opened Interruption
  import opened Reporting
  import opened Worker

  /** How `execute` ends. `Late` is a failure after the last phase;
      `Unrecorded` one whose FAILED save failed as well, which is also all that a
      crash of the worker leaves behind. */
  datatype Ending = Finished | Clean(error: Error) | Late(error: Error) | Unrecorded

  class PipelineService {
    const job: Job
    const session: MySqlSession
    const taskRepo: TaskRepository

    constructor (job: Job, session: MySqlSession, taskRepo: TaskRepository)
      ensures this.job == job && this.session == session && this.taskRepo == taskRepo
    {
      this.job, this.session, this.taskRepo := job, session, taskRepo;
    }

    predicate Ready()
      reads session, taskRepo
    {
      && job.chunkSize >= 1 && session.sqlChunkSize >= 1
      && forall id :: id in taskRepo.tasks ==> taskRepo.tasks[id].taskId == id
    }

    /** The operations that have not been answered, on either server. */
    ghost function Failures(): nat
      reads session, taskRepo
    {
      session.failures + taskRepo.failures
    }

    /** The stage loop. Wherever it fails, the stored task is that of some first
        stages. */
    method RunStageLoop(start: AnalyzeTask) returns (r: Try<(map<Stage, StageResult>, AnalyzeTask)>)
      requires Ready() && start.taskId == job.taskId
      requires job.taskId in taskRepo.tasks && taskRepo.tasks[job.taskId] == start
      modifies session`working, session`failures, taskRepo
      ensures OthersKept(old(taskRepo.tasks), taskRepo.tasks, job.taskId)
      ensures Failures() >= old(Failures())
      ensures Failures() == old(Failures()) ==> (r.Ok? <==> RunPhases(job, start, old(session.working)).Some?)
      ensures r.Ok? ==>
        var fin := RunPhases(job, start, old(session.working));
        && fin.Some? && fin.value.db == session.working
        && r.value == (fin.value.results, fin.value.task) && r.value.1.taskId == job.taskId
        && taskRepo.tasks[job.taskId] == r.value.1
      ensures r.Threw? ==>
        && (RunPhases(job, start, old(session.working)).None? || r.error == OtherError)
        && Reached(job, start, old(session.working), taskRepo.tasks[job.taskId])
    {
      ghost var init := Initially(start, session.working);
      var task, results, ids := start, map[], {};
      StagesAreRunPhases(job, start, session.working);
      KeptByNobody(taskRepo.tasks, job.taskId);
      hide Stages, StageStep, RunPhases, PhaseResult, PartlyWritten, TaskAfter, Reached, Outcomes, OthersKept;
      for i := 0 to |STAGE_ORDER|
        invariant task.taskId == job.taskId && OthersKept(old(taskRepo.tasks), taskRepo.tasks, job.taskId)
        invariant job.taskId in taskRepo.tasks && taskRepo.tasks[job.taskId] == task
        invariant Failures() >= old(Failures())
        invariant Stages(job, init, i) == Some(PipeState(task, session.working, results, ids))
      {
        var stage := STAGE_ORDER[i];
        ghost var before := PipeState(task, session.working, results, ids);
        NextStage(job, init, i, before);
        if task.ShouldRunPhase(stage) {
          var runner := new PhaseRunner(job, stage, session, taskRepo);
          ghost var tasks := taskRepo.tasks;
          var ran := runner.Run(task, ids);
          KeptTwice(old(taskRepo.tasks), tasks, taskRepo.tasks, job.taskId);
          if ran.Threw? {
            StageThrew(job, start, init.db, i, before, taskRepo.tasks[job.taskId]);
            return Threw(ran.error);
          }
          RanStage(job, stage, before);
          results, task := results[stage := ran.value.0], ran.value.1;
        } else {
          SkippedStage(job, stage, before);
          var progress := task.ProgressFor(stage);
          results := results[stage := StageResult(progress.total, progress.processed, progress.rejected)];
        }
        if stage == SelectionStage {
          var found := session.FindIds(SelectionStage, job.taskId);
          if found.Threw? {
            StoppedAfter(job, start, init.db, i + 1, taskRepo.tasks[job.taskId]);
            return Threw(found.error);
          }
          ids := found.value;
        }
      }
      r := Ok((results, task));
    }

    method CollectResult(results: map<Stage, StageResult>) returns (r: Try<AnalysisResult>)
      requires forall stage: Stage :: stage in results
      modifies session`failures
      ensures session.failures == old(session.failures) + if r.Ok? then 0 else 1
      ensures r.Ok? ==> r.value == BuildResult(job, session.working, results)
      ensures r.Ok? ==>
        && r.value.selection == results[SelectionStage]
        && r.value.oddTagging == results[OddTaggingStage]
        && r.value.autoLabeling == results[AutoLabelingStage]
        && ReportsLinks(r.value, job.taskId, session.working)
      ensures r.Threw? ==> r.error == OtherError
    {
      LinksOfRows(job, session.working, results);
      var selected := session.FindIds(SelectionStage, job.taskId);
      if selected.Threw? { return Threw(selected.error); }
      var odds := session.FindIds(OddTaggingStage, job.taskId);
      if odds.Threw? { return Threw(odds.error); }
      var labeled := session.FindIds(AutoLabelingStage, job.taskId);
      if labeled.Threw? { return Threw(labeled.error); }
      var linked := |selected.value * odds.value * labeled.value|;
      r := Ok(AnalysisResult(results[SelectionStage], results[OddTaggingStage], results[AutoLabelingStage],
                             linked, |selected.value| - linked));
    }

    /** Saves the FAILED task; the failure is unrecorded when that fails too. */
    method RecordFailure(task: AnalyzeTask, recorded: Ending) returns (ending: Ending)
      requires task.taskId == job.taskId && job.taskId in taskRepo.tasks
      modifies taskRepo
      ensures OthersKept(old(taskRepo.tasks), taskRepo.tasks, job.taskId)
      ensures taskRepo.failures >= old(taskRepo.failures)
      ensures ending == recorded || (ending == Unrecorded && taskRepo.failures > old(taskRepo.failures))
      ensures ending != Unrecorded ==> taskRepo.tasks[job.taskId].status == TaskFailed
      ensures SameWork(taskRepo.tasks[job.taskId], task) ||
        (ending == Unrecorded && taskRepo.tasks == old(taskRepo.tasks))
    {
      var message: string := *;
      var saved := taskRepo.Save(task.FailWith(message));
      ending := if saved then recorded else Unrecorded;
    }

    /** One attempt. A failure inside a phase saves the task of before the
        phases, so progress and checkpoint go back to where they were. Without a
        stored task the attempt fails at once. */
    method Execute() returns (ending: Ending)
      requires Ready()
      modifies session`working, session`failures, taskRepo
      ensures Failures() >= old(Failures())
      ensures Failures() == old(Failures()) ==>
        if job.taskId in old(taskRepo.tasks)
          && Completed(job, World(old(taskRepo.tasks)[job.taskId], old(session.working))).Some?
        then ending == Finished
        else ending.Clean?
      ensures OthersKept(old(taskRepo.tasks), taskRepo.tasks, job.taskId)
      ensures job.taskId !in old(taskRepo.tasks) ==>
        ending == Clean(OtherError) && taskRepo.tasks == old(taskRepo.tasks) && session.working == old(session.working)
      ensures job.taskId in old(taskRepo.tasks) ==>
        Ended(job, World(old(taskRepo.tasks)[job.taskId], old(session.working)), ending,
              taskRepo.tasks[job.taskId], session.working)
      ensures ending == Finished ==>
        job.taskId in old(taskRepo.tasks) && IsReported(taskRepo.tasks[job.taskId], job.taskId, session.working)
      ensures ending.Late? ==> job.taskId in old(taskRepo.tasks) && taskRepo.tasks[job.taskId].status == TaskFailed
      ensures ending.Clean? && job.taskId in old(taskRepo.tasks) ==>
        || taskRepo.tasks[job.taskId].status == TaskFailed
        || taskRepo.tasks[job.taskId] == old(taskRepo.tasks)[job.taskId]
        || taskRepo.tasks[job.taskId] == old(taskRepo.tasks)[job.taskId].(status := TaskProcessing)
    {
      hide RunPhases, Completed, FailedLate, BuildResult, Ended, SameWork, Reached, IsReported;
      if job.taskId in taskRepo.tasks {
        CompletesIfPhasesDo(job, World(taskRepo.tasks[job.taskId], session.working));
      }
      var found := taskRepo.FindById(job.taskId);
      if found == None {
        NotStarted(job, taskRepo.tasks, session.working);
        return Clean(OtherError);
      }
      ghost var w := World(taskRepo.tasks[job.taskId], session.working);
      var task := found.value.StartProcessing();
      StartedTask(w.task);
      var saved := taskRepo.Save(task);
      if !saved {
        CleanEnd(job, w, OtherError, taskRepo.tasks[job.taskId], session.working);
        return Clean(OtherError);
      }
      var ran := RunStageLoop(task);
      if ran.Threw? {
        ending := RecordFailure(task, Clean(ran.error));
        CleanEnd(job, w, ran.error, taskRepo.tasks[job.taskId], session.working);
        UnrecordedEnd(job, w, taskRepo.tasks[job.taskId], session.working);
        return;
      }
      ending := Conclude(ran.value.0, ran.value.1, w);
      if ending == Finished {
        FinishedReports(job, w, taskRepo.tasks[job.taskId], session.working);
      }
    }

    /** The part of `execute` after the phases: statistics and completion. */
    method Conclude(results: map<Stage, StageResult>, done: AnalyzeTask, ghost w: World) returns (ending: Ending)
      requires job.chunkSize >= 1 && done.taskId == job.taskId
      requires job.taskId in taskRepo.tasks && taskRepo.tasks[job.taskId] == done
      requires RunPhases(job, w.task.StartProcessing(), w.db).Some?
      requires var fin := RunPhases(job, w.task.StartProcessing(), w.db).value;
        fin.db == session.working && fin.results == results && fin.task == done
      modifies taskRepo, session`failures
      ensures OthersKept(old(taskRepo.tasks), taskRepo.tasks, job.taskId)
      ensures Failures() >= old(Failures()) && (ending != Finished ==> Failures() > old(Failures()))
      ensures Ended(job, w, ending, taskRepo.tasks[job.taskId], session.working) && !ending.Clean?
      ensures ending.Late? ==> taskRepo.tasks[job.taskId].status == TaskFailed
    {
      hide RunPhases, Completed, FailedLate, BuildResult, Ended, SameWork, ReportsLinks;
      FinishedEnd(job, w);
      StartedTask(done);
      var collected := CollectResult(results);
      if collected.Threw? {
        ending := RecordFailure(done, Late(collected.error));
        LateEnd(job, w, taskRepo.tasks[job.taskId], session.working);
        return;
      }
      CompletedTask(done, collected.value);
      var task := done.CompleteWith(collected.value);
      var saved := taskRepo.Save(task);
      if saved {
        ending := Finished;
      } else {
        ending := RecordFailure(task, Late(OtherError));
        LateEnd(job, w, taskRepo.tasks[job.taskId], session.working);
      }
    }

    /** `process_analysis`: a fresh session, one attempt, then commit or roll
        back. Domain errors are not retried; everything else is. */
    method ProcessAnalysis() returns (delivery: Delivery)
      requires Ready()
      modifies session, taskRepo
      ensures Failures() >= old(Failures())
      ensures Failures() == old(Failures()) ==>
        if job.taskId in old(taskRepo.tasks)
          && Completed(job, World(old(taskRepo.tasks)[job.taskId], old(session.committed))).Some?
        then delivery == Committed
        else delivery in {GivenUp, RetryAfterClean}
      ensures OthersKept(old(taskRepo.tasks), taskRepo.tasks, job.taskId) && Ready()
      ensures session.working == session.committed
      ensures job.taskId !in old(taskRepo.tasks) ==>
        delivery == RetryAfterClean && taskRepo.tasks == old(taskRepo.tasks) &&
          session.committed == old(session.committed)
      ensures job.taskId in old(taskRepo.tasks) ==>
        Delivered(job, World(old(taskRepo.tasks)[job.taskId], old(session.committed)), delivery,
                  World(taskRepo.tasks[job.taskId], session.committed))
      ensures delivery == Committed ==>
        job.taskId in taskRepo.tasks && IsReported(taskRepo.tasks[job.taskId], job.taskId, session.committed)
    {
      hide Ended, Delivered, IsReported, Completed;
      session.Rollback();
      var ending := Execute();
      if job.taskId in old(taskRepo.tasks) {
        ghost var w := World(old(taskRepo.tasks)[job.taskId], session.committed);
        DeliveredAs(job, w, ending, taskRepo.tasks[job.taskId], session.working);
      }
      if ending == Finished {
        var done := session.Commit();
        if done {
          return Committed;
        }
        session.Rollback();
        return RetryAfterCommit;
      }
      session.Rollback();
      match ending
      case Clean(error) => delivery := if error == DomainError then GivenUp else RetryAfterClean;
      case Late(_) => delivery := RetryAfterLate;
      case Unrecorded => delivery := RetryAfterUnrecorded;
    }

    /** The delivery with its retries. `history` are the worlds in which attempts
        failed; `clean` says that none of them got past a phase, and `stored` that
        a commit went through although it failed. */
    method Deliver(maxRetries: nat)
      returns (last: Delivery, clean: bool, ghost stored: bool, ghost history: seq<World>)
      requires Ready()
      modifies session, taskRepo
      ensures Failures() == old(Failures()) ==>
        (last == Committed <==>
           && job.taskId in old(taskRepo.tasks)
           && Completed(job, World(old(taskRepo.tasks)[job.taskId], old(session.committed))).Some?)
      ensures job.taskId !in old(taskRepo.tasks) ==>
        last == RetryAfterClean && taskRepo.tasks == old(taskRepo.tasks) && session.committed == old(session.committed)
      ensures job.taskId in old(taskRepo.tasks) ==>
        job.taskId in taskRepo.tasks &&
        DeliveredAfterRetries(job, World(old(taskRepo.tasks)[job.taskId], old(session.committed)), history, last, clean,
                              stored, World(taskRepo.tasks[job.taskId], session.committed))
      ensures last == Committed ==>
        job.taskId in taskRepo.tasks && IsReported(taskRepo.tasks[job.taskId], job.taskId, session.committed)
    {
      hide DeliveredAfterRetries, IsReported, Completed;
      last, clean, stored, history := RetryAfterClean, true, false, [];
      ghost var known := job.taskId in taskRepo.tasks;
      ghost var w: World;
      if known {
        w := World(taskRepo.tasks[job.taskId], session.committed);
        history := [w];
        NothingDelivered(job, w);
      }
      var attempt := 0;
      while attempt <= maxRetries && last != Committed && last != GivenUp
        invariant Ready() && (job.taskId in taskRepo.tasks <==> known)
        invariant Failures() >= old(Failures()) && (attempt == 0 ==> last == RetryAfterClean)
        invariant known ==> w == World(old(taskRepo.tasks)[job.taskId], old(session.committed))
        invariant Failures() == old(Failures()) ==>
          && (attempt > 0 && known && Completed(job, w).Some? ==> last == Committed)
          && (known && last == Committed ==> Completed(job, w).Some?)
          && (attempt == 0 && known ==> w == World(taskRepo.tasks[job.taskId], session.committed))
          && clean
        invariant last == Committed ==>
          known && IsReported(taskRepo.tasks[job.taskId], job.taskId, session.committed)
        invariant !known ==>
          last == RetryAfterClean && taskRepo.tasks == old(taskRepo.tasks) &&
            session.committed == old(session.committed)
        invariant known ==> DeliveredAfterRetries(
          job, w, history, last, clean, stored, World(taskRepo.tasks[job.taskId], session.committed))
        decreases maxRetries + 1 - attempt
      {
        ghost var before: World;
        if known {
          before := World(taskRepo.tasks[job.taskId], session.committed);
        }
        ghost var earlier, earlierClean := last, clean;
        last := ProcessAnalysis();
        clean := clean && last in {Committed, GivenUp, RetryAfterClean};
        if known {
          stored, history := OneMoreDelivery(job, w, history, before, earlier, earlierClean, stored, last,
                                             World(taskRepo.tasks[job.taskId], session.committed));
          CleanDelivery(job, w, history, last, clean, stored, World(taskRepo.tasks[job.taskId], session.committed));
        }
        attempt := attempt + 1;
      }
    }
  }

  /** What a delivery with retries leaves of `w`. While no commit has gone through,
      the last world of `history` is where the next attempt starts, or started if
      it was the last one. A commit that has gone through settles everything. */
  ghost predicate DeliveredAfterRetries(
      job: Job, w: World, history: seq<World>, last: Delivery, clean: bool, stored: bool, w': World)
  {
    && job.chunkSize >= 1
    && history != [] && history[0] == w && Failures(job, history)
    && Settled(job, history[|history| - 1], last, stored, w')
    && (clean ==> !stored && FailedCleanly(w, history[|history| - 1]))
    && (clean && last == Committed ==> SameEnd(Some(w'), Completed(job, w)))
    && (clean && last != Committed ==> FailedCleanly(w, w'))
    && (clean && last == GivenUp ==> Completed(job, w).None?)
  }

  lemma CleanDelivery(
      job: Job, w: World, history: seq<World>, last: Delivery, clean: bool, stored: bool, w': World)
    requires DeliveredAfterRetries(job, w, history, last, clean, stored, w')
    ensures clean && last == Committed ==> Completed(job, w).Some?
  {
    hide Completed, Failures, Settled;
  }

  /** What the attempts from `h` on have come to. */
  ghost predicate Settled(job: Job, h: World, last: Delivery, stored: bool, w': World)
    requires job.chunkSize >= 1
  {
    if stored then
      && Completed(job, h).Some? && FailedCleanly(Completed(job, h).value, w')
      && last != GivenUp && (last == Committed ==> SameEnd(Some(w'), Completed(job, h)))
    else
      match last
      case Committed => Completed(job, h) == Some(w')
      case GivenUp => FailedCleanly(h, w') && Completed(job, h).None?
      case _ => w' == h
  }

  lemma NothingDelivered(job: Job, w: World)
    requires job.chunkSize >= 1
    ensures DeliveredAfterRetries(job, w, [w], RetryAfterClean, true, false, w)
  {
    hide Completed;
  }

  lemma LateIsFailed(job: Job, w: World, w': World)
    requires job.chunkSize >= 1 && (FailedCleanly(w, w') || FailedLate(job, w, w'))
    ensures FailedSomewhere(job, w, w')
  {
    CleanAndLateFailures(job, w, w');
    hide FailedAt, FailedLate;
    assert FailedAt(job, w, w', 0) || FailedAt(job, w, w', 3);
  }

  /** Nothing gets ahead of the last checkpoint. */
  lemma LastCheckpointStays(job: Job, a: AnalyzeTask, b: AnalyzeTask)
    requires Ahead(job, a, b) && a.lastCompletedPhase == Some(AutoLabelingStage)
    ensures SameWork(b, a)
  {
    hide StageRaises;
    assert AheadIn(job, a, b, SelectionStage) && AheadIn(job, a, b, OddTaggingStage);
    assert AheadIn(job, a, b, AutoLabelingStage);
  }

  /** After a commit that went through, a failing attempt changes nothing more. */
  lemma SettledStays(job: Job, h: World, before: World, w': World)
    requires job.chunkSize >= 1 && Completed(job, h).Some? && FailedCleanly(Completed(job, h).value, before)
    requires FailedSomewhere(job, before, w')
    ensures FailedCleanly(Completed(job, h).value, w')
  {
    hide Completed, FailedSomewhere, Ahead;
    CompletedAtLastStage(job, h);
    FailureGetsAhead(job, before, w');
    LastCheckpointStays(job, before.task, w'.task);
  }

  lemma CompletedAtLastStage(job: Job, h: World)
    requires job.chunkSize >= 1 && Completed(job, h).Some?
    ensures Completed(job, h).value.task.lastCompletedPhase == Some(AutoLabelingStage)
  {
    StagesAreRunPhases(job, h.task.StartProcessing(), h.db);
    EndsAtLastStage(job, h.task.StartProcessing(), h.db);
    hide RunPhases, Stages;
  }

  lemma OneMoreAfterCommit(job: Job, h: World, before: World, last: Delivery, w': World)
    requires job.chunkSize >= 1 && Completed(job, h).Some? && FailedCleanly(Completed(job, h).value, before)
    requires Delivered(job, before, last, w')
    ensures Settled(job, h, last, true, w')
  {
    CompletingAgain(job, h, before);
    hide Completed, FailedLate, FailedSomewhere;
    if last != Committed && last != GivenUp && Completed(job, before) != Some(w') {
      if last != RetryAfterUnrecorded {
        LateIsFailed(job, before, w');
      }
      SettledStays(job, h, before, w');
    }
  }

  lemma HistoryGrows(job: Job, history: seq<World>, w': World)
    requires job.chunkSize >= 1 && history != [] && Failures(job, history)
    requires FailedSomewhere(job, history[|history| - 1], w')
    ensures Failures(job, history + [w'])
  {
    hide FailedSomewhere;
    var longer := history + [w'];
    forall i | 0 < i < |longer| ensures FailedSomewhere(job, longer[i - 1], longer[i]) {
      if i < |history| {
        assert FailedSomewhere(job, history[i - 1], history[i]);
      }
    }
  }

  lemma OneMoreDelivery(
      job: Job, w: World, history: seq<World>, before: World, earlier: Delivery, clean: bool, stored: bool,
      last: Delivery, w': World)
    returns (stored': bool, history': seq<World>)
    requires DeliveredAfterRetries(job, w, history, earlier, clean, stored, before)
    requires earlier != Committed && earlier != GivenUp
    requires Delivered(job, before, last, w')
    ensures DeliveredAfterRetries(
      job, w, history', last, clean && last in {Committed, GivenUp, RetryAfterClean}, stored', w')
  {
    hide Completed, FailedLate, FailedSomewhere, Failures, RunPhases;
    var h := history[|history| - 1];
    stored', history' := stored, history;
    if stored {
      OneMoreAfterCommit(job, h, before, last, w');
    } else if last == Committed || last == GivenUp {
      if clean {
        CleanRetriesEndAlike(job, w, h);
      }
    } else if last == RetryAfterCommit && Completed(job, before) == Some(w') {
      stored' := true;
    } else {
      if last != RetryAfterUnrecorded {
        LateIsFailed(job, before, w');
      }
      HistoryGrows(job, history, w');
      history' := history + [w'];
    }
  }

  lemma CleanRetriesEndAlike(job: Job, w: World, h: World)
    requires job.chunkSize >= 1 && FailedCleanly(w, h)
    ensures SameEnd(Completed(job, h), Completed(job, w))
  {
    RetriesEndLikeOneAttempt(job, [w, h]);
  }

  /** The delivery, exactly: once an attempt has committed, the stores are those of
      a single uninterrupted attempt if and only if no failure or crash has left
      a stage with raw rows behind the checkpoint. If the delivery is given up, a
      single attempt would have failed too, and no row has been stored. */
  lemma DeliveryEndsExactly(
      job: Job, w: World, history: seq<World>, last: Delivery, clean: bool, stored: bool, w': World)
    requires job.chunkSize >= 1 && RefusalsAreRecorded(job)
    requires DeliveredAfterRetries(job, w, history, last, clean, stored, w')
    ensures last == Committed ==>
      (SameEnd(Some(w'), Completed(job, w)) <==> !LosesRows(job, w.task, history[|history| - 1].task))
    ensures last == GivenUp ==> Completed(job, w).None? && w'.db == w.db
  {
    var h := history[|history| - 1];
    InterruptedRetriesEndExactly(job, history);
    FailuresGetAhead(job, history);
    RaisesAlike(job, w.task, h.task);
    CompletesExactly(job, w);
    CompletesExactly(job, h);
    hide Completed, Failures, RefusalsAreRecorded, RowRaises, LosesRows, Ahead;
  }

  lemma CompletesExactly(job: Job, w: World)
    requires job.chunkSize >= 1
    ensures Completed(job, w).None? <==> RowRaises(job, w.task)
  {
    PhasesFailExactly(job, w.task.StartProcessing(), w.db);
    AheadOfItself(job, w.task, w.task);
    StartingChangesNothing(job, w.task, w.task);
    hide RunPhases, RowRaises, Ahead;
  }

  /** `RetryAfterCommit` follows a failed commit, which may have gone through. */
  datatype Delivery =
    | Committed | GivenUp | RetryAfterClean | RetryAfterLate | RetryAfterUnrecorded | RetryAfterCommit

  lemma CompletesIfPhasesDo(job: Job, w: World)
    requires job.chunkSize >= 1
    ensures Completed(job, w).Some? <==> RunPhases(job, w.task.StartProcessing(), w.db).Some?
  {
    CompletedUnfolded(job, w);
  }

  lemma CompletedUnfolded(job: Job, w: World)
    requires job.chunkSize >= 1
    ensures var fin := RunPhases(job, w.task.StartProcessing(), w.db);
      if fin.None? then Completed(job, w).None?
      else
        && (forall stage: Stage :: stage in fin.value.results)
        && Completed(job, w) == Some(World(
             fin.value.task.CompleteWith(BuildResult(job, fin.value.db, fin.value.results)), fin.value.db))
  {
    if RunPhases(job, w.task.StartProcessing(), w.db).Some? {
      AllStagesHaveResults(job, w.task.StartProcessing(), w.db);
    }
  }

  /** What each ending of an attempt on `w` says about the stored task and the
      uncommitted rows. */
  ghost predicate Ended(job: Job, w: World, ending: Ending, task: AnalyzeTask, working: Database) {
    job.chunkSize >= 1 &&
    match ending
    case Finished => Completed(job, w) == Some(World(task, working))
    case Clean(error) => SameWork(task, w.task) && (error == DomainError ==> Completed(job, w).None?)
    case Late(error) => FailedLate(job, w, World(task, w.db)) && error == OtherError
    case Unrecorded => FailedSomewhere(job, w, World(task, w.db))
  }

  /** What each outcome of a delivery of `w` says about the durable world. */
  ghost predicate Delivered(job: Job, w: World, delivery: Delivery, w': World) {
    job.chunkSize >= 1 &&
    match delivery
    case Committed => Completed(job, w) == Some(w')
    case GivenUp => FailedCleanly(w, w') && Completed(job, w).None?
    case RetryAfterClean => FailedCleanly(w, w')
    case RetryAfterLate => FailedLate(job, w, w')
    case RetryAfterUnrecorded => FailedSomewhere(job, w, w')
    case RetryAfterCommit => FailedLate(job, w, w') || Completed(job, w) == Some(w')
  }

  lemma StartedTask(task: AnalyzeTask)
    ensures SameWork(task, task) && SameWork(task.StartProcessing(), task)
    ensures forall t :: SameWork(t, task.StartProcessing()) ==> SameWork(t, task)
  {
  }

  lemma CompletedTask(task: AnalyzeTask, r: AnalysisResult)
    ensures SameWork(task, task) && SameWork(task.CompleteWith(r), task)
    ensures forall t :: SameWork(t, task.CompleteWith(r)) ==> SameWork(t, task)
  {
  }

  lemma CleanEnd(job: Job, w: World, error: Error, task: AnalyzeTask, working: Database)
    requires job.chunkSize >= 1
    ensures
      SameWork(task, w.task) && (error == DomainError ==> RunPhases(job, w.task.StartProcessing(), w.db).None?) ==>
        Ended(job, w, Clean(error), task, working)
  {
    CompletedUnfolded(job, w);
  }

  lemma NotStarted(job: Job, tasks: map<string, AnalyzeTask>, working: Database)
    requires job.chunkSize >= 1
    ensures job.taskId in tasks ==>
      Ended(job, World(tasks[job.taskId], working), Clean(OtherError), tasks[job.taskId], working)
  {
  }

  lemma LateEnd(job: Job, w: World, task: AnalyzeTask, working: Database)
    requires job.chunkSize >= 1
    ensures var fin := RunPhases(job, w.task.StartProcessing(), w.db);
      fin.Some? && SameWork(task, fin.value.task) ==>
        Ended(job, w, Late(OtherError), task, working) && Ended(job, w, Unrecorded, task, working)
  {
    hide RunPhases, SameWork, Completed;
    CleanAndLateFailures(job, w, World(task, w.db));
    hide FailedAt;
    if FailedLate(job, w, World(task, w.db)) {
      assert FailedSomewhere(job, w, World(task, w.db));
    }
  }

  /** `t` is `start` after some first stages of a run over `db`. */
  ghost predicate Reached(job: Job, start: AnalyzeTask, db: Database, t: AnalyzeTask)
    requires job.chunkSize >= 1
  {
    exists k: nat :: k <= 3 && IsAfter(job, start, db, t, k)
  }

  ghost predicate IsAfter(job: Job, start: AnalyzeTask, db: Database, t: AnalyzeTask, k: nat)
    requires job.chunkSize >= 1 && k <= 3
  {
    var done := Stages(job, Initially(start, db), k);
    done.Some? && SameWork(t, done.value.task)
  }

  lemma StoppedAfter(job: Job, start: AnalyzeTask, db: Database, k: nat, t: AnalyzeTask)
    requires job.chunkSize >= 1 && k <= 3
    ensures var done := Stages(job, Initially(start, db), k);
      done.Some? && t == done.value.task ==> Reached(job, start, db, t)
  {
    hide Stages;
    assert IsAfter(job, start, db, t, k) || Stages(job, Initially(start, db), k).None? ||
           t != Stages(job, Initially(start, db), k).value.task;
  }

  lemma KeptByNobody(tasks: map<string, AnalyzeTask>, id: string)
    ensures OthersKept(tasks, tasks, id)
  {
  }

  lemma KeptTwice(
      a: map<string, AnalyzeTask>, b: map<string, AnalyzeTask>, c: map<string, AnalyzeTask>, id: string)
    requires OthersKept(a, b, id) && OthersKept(b, c, id)
    ensures OthersKept(a, c, id) && (id in b ==> id in c)
  {
  }

  /** A stage that fails leaves the task as before it, or as after it if no row
      raises; if a row raises, the phases fail. */
  lemma StageThrew(job: Job, start: AnalyzeTask, db: Database, i: nat, before: PipeState, t: AnalyzeTask)
    requires job.chunkSize >= 1 && i < 3 && Stages(job, Initially(start, db), i) == Some(before)
    requires before.task.ShouldRunPhase(STAGE_ORDER[i])
    ensures var stage := STAGE_ORDER[i];
      var os := Outcomes(job, stage, before.valid, job.RowsFor(stage));
      && (!Phase.NoneRaised(os) ==> RunPhases(job, start, db).None?)
      && (t == before.task ==> Reached(job, start, db, t))
      && (Phase.NoneRaised(os) && t == TaskAfter(stage, before.task, PhaseResult(job, stage, before.db, os)) ==>
            Reached(job, start, db, t))
  {
    hide Stages, StageStep, RunPhases, PhaseResult, TaskAfter, Reached, Outcomes;
    var init := Initially(start, db);
    StagesAreRunPhases(job, start, db);
    NextStage(job, init, i, before);
    RaisedStage(job, STAGE_ORDER[i], before);
    RanStage(job, STAGE_ORDER[i], before);
    LaterStagesFail(job, init, i + 1, 3);
    StoppedAfter(job, start, db, i, t);
    StoppedAfter(job, start, db, i + 1, t);
  }

  lemma UnrecordedEnd(job: Job, w: World, task: AnalyzeTask, working: Database)
    requires job.chunkSize >= 1
    ensures Reached(job, w.task.StartProcessing(), w.db, task) || SameWork(task, w.task.StartProcessing()) ==>
      Ended(job, w, Unrecorded, task, working)
  {
    hide Stages, SameWork, Completed;
    var w' := World(task, w.db);
    if k: nat :| k <= 3 && IsAfter(job, w.task.StartProcessing(), w.db, task, k) {
      assert FailedAt(job, w, w', k);
    }
    if SameWork(task, w.task.StartProcessing()) {
      StartedTask(w.task);
      CleanAndLateFailures(job, w, w');
      assert FailedCleanly(w, w') && FailedAt(job, w, w', 0);
    }
  }

  lemma FinishedEnd(job: Job, w: World)
    requires job.chunkSize >= 1 && RunPhases(job, w.task.StartProcessing(), w.db).Some?
    ensures var fin := RunPhases(job, w.task.StartProcessing(), w.db).value;
      && (forall stage: Stage :: stage in fin.results)
      && Ended(job, w, Finished, fin.task.CompleteWith(BuildResult(job, fin.db, fin.results)), fin.db)
  {
    hide RunPhases, Completed, BuildResult;
    CompletedUnfolded(job, w);
  }

  lemma FinishedReports(job: Job, w: World, task: AnalyzeTask, working: Database)
    requires Ended(job, w, Finished, task, working)
    ensures IsReported(task, job.taskId, working)
  {
    ReportTellsProgress(job, w);
  }

  lemma DeliveredAs(job: Job, w: World, ending: Ending, task: AnalyzeTask, working: Database)
    requires Ended(job, w, ending, task, working)
    ensures match ending
      case Finished =>
        && Delivered(job, w, Committed, World(task, working))
        && Delivered(job, w, RetryAfterCommit, World(task, working))
        && Delivered(job, w, RetryAfterCommit, World(task, w.db))
      case Clean(error) =>
        Delivered(job, w, if error == DomainError then GivenUp else RetryAfterClean, World(task, w.db))
      case Late(_) => Delivered(job, w, RetryAfterLate, World(task, w.db))
      case Unrecorded => Delivered(job, w, RetryAfterUnrecorded, World(task, w.db))
  {
    CompletedUnfolded(job, w);
  }
}
