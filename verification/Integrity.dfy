/** Referential integrity between the phases, over every history of attempts on
    one task. An attempt may be interrupted at any row; the rows it wrote may
    survive or be rolled back, and its checkpoint may stay or be put back. */
module Integrity {
  import opened Domain
  import opened Tables
  import opened Phase
  import opened Pipeline
  import Worker

  /** An attempt in progress: the checkpoint it started from, the next stage,
      and the selection ids it has loaded. */
  datatype Attempt = NoAttempt | Attempt(start: Option<Stage>, next: nat, valid: set<int>)

  datatype History = History(db: Database, committed: Database, checkpoint: Option<Stage>, attempt: Attempt)

  datatype Event =
    | Begin
    | SkipStage
    | RunStage
    | Interrupt(written: nat, rejections: seq<Rejection>, durable: bool, restored: bool)
    | Commit
    | OtherTask(stage: Stage, rows: seq<Row>, rejections: seq<Rejection>)

  /** `should_run_phase`, on the checkpoint. */
  predicate ShouldRun(checkpoint: Option<Stage>, stage: Stage) {
    checkpoint == None || stage.Index() > checkpoint.value.Index()
  }

  function StreamOf(job: Job, stage: Stage, valid: set<int>): seq<Outcome> {
    Outcomes(job, stage, valid, job.RowsFor(stage))
  }

  predicate Enabled(job: Job, h: History, e: Event) {
    match e
    case Begin => h.attempt.NoAttempt?
    case SkipStage =>
      h.attempt.Attempt? && h.attempt.next < 3 && !ShouldRun(h.checkpoint, STAGE_ORDER[h.attempt.next])
    case RunStage =>
      h.attempt.Attempt? && h.attempt.next < 3 && ShouldRun(h.checkpoint, STAGE_ORDER[h.attempt.next]) &&
      NoneRaised(StreamOf(job, STAGE_ORDER[h.attempt.next], h.attempt.valid))
    case Interrupt(written, _, _, _) =>
      h.attempt.Attempt? &&
      (written > 0 ==>
         h.attempt.next < 3 && ShouldRun(h.checkpoint, STAGE_ORDER[h.attempt.next]) &&
         written <= |RowsOf(StreamOf(job, STAGE_ORDER[h.attempt.next], h.attempt.valid))|)
    case Commit => h.attempt.Attempt? && h.attempt.next == 3
    case OtherTask(_, rows, _) => h.attempt.NoAttempt? && forall r :: r in rows ==> r.taskId != job.taskId
  }

  /** The attempt after a stage: the selection ids are reloaded after the first. */
  function Onward(job: Job, a: Attempt, db: Database): Attempt
    requires a.Attempt?
  {
    Attempt(a.start, a.next + 1, if a.next == 0 then IdsOf(db.selections, job.taskId) else a.valid)
  }

  /** The rows at the moment of an interruption. */
  function Written(job: Job, h: History, n: nat, rejections: seq<Rejection>): Database
    requires Enabled(job, h, Interrupt(n, rejections, true, true))
  {
    if n == 0 then h.db.(rejections := rejections)
    else
      var stage := STAGE_ORDER[h.attempt.next];
      Put(h.db, stage, InsertIgnore(TableOf(h.db, stage), RowsOf(StreamOf(job, stage, h.attempt.valid))[..n]),
        rejections)
  }

  function Next(job: Job, h: History, e: Event): History
    requires job.chunkSize >= 1 && Enabled(job, h, e)
  {
    match e
    case Begin => h.(attempt := Attempt(h.checkpoint, 0, {}))
    case SkipStage => h.(attempt := Onward(job, h.attempt, h.db))
    case RunStage =>
      var stage := STAGE_ORDER[h.attempt.next];
      var db := DatabaseAfter(stage, h.db, PhaseResult(job, stage, h.db, StreamOf(job, stage, h.attempt.valid)));
      History(db, h.committed, Some(stage), Onward(job, h.attempt, db))
    case Interrupt(n, rejections, durable, restored) =>
      var db := if durable then Written(job, h, n, rejections) else h.committed;
      History(db, db, if restored then h.attempt.start else h.checkpoint, NoAttempt)
    case Commit => History(h.db, h.db, h.checkpoint, NoAttempt)
    case OtherTask(stage, rows, rejections) =>
      var db := Put(h.db, stage, InsertIgnore(TableOf(h.db, stage), rows), rejections);
      History(db, db, h.checkpoint, NoAttempt)
  }

  predicate IsHistory(job: Job, h: History, events: seq<Event>)
    requires job.chunkSize >= 1
    decreases |events|
  {
    events == [] || (Enabled(job, h, events[0]) && IsHistory(job, Next(job, h, events[0]), events[1..]))
  }

  function After(job: Job, h: History, events: seq<Event>): History
    requires job.chunkSize >= 1 && IsHistory(job, h, events)
    decreases |events|
  {
    if events == [] then h else After(job, Next(job, h, events[0]), events[1..])
  }

  /* ---- the invariant ---- */

  function SelectionIds(job: Job, db: Database): set<int> {
    IdsOf(db.selections, job.taskId)
  }

  /** The videos the task's odd tags and labels refer to. */
  function ReferredIds(job: Job, db: Database): set<int> {
    IdsOf(db.oddTags, job.taskId) + IdsOf(db.labels, job.taskId)
  }

  predicate Linked(job: Job, db: Database) {
    SelectionIds(job, db) != {} ==> ReferredIds(job, db) <= SelectionIds(job, db)
  }

  /** Running the selection phase again would insert nothing. */
  predicate Saturated(job: Job, db: Database) {
    Keys(RowsOf(StreamOf(job, SelectionStage, {}))) <= Keys(db.selections)
  }

  /** A task that may run its selection phase (again) has no references yet, or
      nothing left to select. */
  predicate Resumable(job: Job, db: Database, checkpoint: Option<Stage>) {
    checkpoint == None && ReferredIds(job, db) != {} ==> Saturated(job, db)
  }

  predicate Sound(job: Job, db: Database, checkpoint: Option<Stage>) {
    Linked(job, db) && Resumable(job, db, checkpoint)
  }

  predicate Invariant(job: Job, h: History) {
    && Sound(job, h.db, h.checkpoint)
    && Sound(job, h.committed, h.checkpoint)
    && (h.attempt.Attempt? ==>
          && h.attempt.next <= 3
          && Sound(job, h.db, h.attempt.start)
          && Sound(job, h.committed, h.attempt.start)
          && (h.attempt.next == 0 ==> h.checkpoint == h.attempt.start)
          && (h.attempt.next > 0 ==>
                && h.checkpoint != None
                && h.attempt.valid == SelectionIds(job, h.db)
                && (h.attempt.start == None ==> Saturated(job, h.db))))
  }

  lemma IdsAfterInsert(table: seq<Row>, rows: seq<Row>, taskId: string)
    ensures IdsOf(table, taskId) <= IdsOf(InsertIgnore(table, rows), taskId)
    ensures IdsOf(InsertIgnore(table, rows), taskId) <= IdsOf(table, taskId) + IdsOf(rows, taskId)
  {
    InsertIgnoreGrows(table, rows);
    hide InsertIgnore;
  }

  lemma KeysAfterInsert(table: seq<Row>, rows: seq<Row>)
    ensures Keys(table) <= Keys(InsertIgnore(table, rows))
  {
    InsertIgnoreAddsFirstOccurrences(table, rows);
  }

  /** The link check lets only known videos through, unless none is known. */
  lemma {:induction false} StreamIsLinked(job: Job, stage: Stage, valid: set<int>, rows: seq<RawRow>)
    requires stage != SelectionStage && valid != {}
    ensures forall r :: r in RowsOf(Outcomes(job, stage, valid, rows)) ==> r.videoId in valid
    decreases |rows|
  {
    if rows == [] {
    } else {
      var n := |rows| - 1;
      StreamIsLinked(job, stage, valid, rows[..n]);
      assert Outcomes(job, stage, valid, rows)[..n] == Outcomes(job, stage, valid, rows[..n]);
    }
  }

  lemma SelectionStreamIgnoresIds(job: Job, valid: set<int>)
    ensures StreamOf(job, SelectionStage, valid) == StreamOf(job, SelectionStage, {})
  {
  }

  /** Inserting some first rows of the selection stream keeps the task sound. */
  lemma SelectionInsert(job: Job, db: Database, n: nat, rejections: seq<Rejection>)
    requires Sound(job, db, None) && n <= |RowsOf(StreamOf(job, SelectionStage, {}))|
    ensures var rows := RowsOf(StreamOf(job, SelectionStage, {}));
      var db' := Put(db, SelectionStage, InsertIgnore(db.selections, rows[..n]), rejections);
      && Sound(job, db', None)
      && (n == |rows| ==> Saturated(job, db'))
  {
    var rows := RowsOf(StreamOf(job, SelectionStage, {}));
    InsertIgnoreAddsFirstOccurrences(db.selections, rows[..n]);
    IdsAfterInsert(db.selections, rows[..n], job.taskId);
    if n == |rows| {
      assert rows[..n] == rows;
    }
    if Saturated(job, db) {
      assert forall r :: r in rows[..n] ==> r in rows;
      InsertIgnorePresent(db.selections, rows[..n]);
    }
  }

  /** Inserting linked odd tags or labels keeps the task linked. */
  lemma ChildInsert(job: Job, db: Database, stage: Stage, n: nat, rejections: seq<Rejection>)
    requires stage != SelectionStage && Linked(job, db)
    requires n <= |RowsOf(StreamOf(job, stage, SelectionIds(job, db)))|
    ensures var rows := RowsOf(StreamOf(job, stage, SelectionIds(job, db)));
      var db' := Put(db, stage, InsertIgnore(TableOf(db, stage), rows[..n]), rejections);
      && Linked(job, db') && db'.selections == db.selections
  {
    var valid := SelectionIds(job, db);
    var rows := RowsOf(StreamOf(job, stage, valid));
    hide InsertIgnore, RowsOf, StreamOf;
    IdsAfterInsert(TableOf(db, stage), rows[..n], job.taskId);
    if valid != {} {
      assert forall r :: r in rows ==> r.videoId in valid by {
        assert StreamOf(job, stage, valid) ==
          Outcomes(job, stage, valid, job.RowsFor(stage)) by { StreamUnfolded(job, stage, valid); }
        StreamIsLinked(job, stage, valid, job.RowsFor(stage));
      }
      assert forall r :: r in rows[..n] ==> r in rows;
    }
  }

  lemma StreamUnfolded(job: Job, stage: Stage, valid: set<int>)
    ensures StreamOf(job, stage, valid) == Outcomes(job, stage, valid, job.RowsFor(stage))
  {
  }

  lemma RunSelection(job: Job, h: History)
    requires job.chunkSize >= 1 && Invariant(job, h) && Enabled(job, h, RunStage) && h.attempt.next == 0
    ensures Invariant(job, Next(job, h, RunStage))
  {
    hide RunChunks, InsertIgnore, RowsOf;
    var rows := RowsOf(StreamOf(job, SelectionStage, {}));
    SelectionStreamIgnoresIds(job, h.attempt.valid);
    ChunkingIsOnePass(job.taskId, SelectionStage, PhaseState(h.db.selections, h.db.rejections, 0, 0),
                      StreamOf(job, SelectionStage, {}), job.chunkSize);
    SelectionInsert(job, h.db, |rows|, Next(job, h, RunStage).db.rejections);
    assert rows[..|rows|] == rows;
  }

  lemma RunChildStage(job: Job, h: History)
    requires job.chunkSize >= 1 && Invariant(job, h) && Enabled(job, h, RunStage) && h.attempt.next > 0
    ensures Invariant(job, Next(job, h, RunStage))
  {
    hide RunChunks, InsertIgnore, RowsOf;
    var stage := STAGE_ORDER[h.attempt.next];
    var stream := StreamOf(job, stage, h.attempt.valid);
    var rows := RowsOf(stream);
    ChunkingIsOnePass(job.taskId, stage, PhaseState(TableOf(h.db, stage), h.db.rejections, 0, 0), stream,
      job.chunkSize);
    ChildInsert(job, h.db, stage, |rows|, Next(job, h, RunStage).db.rejections);
    assert rows[..|rows|] == rows;
  }

  lemma WrittenIsSound(job: Job, h: History, n: nat, rejections: seq<Rejection>)
    requires Invariant(job, h) && Enabled(job, h, Interrupt(n, rejections, true, true))
    ensures Sound(job, Written(job, h, n, rejections), h.attempt.start)
    ensures Sound(job, Written(job, h, n, rejections), h.checkpoint)
  {
    hide InsertIgnore, RowsOf;
    if n > 0 {
      if h.attempt.next == 0 {
        SelectionStreamIgnoresIds(job, h.attempt.valid);
        SelectionInsert(job, h.db, n, rejections);
      } else {
        ChildInsert(job, h.db, STAGE_ORDER[h.attempt.next], n, rejections);
      }
    }
  }

  lemma OtherTaskKeepsSound(
      job: Job, db: Database, checkpoint: Option<Stage>, stage: Stage, rows: seq<Row>, rejections: seq<Rejection>)
    requires Sound(job, db, checkpoint) && forall r :: r in rows ==> r.taskId != job.taskId
    ensures Sound(job, Put(db, stage, InsertIgnore(TableOf(db, stage), rows), rejections), checkpoint)
  {
    IdsAfterInsert(TableOf(db, stage), rows, job.taskId);
    KeysAfterInsert(TableOf(db, stage), rows);
    assert IdsOf(rows, job.taskId) == {};
    hide InsertIgnore;
  }

  lemma InvariantStep(job: Job, h: History, e: Event)
    requires job.chunkSize >= 1 && Invariant(job, h) && Enabled(job, h, e)
    ensures Invariant(job, Next(job, h, e))
  {
    match e
    case RunStage => if h.attempt.next == 0 { RunSelection(job, h); } else { RunChildStage(job, h); }
    case Interrupt(n, rejections, durable, restored) => WrittenIsSound(job, h, n, rejections);
    case OtherTask(stage, rows, rejections) => OtherTaskKeepsSound(job, h.db, h.checkpoint, stage, rows, rejections);
    case Begin =>
    case SkipStage =>
    case Commit =>
  }

  lemma {:induction false} InvariantAlways(job: Job, h: History, events: seq<Event>)
    requires job.chunkSize >= 1 && Invariant(job, h) && IsHistory(job, h, events)
    ensures Invariant(job, After(job, h, events))
    decreases |events|
  {
    if events == [] {
    } else {
      InvariantStep(job, h, events[0]);
      InvariantAlways(job, Next(job, h, events[0]), events[1..]);
    }
  }

  /** A task before its first attempt; other tasks may have rows. */
  predicate NewTask(job: Job, h: History) {
    && h.committed == h.db && h.checkpoint == None && h.attempt == NoAttempt
    && SelectionIds(job, h.db) == {} && ReferredIds(job, h.db) == {}
  }

  /** Over every history: if the task has a selection, every odd tag and label
      of the task refers to one of its selections, in the rows an attempt sees
      and in the committed ones. The statistics then say what they mean:
      `fullyLinked` counts the videos with both an odd tag and a label, and
      `partially` is never negative. */
  lemma ReferencesStayLinked(job: Job, h: History, events: seq<Event>, results: map<Stage, StageResult>)
    requires job.chunkSize >= 1 && NewTask(job, h) && IsHistory(job, h, events)
    requires forall stage: Stage :: stage in results
    ensures var h' := After(job, h, events);
      forall db :: db == h'.db || db == h'.committed ==>
        && (SelectionIds(job, db) != {} ==>
              && IdsOf(db.oddTags, job.taskId) <= SelectionIds(job, db)
              && IdsOf(db.labels, job.taskId) <= SelectionIds(job, db)
              && BuildResult(job, db, results).fullyLinked ==
                   |IdsOf(db.oddTags, job.taskId) * IdsOf(db.labels, job.taskId)|)
        && BuildResult(job, db, results).fullyLinked + BuildResult(job, db, results).partially ==
             |SelectionIds(job, db)|
        && BuildResult(job, db, results).partially >= 0
  {
    InvariantAlways(job, h, events);
    var h' := After(job, h, events);
    Statistics(job, h'.db, results);
    Statistics(job, h'.committed, results);
  }

  lemma Statistics(job: Job, db: Database, results: map<Stage, StageResult>)
    requires Linked(job, db) && forall stage: Stage :: stage in results
    ensures SelectionIds(job, db) != {} ==>
      BuildResult(job, db, results).fullyLinked == |IdsOf(db.oddTags, job.taskId) * IdsOf(db.labels, job.taskId)|
    ensures BuildResult(job, db, results).partially >= 0
  {
    var all, both := SelectionIds(job, db), IdsOf(db.oddTags, job.taskId) * IdsOf(db.labels, job.taskId);
    assert LinkedIds(job, db) <= all;
    SubsetIsNoLarger(LinkedIds(job, db), all);
    if all != {} {
      assert both <= ReferredIds(job, db) <= all;
      assert LinkedIds(job, db) == both;
    }
  }

  /* ---- the histories are those of the pipeline ---- */

  /** The event is enabled, and does to the history what the stage does to the state. */
  ghost predicate IsStageEvent(job: Job, h: History, e: Event, st': PipeState)
    requires job.chunkSize >= 1
  {
    && Enabled(job, h, e) && h.attempt.Attempt?
    && Next(job, h, e) == History(st'.db, h.committed, st'.task.lastCompletedPhase,
                                  Attempt(h.attempt.start, h.attempt.next + 1, st'.valid))
  }

  lemma RunIsAnEvent(job: Job, h: History, stage: Stage, st: PipeState)
    requires job.chunkSize >= 1 && h.attempt.Attempt? && h.attempt.next < 3 && stage == STAGE_ORDER[h.attempt.next]
    requires st.db == h.db && st.valid == h.attempt.valid && st.task.lastCompletedPhase == h.checkpoint
    requires st.task.ShouldRunPhase(stage) && StageStep(job, stage, st).Some?
    ensures IsStageEvent(job, h, RunStage, StageStep(job, stage, st).value)
  {
    hide PhaseResult, NoneRaised, Outcomes, IdsOf;
  }

  lemma SkipIsAnEvent(job: Job, h: History, stage: Stage, st: PipeState)
    requires job.chunkSize >= 1 && h.attempt.Attempt? && h.attempt.next < 3 && stage == STAGE_ORDER[h.attempt.next]
    requires st.db == h.db && st.valid == h.attempt.valid && st.task.lastCompletedPhase == h.checkpoint
    requires !st.task.ShouldRunPhase(stage)
    ensures StageStep(job, stage, st).Some? && IsStageEvent(job, h, SkipStage, StageStep(job, stage, st).value)
  {
    hide PhaseResult, NoneRaised, Outcomes, IdsOf;
  }

  /** One iteration of the stage loop is an event of the history. */
  lemma StageStepIsAnEvent(job: Job, h: History, st: PipeState) returns (e: Event)
    requires job.chunkSize >= 1 && h.attempt.Attempt? && h.attempt.next < 3
    requires st.db == h.db && st.valid == h.attempt.valid && st.task.lastCompletedPhase == h.checkpoint
    requires StageStep(job, STAGE_ORDER[h.attempt.next], st).Some?
    ensures IsStageEvent(job, h, e, StageStep(job, STAGE_ORDER[h.attempt.next], st).value)
  {
    hide IsStageEvent, StageStep;
    var stage := STAGE_ORDER[h.attempt.next];
    if st.task.ShouldRunPhase(stage) {
      e := RunStage;
      RunIsAnEvent(job, h, stage, st);
    } else {
      e := SkipStage;
      SkipIsAnEvent(job, h, stage, st);
    }
  }

  /** So a whole attempt that completes and commits is a history. */
  lemma CompletedAttemptIsAHistory(job: Job, h: History, task: AnalyzeTask) returns (events: seq<Event>)
    requires job.chunkSize >= 1 && h.attempt == NoAttempt && task.lastCompletedPhase == h.checkpoint
    requires RunPhases(job, task, h.db).Some?
    ensures IsHistory(job, h, events)
    ensures var fin := RunPhases(job, task, h.db).value;
      After(job, h, events) == History(fin.db, fin.db, fin.task.lastCompletedPhase, NoAttempt)
  {
    hide StageStep, RunStages;
    var st := Initially(task, h.db);
    RunPhasesUnfolded(job, st);
    var h0 := Next(job, h, Begin);
    var e1 := StageStepIsAnEvent(job, h0, st);
    var st1, h1 := StageStep(job, SelectionStage, st).value, Next(job, h0, e1);
    var e2 := StageStepIsAnEvent(job, h1, st1);
    var st2, h2 := StageStep(job, OddTaggingStage, st1).value, Next(job, h1, e2);
    var e3 := StageStepIsAnEvent(job, h2, st2);
    var h3 := Next(job, h2, e3);
    events := [Begin, e1, e2, e3, Commit];
    hide IsStageEvent;
    FiveEvents(job, h, Begin, e1, e2, e3, Commit);
  }

  lemma FiveEvents(job: Job, h: History, a: Event, b: Event, c: Event, d: Event, e: Event)
    requires job.chunkSize >= 1 && Enabled(job, h, a) && Enabled(job, Next(job, h, a), b)
    requires var h2 := Next(job, Next(job, h, a), b);
      Enabled(job, h2, c) && Enabled(job, Next(job, h2, c), d) && Enabled(job, Next(job, Next(job, h2, c), d), e)
    ensures IsHistory(job, h, [a, b, c, d, e])
    ensures var h4 := Next(job, Next(job, Next(job, Next(job, h, a), b), c), d);
      After(job, h, [a, b, c, d, e]) == Next(job, h4, e)
  {
    hide Enabled, Next;
    var h4 := Next(job, Next(job, Next(job, Next(job, h, a), b), c), d);
    OneEvent(job, h4, e, []);
    OneEvent(job, Next(job, Next(job, Next(job, h, a), b), c), d, [e]);
    OneEvent(job, Next(job, Next(job, h, a), b), c, [d, e]);
    OneEvent(job, Next(job, h, a), b, [c, d, e]);
    OneEvent(job, h, a, [b, c, d, e]);
    assert [d] + [e] == [d, e] && [c] + [d, e] == [c, d, e] && [b] + [c, d, e] == [b, c, d, e];
    assert [a] + [b, c, d, e] == [a, b, c, d, e] && [e] + [] == [e];
  }

  lemma OneEvent(job: Job, h: History, e: Event, rest: seq<Event>)
    requires job.chunkSize >= 1 && Enabled(job, h, e) && IsHistory(job, Next(job, h, e), rest)
    ensures IsHistory(job, h, [e] + rest) && After(job, h, [e] + rest) == After(job, Next(job, h, e), rest)
  {
    hide Enabled, Next;
    assert ([e] + rest)[1..] == rest;
  }

  /** A phase that fails anywhere is an interruption, whether its rows are committed
      or not, and whether the checkpoint is put back or not. */
  lemma FailedPhaseIsAnEvent(job: Job, h: History, after: Database, durable: bool, restored: bool) returns (e: Event)
    requires job.chunkSize >= 1 && h.attempt.Attempt? && h.attempt.next < 3
    requires ShouldRun(h.checkpoint, STAGE_ORDER[h.attempt.next])
    requires var stage := STAGE_ORDER[h.attempt.next];
      Worker.PartlyWritten(stage, h.db, RowsOf(StreamOf(job, stage, h.attempt.valid)), after)
    ensures Enabled(job, h, e)
    ensures var h' := Next(job, h, e);
      && h'.db == h'.committed == (if durable then after else h.committed)
      && h'.checkpoint == (if restored then h.attempt.start else h.checkpoint) && h'.attempt == NoAttempt
  {
    hide InsertIgnore, RowsOf, StreamOf;
    var stage := STAGE_ORDER[h.attempt.next];
    var rows := RowsOf(StreamOf(job, stage, h.attempt.valid));
    var k: nat, records: seq<Rejection> :|
      k <= |rows| && after == Put(h.db, stage, InsertIgnore(TableOf(h.db, stage), rows[..k]), records);
    NothingInserted(TableOf(h.db, stage), rows);
    e := Interrupt(k, records, durable, restored);
  }

  lemma NothingInserted(table: seq<Row>, rows: seq<Row>)
    ensures InsertIgnore(table, rows[..0]) == table
  {
  }
}
