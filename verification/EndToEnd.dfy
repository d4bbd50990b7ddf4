/** From the submitted files to the result of a phase: what was ingested is what
    is refined, counted and stored. */
module EndToEnd {
  import opened Domain
  import opened Tables
  import opened Phase
  import opened Pipeline
  import opened Parsing
  import opened Collecting
  import opened Refiners
  import opened RefinerLaws
  import LateFailure
  import PhaseContents
  import RejectedFields
  import opened SubmissionHistory

  /** The worker's view of a task: its raw rows, read back per source. */
  function JobOf(sys: System, id: string, lib: Library, chunkSize: nat): Job {
    Job(id, RawRows(sys.raw, id, SelectionStage), RawRows(sys.raw, id, OddTaggingStage),
        RawRows(sys.raw, id, AutoLabelingStage), (stage, row) => RefineRow(lib, id, stage, row), chunkSize)
  }

  /** The row is valid, of the stage's kind, and belongs to the task. */
  predicate BelongsTo(taskId: string, stage: Stage, r: Row) {
    && ValidRow(r) && r.taskId == taskId
    && match stage
       case SelectionStage => r.Selection?
       case OddTaggingStage => r.OddTag?
       case AutoLabelingStage => r.Label?
  }

  ghost predicate PlainRejections(rs: seq<Rejection>, taskId: string, stage: Stage) {
    rs != [] && forall r :: r in rs ==> r.detail == Message && r.taskId == taskId && r.stage == stage
  }

  /** What every refiner guarantees its phase. */
  ghost predicate ProperOutcome(taskId: string, stage: Stage, o: Outcome) {
    match o
    case Refined(r) => BelongsTo(taskId, stage, r)
    case Refused(rs) => PlainRejections(rs, taskId, stage)
    case Raised(_) => true
  }

  lemma RefinedRowsAreProper(lib: Library, taskId: string, stage: Stage, row: RawRow)
    ensures ProperOutcome(taskId, stage, RefineRow(lib, taskId, stage, row))
  {
    match stage
    case SelectionStage =>
      SelectionRefinerCollectsErrors(lib, taskId, row);
      NothingReported(SelectionOrigin(taskId, row), SelectionFaults(lib, row));
      SelectionKind(lib, taskId, row);
      hide SelectionOutcome, SelectionFaults, SomeStops, AllGood, Reports, ValidRow;
    case OddTaggingStage =>
      OddTagRefinerCollectsErrors(lib, taskId, row);
      NothingReported(OddOrigin(taskId, row), OddFaults(lib, row));
      OddKind(lib, taskId, row);
      hide OddOutcome, OddFaults, SomeStops, AllGood, Reports, ValidRow, OddId;
    case AutoLabelingStage =>
      LabelRefinerCollectsErrors(lib, taskId, row);
      NothingReported(LabelOrigin(taskId, row), LabelFaults(lib, row));
      LabelKind(lib, taskId, row);
      hide LabelOutcome, LabelFaults, SomeStops, AllGood, Reports, ValidRow;
  }

  lemma SelectionKind(lib: Library, taskId: string, row: RawRow)
    ensures SelectionOutcome(lib, taskId, row).Refined? ==> SelectionOutcome(lib, taskId, row).row.Selection?
  {
    hide SelectionFaults, FirstStop, Reports, SelectionId, ParseDate, TemperaturePart, WiperPart, HeadlightsPart;
    hide SelectionPath;
  }

  lemma OddKind(lib: Library, taskId: string, row: RawRow)
    ensures OddOutcome(lib, taskId, row).Refined? ==> OddOutcome(lib, taskId, row).row.OddTag?
  {
    hide OddFaults, FirstStop, Reports, OddId, OddVideoId, OddWeather, OddTime, OddSurface;
  }

  lemma LabelKind(lib: Library, taskId: string, row: RawRow)
    ensures LabelOutcome(lib, taskId, row).Refined? ==> LabelOutcome(lib, taskId, row).row.Label?
  {
    hide LabelFaults, FirstStop, Reports, LabelVideoId, LabelClass, LabelCount, LabelConfidence, ParseDate;
  }

  /** The stream of a phase keeps these guarantees through the link check. */
  lemma StreamIsProper(sys: System, id: string, lib: Library, chunkSize: nat, stage: Stage, valid: set<int>)
    ensures var job := JobOf(sys, id, lib, chunkSize);
      var os := Outcomes(job, stage, valid, job.RowsFor(stage));
      && (forall o :: o in os ==> ProperOutcome(id, stage, o))
      && PlainDetails(os)
  {
    var job := JobOf(sys, id, lib, chunkSize);
    var rows := job.RowsFor(stage);
    var os := Outcomes(job, stage, valid, rows);
    hide RefineRow, ValidRow;
    forall o | o in os ensures ProperOutcome(id, stage, o) {
      var i :| 0 <= i < |os| && os[i] == o;
      RefinedRowsAreProper(lib, id, stage, rows[i]);
    }
    assert forall o :: o in os && o.Refused? ==> PlainRejections(o.rejections, id, stage);
  }

  /** No refiner refuses a row without a rejection. */
  lemma RefinersRecordRefusals(sys: System, id: string, lib: Library, chunkSize: nat)
    ensures LateFailure.RefusalsAreRecorded(JobOf(sys, id, lib, chunkSize))
  {
    hide RefineRow;
    forall stage, raw ensures ProperOutcome(id, stage, RefineRow(lib, id, stage, raw)) {
      RefinedRowsAreProper(lib, id, stage, raw);
    }
  }

  /** Rejections are the own stage's, and speak neither of links nor of duplicates. */
  lemma RefinersKeepToTheirOwn(sys: System, id: string, lib: Library, chunkSize: nat)
    ensures PhaseContents.RefinersKeepToTheirFields(JobOf(sys, id, lib, chunkSize))
  {
    hide RefineRow;
    forall stage, raw, r | RefineRow(lib, id, stage, raw).Refused? && r in RefineRow(lib, id, stage, raw).rejections
      ensures r.taskId == id && r.stage == stage && r.detail == Message && r.reason != UnlinkedRecord
    {
      RefinedRowsAreProper(lib, id, stage, raw);
      RejectedFields.RefinersKnowNoLinks(lib, id, stage, raw);
    }
  }

  lemma {:induction false} RowsOfProper(os: seq<Outcome>, taskId: string, stage: Stage)
    requires forall o :: o in os ==> ProperOutcome(taskId, stage, o)
    ensures forall r :: r in RowsOf(os) ==> BelongsTo(taskId, stage, r)
    decreases |os|
  {
    hide BelongsTo, PlainRejections;
    if os == [] {
    } else {
      RowsOfProper(os[..|os| - 1], taskId, stage);
      assert os[|os| - 1] in os;
    }
  }

  /** From ingest to result: after any history, a phase of an accepted task
      streams as many raw rows as its file had and its task says; every one of
      them is loaded, counted as a duplicate, or refused; `rejected` is the
      number of records saved; and every row added is valid and the task's. */
  lemma ConservedFromIngestToResult(
      sys: System, events: seq<Event>, id: string, lib: Library, chunkSize: nat, stage: Stage, valid: set<int>,
        db: Database)
    requires SubmissionHistory.Initial(sys) && IsHistory(sys, events) && After(sys, events).Is(id, Accepted)
    requires chunkSize >= 1
    requires var job := JobOf(After(sys, events), id, lib, chunkSize);
      NoneRaised(Outcomes(job, stage, valid, job.RowsFor(stage)))
    ensures var sys' := After(sys, events);
      var job := JobOf(sys', id, lib, chunkSize);
      var os := Outcomes(job, stage, valid, job.RowsFor(stage));
      var ps := PhaseResult(job, stage, db, os);
      && job.RowsFor(stage) == sys'.submits[id].request.For(stage).rows
      && id in sys'.tasks
      && sys'.tasks[id].ProgressFor(stage).total ==
           ps.loaded + (IgnoredTotal(ps.rejections) - IgnoredTotal(db.rejections)) + RefusedCount(os)
      && ps.rejected == |ps.rejections| - |db.rejections|
      && ps.rejected == |RecordsOf(os)| +
           DuplicateChunks(id, stage, PhaseState(TableOf(db, stage), db.rejections, 0, 0), os, chunkSize)
      && forall r :: r in ps.table ==> r in TableOf(db, stage) || BelongsTo(id, stage, r)
  {
    var sys' := After(sys, events);
    var job := JobOf(sys', id, lib, chunkSize);
    var os := Outcomes(job, stage, valid, job.RowsFor(stage));
    var st := PhaseState(TableOf(db, stage), db.rejections, 0, 0);
    AcceptedTotals(sys, events, id, stage);
    StreamIsProper(sys', id, lib, chunkSize, stage, valid);
    PhaseConserves(id, stage, st, os, chunkSize);
    ChunkingIsOnePass(id, stage, st, os, chunkSize);
    RowsOfProper(os, id, stage);
    InsertIgnoreGrows(TableOf(db, stage), RowsOf(os));
    hide RunChunks, InsertIgnore, FirstOccurrences, RowsOf, RecordsOf, IgnoredTotal, RefusedCount, DuplicateChunks;
    hide BelongsTo, ProperOutcome, RawRows, After, IsHistory;
  }

  lemma AcceptedTotals(sys: System, events: seq<Event>, id: string, stage: Stage)
    requires SubmissionHistory.Initial(sys) && IsHistory(sys, events) && After(sys, events).Is(id, Accepted)
    ensures var sys' := After(sys, events);
      var rows := sys'.submits[id].request.For(stage).rows;
      && sys'.submits[id].request.taskId == id && id in sys'.tasks
      && RawRows(sys'.raw, id, stage) == rows && sys'.tasks[id].ProgressFor(stage).total == |rows|
  {
    SubmitsAreAllOrNothing(sys, events);
    hide RawRows, After, IsHistory;
    var sys' := After(sys, events);
    assert Recorded(sys'.Collections(), sys'.submits[id].request);
  }
}
