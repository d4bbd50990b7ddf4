/** What a phase that succeeds makes of each raw row, in terms of the refiner's
    outcome and the tables alone: which rows it stores and which records it adds. */
module PhaseContents {
  import opened Domain
  import opened Tables
  import opened Phase
  import opened Pipeline

  /** A refined row that may be stored: its video is selected, or no selection is
      known, or it is a selection itself. */
  predicate IsLinked(job: Job, stage: Stage, ids: set<int>, raw: RawRow) {
    var o := job.refine(stage, raw);
    o.Refined? && (stage == SelectionStage || ids == {} || o.row.videoId in ids)
  }

  /** A refined odd tag or label of an unknown video. */
  predicate IsUnlinked(job: Job, stage: Stage, ids: set<int>, raw: RawRow) {
    var o := job.refine(stage, raw);
    o.Refined? && stage != SelectionStage && ids != {} && o.row.videoId !in ids
  }

  /** No refiner raises on these rows. */
  predicate AllRefine(job: Job, stage: Stage, rows: seq<RawRow>) {
    forall raw :: raw in rows ==> !job.refine(stage, raw).Raised?
  }

  /** What the phase relies on: the refiners' rejections are their own stage's, and
      neither about links nor about duplicates. */
  ghost predicate RefinersKeepToTheirFields(job: Job) {
    forall stage, raw, r :: job.refine(stage, raw).Refused? && r in job.refine(stage, raw).rejections ==>
      r.taskId == job.taskId && r.stage == stage && r.detail == Message && r.reason != UnlinkedRecord
  }

  /* ---- the rows that get through ---- */

  lemma SucceedsExactly(job: Job, stage: Stage, ids: set<int>, rows: seq<RawRow>)
    ensures NoneRaised(Outcomes(job, stage, ids, rows)) <==> AllRefine(job, stage, rows)
  {
    var os := Outcomes(job, stage, ids, rows);
    if NoneRaised(os) {
      forall raw | raw in rows ensures !job.refine(stage, raw).Raised? {
        var i :| 0 <= i < |rows| && rows[i] == raw;
        assert os[i] in os;
      }
    }
  }

  /** The refiner turns one of the raw rows into this row, and it is linked. */
  ghost predicate Yields(job: Job, stage: Stage, ids: set<int>, rows: seq<RawRow>, r: Row) {
    exists raw :: raw in rows && IsLinked(job, stage, ids, raw) && job.refine(stage, raw).row == r
  }

  lemma {:induction false} RowsOfOutcomes(job: Job, stage: Stage, ids: set<int>, rows: seq<RawRow>)
    ensures forall r :: r in RowsOf(Outcomes(job, stage, ids, rows)) <==> Yields(job, stage, ids, rows, r)
    decreases |rows|
  {
    if rows == [] {
    } else {
      var n := |rows| - 1;
      RowsOfOutcomes(job, stage, ids, rows[..n]);
      assert Outcomes(job, stage, ids, rows)[..n] == Outcomes(job, stage, ids, rows[..n]);
      assert rows == rows[..n] + [rows[n]];
    }
  }

  lemma TableOfPhase(job: Job, stage: Stage, db: Database, os: seq<Outcome>)
    requires job.chunkSize >= 1
    ensures var table := PhaseResult(job, stage, db, os).table;
      && TableOf(db, stage) <= table && Keys(RowsOf(os)) <= Keys(table)
      && forall r :: r in table ==> r in TableOf(db, stage) || r in RowsOf(os)
  {
    ChunkingIsOnePass(job.taskId, stage, PhaseState(TableOf(db, stage), db.rejections, 0, 0), os, job.chunkSize);
    hide RunChunks, InsertIgnore, RowsOf;
    InsertIgnoreAddsFirstOccurrences(TableOf(db, stage), RowsOf(os));
    InsertIgnoreGrows(TableOf(db, stage), RowsOf(os));
  }

  /** A phase that succeeds stores the key of every row that the refiner turns into
      a linked one, and adds no other rows. */
  lemma LinkedRowsAreStored(job: Job, stage: Stage, ids: set<int>, db: Database)
    requires job.chunkSize >= 1
    ensures var table := PhaseResult(job, stage, db, Outcomes(job, stage, ids, job.RowsFor(stage))).table;
      && TableOf(db, stage) <= table
      && (forall raw :: raw in job.RowsFor(stage) && IsLinked(job, stage, ids, raw) ==>
            KeyOf(job.refine(stage, raw).row) in Keys(table))
      && (forall r :: r in table ==> r in TableOf(db, stage) || Yields(job, stage, ids, job.RowsFor(stage), r))
  {
    var rows := job.RowsFor(stage);
    var os := Outcomes(job, stage, ids, rows);
    RowsOfOutcomes(job, stage, ids, rows);
    hide RowsOf, Outcomes, PhaseResult;
    TableOfPhase(job, stage, db, os);
    forall raw | raw in rows && IsLinked(job, stage, ids, raw)
      ensures KeyOf(job.refine(stage, raw).row) in Keys(RowsOf(os))
    {
      assert Yields(job, stage, ids, rows, job.refine(stage, raw).row);
    }
  }

  /* ---- the records that are added ---- */

  /** The record of an unlinked row names the video, and a label's class. */
  function UnlinkedRejection(job: Job, stage: Stage, r: Row): Rejection {
    var video := Printed(Whole(r.videoId));
    Rejection(job.taskId, stage, UnlinkedRecord, if r.Label? then Paired(video, ClassName(r.objectClass)) else video,
              VideoIdField, Message)
  }

  /** The records of the raw rows, in order. */
  function RecordsFor(job: Job, stage: Stage, ids: set<int>, rows: seq<RawRow>): seq<Rejection> {
    if rows == [] then []
    else
      var n := |rows| - 1;
      RecordsFor(job, stage, ids, rows[..n]) + RecordsOfRow(job, stage, ids, rows[n])
  }

  function RecordsOfRow(job: Job, stage: Stage, ids: set<int>, raw: RawRow): seq<Rejection> {
    var o := job.refine(stage, raw);
    if o.Refused? then o.rejections
    else if IsUnlinked(job, stage, ids, raw) then [UnlinkedRejection(job, stage, o.row)]
    else []
  }

  function RefusedPlaces(job: Job, stage: Stage, rows: seq<RawRow>): set<int> {
    set i | 0 <= i < |rows| && job.refine(stage, rows[i]).Refused?
  }

  function UnlinkedPlaces(job: Job, stage: Stage, ids: set<int>, rows: seq<RawRow>): set<int> {
    set i | 0 <= i < |rows| && IsUnlinked(job, stage, ids, rows[i])
  }

  lemma OneMoreRefused(job: Job, stage: Stage, rows: seq<RawRow>)
    requires rows != []
    ensures |RefusedPlaces(job, stage, rows)| == |RefusedPlaces(job, stage, rows[..|rows| - 1])| +
      if job.refine(stage, rows[|rows| - 1]).Refused? then 1 else 0
  {
    var n := |rows| - 1;
    var earlier := RefusedPlaces(job, stage, rows[..n]);
    if job.refine(stage, rows[n]).Refused? {
      assert RefusedPlaces(job, stage, rows) == earlier + {n} && n !in earlier;
    } else {
      assert RefusedPlaces(job, stage, rows) == earlier;
    }
  }

  lemma OneMoreUnlinked(job: Job, stage: Stage, ids: set<int>, rows: seq<RawRow>)
    requires rows != []
    ensures |UnlinkedPlaces(job, stage, ids, rows)| == |UnlinkedPlaces(job, stage, ids, rows[..|rows| - 1])| +
      if IsUnlinked(job, stage, ids, rows[|rows| - 1]) then 1 else 0
  {
    hide IsUnlinked;
    var n := |rows| - 1;
    var earlier := UnlinkedPlaces(job, stage, ids, rows[..n]);
    if IsUnlinked(job, stage, ids, rows[n]) {
      assert UnlinkedPlaces(job, stage, ids, rows) == earlier + {n} && n !in earlier;
    } else {
      assert UnlinkedPlaces(job, stage, ids, rows) == earlier;
    }
  }

  lemma {:induction false} RecordsOfOutcomes(job: Job, stage: Stage, ids: set<int>, rows: seq<RawRow>)
    ensures var os := Outcomes(job, stage, ids, rows);
      && RecordsOf(os) == RecordsFor(job, stage, ids, rows)
      && RefusedCount(os) == |RefusedPlaces(job, stage, rows)| + |UnlinkedPlaces(job, stage, ids, rows)|
    decreases |rows|
  {
    if rows == [] {
    } else {
      var n := |rows| - 1;
      RecordsOfOutcomes(job, stage, ids, rows[..n]);
      OneMoreRefused(job, stage, rows);
      OneMoreUnlinked(job, stage, ids, rows);
      hide RefusedPlaces, UnlinkedPlaces;
      assert Outcomes(job, stage, ids, rows)[..n] == Outcomes(job, stage, ids, rows[..n]);
    }
  }

  /** The records without those of the duplicates. */
  function WithoutBatches(records: seq<Rejection>): seq<Rejection> {
    if records == [] then []
    else
      var n := |records| - 1;
      WithoutBatches(records[..n]) + if records[n].detail == Message then [records[n]] else []
  }

  /** The number of records with this reason. */
  function NumberOf(records: seq<Rejection>, reason: Reason): nat {
    if records == [] then 0
    else
      var n := |records| - 1;
      NumberOf(records[..n], reason) + if records[n].reason == reason then 1 else 0
  }

  lemma {:induction false} RecordsConcat(a: seq<Rejection>, b: seq<Rejection>, reason: Reason)
    ensures WithoutBatches(a + b) == WithoutBatches(a) + WithoutBatches(b)
    ensures NumberOf(a + b, reason) == NumberOf(a, reason) + NumberOf(b, reason)
    decreases |b|
  {
    if b == [] {
      assert a + b == a;
    } else {
      var n := |b| - 1;
      RecordsConcat(a, b[..n], reason);
      assert (a + b)[..|a| + n] == a + b[..n];
    }
  }

  lemma {:induction false} PlainOnes(records: seq<Rejection>)
    requires forall r :: r in records ==> r.detail == Message
    ensures WithoutBatches(records) == records
    decreases |records|
  {
    if records != [] {
      PlainOnes(records[..|records| - 1]);
    }
  }

  /** The record of a chunk's duplicates. Only odd tags have a reason of their own. */
  predicate IsBatchRecord(job: Job, stage: Stage, r: Rejection) {
    && r.taskId == job.taskId && r.stage == stage && r.source == Batch && r.field == UniqueConstraint
    && r.reason == (if stage == OddTaggingStage then DuplicateTagging else DuplicateLabel)
    && r.detail.IgnoredRows? && r.detail.count > 0
  }

  /** What the records `after` have on top of `before`. */
  ghost predicate Adds(job: Job, stage: Stage, before: seq<Rejection>, after: seq<Rejection>, records: seq<Rejection>) {
    && WithoutBatches(after) == WithoutBatches(before) + records
    && NumberOf(after, UnlinkedRecord) == NumberOf(before, UnlinkedRecord) + NumberOf(records, UnlinkedRecord)
    && before <= after
    && forall r :: r in after[|before|..] ==> r in records || IsBatchRecord(job, stage, r)
  }

  lemma DuplicatesAreBatches(job: Job, stage: Stage, count: int)
    ensures var duplicates := DuplicateRecords(job.taskId, stage, count);
      && WithoutBatches(duplicates) == [] && NumberOf(duplicates, UnlinkedRecord) == 0
      && forall r :: r in duplicates ==> IsBatchRecord(job, stage, r)
  {
    assert count > 0 ==> DuplicateRecords(job.taskId, stage, count)[..0] == [];
  }

  lemma AddsThese(
      job: Job, stage: Stage, before: seq<Rejection>, records: seq<Rejection>, duplicates: seq<Rejection>)
    requires forall r :: r in records ==> r.detail == Message
    requires WithoutBatches(duplicates) == [] && NumberOf(duplicates, UnlinkedRecord) == 0
    requires forall r :: r in duplicates ==> IsBatchRecord(job, stage, r)
    ensures Adds(job, stage, before, before + (records + duplicates), records)
  {
    hide IsBatchRecord, WithoutBatches, NumberOf;
    PlainOnes(records);
    RecordsConcat(records, duplicates, UnlinkedRecord);
    assert WithoutBatches(records + duplicates) == records;
    RecordsConcat(before, records + duplicates, UnlinkedRecord);
    assert (before + (records + duplicates))[|before|..] == records + duplicates;
  }

  lemma ChunkAdds(job: Job, stage: Stage, st: PhaseState, os: seq<Outcome>)
    requires forall r :: r in RecordsOf(os) ==> r.detail == Message
    ensures Adds(job, stage, st.rejections, ChunkStep(job.taskId, stage, st, os).rejections, RecordsOf(os))
  {
    hide Adds, InsertIgnore, RowsOf, RecordsOf, DuplicateRecords, Ignored, WithoutBatches, NumberOf, IsBatchRecord;
    var duplicates := DuplicateRecords(job.taskId, stage, Ignored(st.table, os));
    DuplicatesAreBatches(job, stage, Ignored(st.table, os));
    AddsThese(job, stage, st.rejections, RecordsOf(os), duplicates);
  }

  lemma AddsTwice(
      job: Job, stage: Stage, before: seq<Rejection>, mid: seq<Rejection>, after: seq<Rejection>,
      first: seq<Rejection>, then_: seq<Rejection>)
    requires Adds(job, stage, before, mid, first) && Adds(job, stage, mid, after, then_)
    ensures Adds(job, stage, before, after, first + then_)
  {
    RecordsConcat(first, then_, UnlinkedRecord);
    hide WithoutBatches, NumberOf, IsBatchRecord;
    assert after[|before|..] == mid[|before|..] + after[|mid|..];
  }

  lemma {:induction false} PhaseAdds(job: Job, stage: Stage, st: PhaseState, os: seq<Outcome>)
    requires job.chunkSize >= 1 && forall r :: r in RecordsOf(os) ==> r.detail == Message
    ensures Adds(job, stage, st.rejections, RunChunks(job.taskId, stage, st, os, job.chunkSize).rejections,
                 RecordsOf(os))
    decreases |os|
  {
    if os == [] {
      assert RecordsOf(os) == [];
    } else {
      var k := Min(job.chunkSize, |os|);
      var mid := ChunkStep(job.taskId, stage, st, os[..k]);
      assert os == os[..k] + os[k..];
      RowsOfConcat(os[..k], os[k..]);
      hide RecordsOf, ChunkStep, Adds;
      ChunkAdds(job, stage, st, os[..k]);
      PhaseAdds(job, stage, mid, os[k..]);
      AddsTwice(job, stage, st.rejections, mid.rejections,
                RunChunks(job.taskId, stage, mid, os[k..], job.chunkSize).rejections,
                RecordsOf(os[..k]), RecordsOf(os[k..]));
    }
  }

  lemma {:induction false} NothingElseIsUnlinked(records: seq<Rejection>)
    requires forall r :: r in records ==> r.reason != UnlinkedRecord
    ensures NumberOf(records, UnlinkedRecord) == 0
    decreases |records|
  {
    if records != [] {
      NothingElseIsUnlinked(records[..|records| - 1]);
    }
  }

  lemma {:induction false} UnlinkedRecords(job: Job, stage: Stage, ids: set<int>, rows: seq<RawRow>)
    requires RefinersKeepToTheirFields(job)
    ensures NumberOf(RecordsFor(job, stage, ids, rows), UnlinkedRecord) == |UnlinkedPlaces(job, stage, ids, rows)|
    ensures forall r :: r in RecordsFor(job, stage, ids, rows) ==> r.detail == Message
    decreases |rows|
  {
    if rows != [] {
      var n := |rows| - 1;
      UnlinkedRecords(job, stage, ids, rows[..n]);
      OneMoreUnlinked(job, stage, ids, rows);
      RecordsConcat(RecordsFor(job, stage, ids, rows[..n]), RecordsOfRow(job, stage, ids, rows[n]), UnlinkedRecord);
      hide UnlinkedPlaces, NumberOf, RecordsOfRow, IsUnlinked;
      UnlinkedRecordsOfRow(job, stage, ids, rows[n]);
    }
  }

  lemma UnlinkedRecordsOfRow(job: Job, stage: Stage, ids: set<int>, raw: RawRow)
    requires RefinersKeepToTheirFields(job)
    ensures NumberOf(RecordsOfRow(job, stage, ids, raw), UnlinkedRecord) ==
      if IsUnlinked(job, stage, ids, raw) then 1 else 0
    ensures forall r :: r in RecordsOfRow(job, stage, ids, raw) ==> r.detail == Message
  {
    var o := job.refine(stage, raw);
    if o.Refused? {
      NothingElseIsUnlinked(o.rejections);
    } else {
      assert IsUnlinked(job, stage, ids, raw) ==> [UnlinkedRejection(job, stage, o.row)][..0] == [];
    }
  }

  /** The records of a phase: each refused row's own, one for each unlinked row, in
      the order of the rows, and besides them only records of duplicates. */
  lemma RecordsAreExact(job: Job, stage: Stage, ids: set<int>, db: Database)
    requires job.chunkSize >= 1 && RefinersKeepToTheirFields(job)
    ensures var rows := job.RowsFor(stage);
      var os := Outcomes(job, stage, ids, rows);
      var after := PhaseResult(job, stage, db, os).rejections;
      && db.rejections <= after
      && WithoutBatches(after) == WithoutBatches(db.rejections) + RecordsFor(job, stage, ids, rows)
      && NumberOf(after, UnlinkedRecord) ==
           NumberOf(db.rejections, UnlinkedRecord) + |UnlinkedPlaces(job, stage, ids, rows)|
      && RefusedCount(os) == |RefusedPlaces(job, stage, rows)| + |UnlinkedPlaces(job, stage, ids, rows)|
      && forall r :: r in after[|db.rejections|..] ==>
           r in RecordsFor(job, stage, ids, rows) || IsBatchRecord(job, stage, r)
  {
    var rows := job.RowsFor(stage);
    var os := Outcomes(job, stage, ids, rows);
    RecordsOfOutcomes(job, stage, ids, rows);
    UnlinkedRecords(job, stage, ids, rows);
    hide RecordsFor, RecordsOf, Outcomes, RefinersKeepToTheirFields, RunChunks, RefusedPlaces, UnlinkedPlaces;
    PhaseAdds(job, stage, PhaseState(TableOf(db, stage), db.rejections, 0, 0), os);
  }
}
