/** The worker's stores and the chunk loop of a phase: repositories over a MySQL
    session and a task collection, any operation of which may fail, like the
    reading of the raw rows. */
module Worker {
  import opened Domain
  import opened Tables
  import opened Phase
  import opened Pipeline

  /** `after` is `before` with some first rows of the stream inserted. */
  ghost predicate PartlyWritten(stage: Stage, before: Database, rows: seq<Row>, after: Database) {
    exists k: nat, records: seq<Rejection> ::
      k <= |rows| && after == Put(before, stage, InsertIgnore(TableOf(before, stage), rows[..k]), records)
  }

  function WithRecords(db: Database, records: seq<Rejection>): Database {
    db.(rejections := db.rejections + records)
  }

  /** One MySQL session: its uncommitted view and the committed rows. `failures`
      counts the operations that the server has not answered. */
  class MySqlSession {
    var working: Database
    var committed: Database
    ghost var failures: nat
    const sqlChunkSize: nat

    /** A new session sees what is committed. */
    constructor (committed: Database, sqlChunkSize: nat)
      ensures working == committed && this.committed == committed && this.sqlChunkSize == sqlChunkSize
    {
      working, this.committed, this.sqlChunkSize := committed, committed, sqlChunkSize;
      failures := 0;
    }

    /** One INSERT IGNORE statement; all of it happens or nothing. */
    method Insert(stage: Stage, rows: seq<Row>) returns (rowcount: Try<nat>)
      modifies this`working, this`failures
      ensures failures == old(failures) + if rowcount.Ok? then 0 else 1
      ensures rowcount.Ok? ==>
        && working == Put(old(working), stage, InsertIgnore(TableOf(old(working), stage), rows),
             old(working).rejections)
        && rowcount.value == |TableOf(working, stage)| - |TableOf(old(working), stage)|
      ensures rowcount.Threw? ==> working == old(working) && rowcount.error == OtherError
    {
      var up := *;
      if up {
        var table := TableOf(working, stage);
        InsertIgnoreGrows(table, rows);
        var table' := InsertIgnore(table, rows);
        working := Put(working, stage, table', working.rejections);
        rowcount := Ok(|table'| - |table|);
      } else {
        failures := failures + 1;
        rowcount := Threw(OtherError);
      }
    }

    /** The repositories' `save_all`: the chunk size does not show. */
    method SaveAll(stage: Stage, items: seq<Row>) returns (inserted: Try<nat>)
      requires sqlChunkSize >= 1
      modifies this`working, this`failures
      ensures failures == old(failures) + if inserted.Ok? then 0 else 1
      ensures inserted.Ok? ==>
        && working == Put(old(working), stage, InsertIgnore(TableOf(old(working), stage), items),
             old(working).rejections)
        && inserted.value == |TableOf(working, stage)| - |TableOf(old(working), stage)|
      ensures inserted.Threw? ==> PartlyWritten(stage, old(working), items, working) && inserted.error == OtherError
    {
      hide InsertIgnore;
      var total := 0;
      var i := 0;
      NothingToInsert(TableOf(working, stage), items);
      while i < |items|
        invariant i <= |items| && failures == old(failures)
        invariant working == Put(
          old(working), stage, InsertIgnore(TableOf(old(working), stage), items[..i]), old(working).rejections)
        invariant total == |TableOf(working, stage)| - |TableOf(old(working), stage)|
      {
        var k := Min(sqlChunkSize, |items| - i);
        InsertIgnoreConcat(TableOf(old(working), stage), items[..i], items[i..i + k]);
        assert items[..i] + items[i..i + k] == items[..i + k];
        PutTwice(old(working), stage, TableOf(working, stage), old(working).rejections,
                 InsertIgnore(TableOf(working, stage), items[i..i + k]), old(working).rejections);
        var rowcount := Insert(stage, items[i..i + k]);
        if rowcount.Threw? {
          return Threw(rowcount.error);
        }
        total := total + rowcount.value;
        i := i + k;
      }
      assert items[..|items|] == items;
      inserted := Ok(total);
    }

    /** One flush of some records; all of them go in or none. */
    method AddAll(records: seq<Rejection>) returns (up: bool)
      modifies this`working, this`failures
      ensures failures == old(failures) + if up then 0 else 1
      ensures working == if up then WithRecords(old(working), records) else old(working)
    {
      up := *;
      if up {
        working := WithRecords(working, records);
      } else {
        failures := failures + 1;
      }
    }

    /** The rejection repository's `save_all`: a failure may leave the records of
        some first chunks in the session. */
    method SaveRejections(records: seq<Rejection>) returns (saved: Try<()>)
      requires sqlChunkSize >= 1
      modifies this`working, this`failures
      ensures failures == old(failures) + if saved.Ok? then 0 else 1
      ensures saved.Ok? ==> working == WithRecords(old(working), records)
      ensures saved.Threw? ==>
        && saved.error == OtherError
        && exists n: nat :: n <= |records| && working == WithRecords(old(working), records[..n])
    {
      var i := 0;
      assert WithRecords(working, records[..0]) == working;
      while i < |records|
        invariant i <= |records| && failures == old(failures)
        invariant working == WithRecords(old(working), records[..i])
      {
        var k := Min(sqlChunkSize, |records| - i);
        assert records[..i] + records[i..i + k] == records[..i + k];
        assert old(working).rejections + records[..i] + records[i..i + k] == old(working).rejections + records[..i + k];
        var up := AddAll(records[i..i + k]);
        if !up {
          return Threw(OtherError);
        }
        i := i + k;
      }
      assert records[..|records|] == records;
      saved := Ok(());
    }

    method FindIds(stage: Stage, taskId: string) returns (ids: Try<set<int>>)
      modifies this`failures
      ensures failures == old(failures) + if ids.Ok? then 0 else 1
      ensures ids.Ok? ==> ids.value == IdsOf(TableOf(working, stage), taskId)
      ensures ids.Threw? ==> ids.error == OtherError
    {
      var up := *;
      failures := failures + if up then 0 else 1;
      ids := if up then Ok(IdsOf(TableOf(working, stage), taskId)) else Threw(OtherError);
    }

    /** A commit that fails may have reached the server. */
    method Commit() returns (done: bool)
      modifies this`committed, this`failures
      ensures failures == old(failures) + if done then 0 else 1
      ensures committed == working || (!done && committed == old(committed))
    {
      done := *;
      var applied := *;
      if done || applied {
        committed := working;
      }
      failures := failures + if done then 0 else 1;
    }

    /** Also how a new session starts. */
    method Rollback()
      modifies this`working
      ensures working == committed
    {
      working := committed;
    }
  }

  /** The same tasks under the same ids, up to the content of the one with `id`. */
  ghost predicate OthersKept(before: map<string, AnalyzeTask>, after: map<string, AnalyzeTask>, id: string) {
    && after.Keys == before.Keys
    && (forall x :: x in before && x != id ==> after[x] == before[x])
    && (id in before && before[id].taskId == id ==> after[id].taskId == id)
  }

  /** The tasks in MongoDB. `failures` counts the operations on MongoDB that have
      not been answered. */
  class TaskRepository {
    var tasks: map<string, AnalyzeTask>
    ghost var failures: nat

    /** A failing save may or may not have reached the server. */
    method Save(task: AnalyzeTask) returns (saved: bool)
      modifies this
      ensures tasks == old(tasks)[task.taskId := task] || (!saved && tasks == old(tasks))
      ensures failures == old(failures) + if saved then 0 else 1
    {
      saved := *;
      failures := failures + if saved then 0 else 1;
      var applied := *;
      if saved || applied {
        tasks := tasks[task.taskId := task];
      }
    }

    method FindById(id: string) returns (task: Option<AnalyzeTask>)
      modifies this`failures
      ensures failures == old(failures) || (failures == old(failures) + 1 && task == None)
      ensures failures == old(failures) ==> (task.Some? <==> id in tasks)
      ensures task.Some? ==> id in tasks && task.value == tasks[id]
    {
      var up := *;
      failures := failures + if up then 0 else 1;
      task := if up && id in tasks then Some(tasks[id]) else None;
    }
  }

  class PhaseRunner {
    const job: Job
    const stage: Stage
    const session: MySqlSession
    const taskRepo: TaskRepository

    constructor (job: Job, stage: Stage, session: MySqlSession, taskRepo: TaskRepository)
      ensures this.job == job && this.stage == stage && this.session == session && this.taskRepo == taskRepo
    {
      this.job, this.stage, this.session, this.taskRepo := job, stage, session, taskRepo;
    }

    /** Splits a chunk into refined rows and rejections; the first exception that
        escapes ends it. */
    method RefineChunk(chunk: seq<RawRow>, ids: set<int>) returns (r: Try<(seq<Row>, seq<Rejection>)>)
      ensures var os := Outcomes(job, stage, ids, chunk);
        if r.Ok? then NoneRaised(os) && r.value == (RowsOf(os), RecordsOf(os))
        else !NoneRaised(os) && exists i :: 0 <= i < |os| && os[i] == Raised(r.error) && NoneRaised(os[..i])
    {
      ghost var os := Outcomes(job, stage, ids, chunk);
      var valid: seq<Row>, rejections: seq<Rejection> := [], [];
      for i := 0 to |chunk|
        invariant NoneRaised(os[..i]) && valid == RowsOf(os[..i]) && rejections == RecordsOf(os[..i])
      {
        var result := RefineSingle(job, stage, ids, chunk[i]);
        assert os[..i + 1][..i] == os[..i] && os[i] in os;
        match result
        case Raised(e) => return Threw(e);
        case Refused(records) => rejections := rejections + records;
        case Refined(row) => valid := valid + [row];
      }
      assert os[..|chunk|] == os;
      r := Ok((valid, rejections));
    }

    /** Saves what one chunk was refined into, and counts it. */
    method SaveChunk(valid: seq<Row>, refused: seq<Rejection>) returns (r: Try<(nat, nat)>)
      requires session.sqlChunkSize >= 1
      modifies session`working, session`failures
      ensures session.failures == old(session.failures) + if r.Ok? then 0 else 1
      ensures var before := TableOf(old(session.working), stage);
        var after := InsertIgnore(before, valid);
        var records := refused + DuplicateRecords(job.taskId, stage, |valid| - (|after| - |before|));
        if r.Ok? then
          && session.working == Put(old(session.working), stage, after, old(session.working).rejections + records)
          && r.value == (|after| - |before|, |records|)
        else PartlyWritten(stage, old(session.working), valid, session.working) && r.error == OtherError
    {
      InsertIgnoreGrows(TableOf(session.working, stage), valid);
      var rejections := refused;
      var loaded := 0;
      if valid != [] {
        var inserted := session.SaveAll(stage, valid);
        if inserted.Threw? {
          return Threw(inserted.error);
        }
        loaded := inserted.value;
        if |valid| - loaded > 0 {
          rejections := rejections + [DuplicateRejection(job.taskId, stage, |valid| - loaded)];
        }
      }
      assert valid[..|valid|] == valid;
      if rejections != [] {
        var saved := session.SaveRejections(rejections);
        if saved.Threw? {
          assert session.working == Put(
            old(session.working), stage, InsertIgnore(TableOf(old(session.working), stage), valid[..|valid|]),
            session.working.rejections);
          return Threw(saved.error);
        }
      }
      r := Ok((loaded, |rejections|));
    }

    /** The operations that have not been answered, on either server. */
    ghost function Failures(): nat
      reads session, taskRepo
    {
      session.failures + taskRepo.failures
    }

    /** The chunk loop of a phase. A failure leaves some first rows of the
        stream behind, uncommitted; only the last step touches the task, and a
        save that fails there may still have been stored. */
    method Run(task: AnalyzeTask, ids: set<int>) returns (r: Try<(StageResult, AnalyzeTask)>)
      requires job.chunkSize >= 1 && session.sqlChunkSize >= 1
      modifies session`working, session`failures, taskRepo
      ensures Failures() >= old(Failures())
      ensures Failures() == old(Failures()) ==> (r.Ok? <==> NoneRaised(Outcomes(job, stage, ids, job.RowsFor(stage))))
      ensures var os := Outcomes(job, stage, ids, job.RowsFor(stage));
        var ps := PhaseResult(job, stage, old(session.working), os);
        if r.Ok? then
          && NoneRaised(os)
          && session.working == DatabaseAfter(stage, old(session.working), ps)
          && r.value == (StageResult(task.ProgressFor(stage).total, ps.loaded, ps.rejected), TaskAfter(stage, task, ps))
          && taskRepo.tasks == old(taskRepo.tasks)[task.taskId := r.value.1]
        else
          && PartlyWritten(stage, old(session.working), RowsOf(os), session.working)
          && (!NoneRaised(os) || r.error == OtherError)
          && (taskRepo.tasks == old(taskRepo.tasks) ||
                (NoneRaised(os) && taskRepo.tasks == old(taskRepo.tasks)[task.taskId := TaskAfter(stage, task, ps)]))
      ensures task.taskId in old(taskRepo.tasks) ==> OthersKept(old(taskRepo.tasks), taskRepo.tasks, task.taskId)
    {
      hide InsertIgnore, RowsOf, RecordsOf, RunChunks, Streamed, PartlyWritten, PhaseResult, NoneRaised;
      hide Outcomes, RefineSingle;
      var rows := job.RowsFor(stage);
      ghost var db := session.working;
      ghost var os := Outcomes(job, stage, ids, rows);
      var loaded, rejected, pos := 0, 0, 0;
      NothingYet(job, stage, db, os);
      while true
        invariant pos <= |rows| && Streamed(job, stage, db, os, pos, session.working, loaded, rejected)
        invariant taskRepo.tasks == old(taskRepo.tasks) && Failures() == old(Failures())
        decreases |rows| - pos
      {
        var readable := *;
        if !readable {
          taskRepo.failures := taskRepo.failures + 1;
          StoppedReading(job, stage, db, os, pos, session.working, loaded, rejected);
          return Threw(OtherError);
        }
        var k := Min(job.chunkSize, |rows| - pos);
        var chunk := rows[pos..pos + k];
        if chunk == [] {
          break;
        }
        assert Outcomes(job, stage, ids, chunk) == os[pos..pos + k];
        var refined := RefineChunk(chunk, ids);
        if refined.Threw? {
          StoppedBefore(job, stage, db, os, pos, k, session.working, loaded, rejected);
          return Threw(refined.error);
        }
        var (valid, refused) := refined.value;
        ghost var before := session.working;
        var counts := SaveChunk(valid, refused);
        if counts.Threw? {
          StoppedWithin(job, stage, db, os, pos, k, before, loaded, rejected, session.working);
          return Threw(counts.error);
        }
        OneMoreChunk(job, stage, db, os, pos, k, before, loaded, rejected);
        loaded, rejected := loaded + counts.value.0, rejected + counts.value.1;
        pos := pos + k;
      }
      AllStreamed(job, stage, db, os, session.working, loaded, rejected);
      var task' := task.WithProgress(stage, StageProgress(task.ProgressFor(stage).total, loaded, rejected))
                       .WithCompletedPhase(stage);
      var saved := taskRepo.Save(task');
      if !saved {
        return Threw(OtherError);
      }
      r := Ok((StageResult(task.ProgressFor(stage).total, loaded, rejected), task'));
    }
  }

  /* ---- the chunk loop ---- */

  /** The first `pos` outcomes have been refined, saved and counted. */
  ghost predicate Streamed(
      job: Job, stage: Stage, db: Database, os: seq<Outcome>, pos: nat, working: Database, loaded: nat, rejected: nat)
  {
    && job.chunkSize >= 1 && pos <= |os|
    && NoneRaised(os[..pos])
    && working == Put(db, stage, InsertIgnore(TableOf(db, stage), RowsOf(os[..pos])), working.rejections)
    && PhaseResult(job, stage, db, os) == RunChunks(
         job.taskId, stage, PhaseState(TableOf(working, stage), working.rejections, loaded, rejected), os[pos..],
           job.chunkSize)
  }

  lemma NothingYet(job: Job, stage: Stage, db: Database, os: seq<Outcome>)
    requires job.chunkSize >= 1
    ensures Streamed(job, stage, db, os, 0, db, 0, 0)
  {
    assert os[..0] == [] && os[0..] == os;
  }

  lemma OneMoreChunk(
      job: Job, stage: Stage, db: Database, os: seq<Outcome>, pos: nat, k: nat,
      working: Database, loaded: nat, rejected: nat)
    requires Streamed(job, stage, db, os, pos, working, loaded, rejected)
    requires pos < |os| && k == Min(job.chunkSize, |os| - pos) && NoneRaised(os[pos..pos + k])
    ensures var chunk := os[pos..pos + k];
      var st' := ChunkStep(job.taskId, stage,
        PhaseState(TableOf(working, stage), working.rejections, loaded, rejected), chunk);
      Streamed(job, stage, db, os, pos + k, DatabaseAfter(stage, working, st'), st'.loaded, st'.rejected)
  {
    hide InsertIgnore, RowsOf, RecordsOf;
    PrefixFacts(os, pos, k);
    InsertIgnoreConcat(TableOf(db, stage), RowsOf(os[..pos]), RowsOf(os[pos..pos + k]));
    assert os[pos..][..k] == os[pos..pos + k] && os[pos..][k..] == os[pos + k..];
  }

  lemma AllStreamed(
      job: Job, stage: Stage, db: Database, os: seq<Outcome>, working: Database, loaded: nat, rejected: nat)
    requires Streamed(job, stage, db, os, |os|, working, loaded, rejected)
    ensures NoneRaised(os) && PartlyWritten(stage, db, RowsOf(os), working)
    ensures var ps := PhaseResult(job, stage, db, os);
      working == DatabaseAfter(stage, db, ps) && loaded == ps.loaded && rejected == ps.rejected
  {
    assert os[..|os|] == os && os[|os|..] == [];
    assert RowsOf(os)[..|RowsOf(os)|] == RowsOf(os);
  }

  lemma StoppedReading(
      job: Job, stage: Stage, db: Database, os: seq<Outcome>, pos: nat, working: Database, loaded: nat, rejected: nat)
    requires Streamed(job, stage, db, os, pos, working, loaded, rejected)
    ensures PartlyWritten(stage, db, RowsOf(os), working)
  {
    RowsOfPrefix(os, pos);
  }

  lemma StoppedBefore(
      job: Job, stage: Stage, db: Database, os: seq<Outcome>, pos: nat, k: nat,
      working: Database, loaded: nat, rejected: nat)
    requires Streamed(job, stage, db, os, pos, working, loaded, rejected)
    requires pos + k <= |os| && !NoneRaised(os[pos..pos + k])
    ensures !NoneRaised(os) && PartlyWritten(stage, db, RowsOf(os), working)
  {
    PrefixFacts(os, pos, k);
    StoppedReading(job, stage, db, os, pos, working, loaded, rejected);
  }

  /** A chunk that fails while it is saved leaves a prefix of the stream's rows. */
  lemma StoppedWithin(
      job: Job, stage: Stage, db: Database, os: seq<Outcome>, pos: nat, k: nat,
      working: Database, loaded: nat, rejected: nat, after: Database)
    requires Streamed(job, stage, db, os, pos, working, loaded, rejected)
    requires pos + k <= |os| && PartlyWritten(stage, working, RowsOf(os[pos..pos + k]), after)
    ensures PartlyWritten(stage, db, RowsOf(os), after)
  {
    hide InsertIgnore, RowsOf, RunChunks;
    var first, chunk, rows := RowsOf(os[..pos]), RowsOf(os[pos..pos + k]), RowsOf(os);
    var table := InsertIgnore(TableOf(db, stage), first);
    var n: nat, records: seq<Rejection> :| n <= |chunk| &&
      after == Put(working, stage, InsertIgnore(TableOf(working, stage), chunk[..n]), records);
    PutTwice(db, stage, table, working.rejections, InsertIgnore(table, chunk[..n]), records);
    PrefixOfChunk(os, pos, k, n);
    InsertIgnoreConcat(TableOf(db, stage), first, chunk[..n]);
    assert after == Put(db, stage, InsertIgnore(TableOf(db, stage), rows[..|first| + n]), records);
  }

  lemma NothingToInsert(table: seq<Row>, items: seq<Row>)
    ensures InsertIgnore(table, items[..0]) == table
  {
  }

  lemma PutTwice(db: Database, stage: Stage, t: seq<Row>, r: seq<Rejection>, t': seq<Row>, r': seq<Rejection>)
    ensures TableOf(Put(db, stage, t, r), stage) == t
    ensures Put(Put(db, stage, t, r), stage, t', r') == Put(db, stage, t', r')
  {
  }

  lemma PrefixOfChunk(os: seq<Outcome>, pos: nat, k: nat, n: nat)
    requires pos + k <= |os| && n <= |RowsOf(os[pos..pos + k])|
    ensures var first, chunk, rows := RowsOf(os[..pos]), RowsOf(os[pos..pos + k]), RowsOf(os);
      |first| + n <= |rows| && rows[..|first| + n] == first + chunk[..n]
  {
    PrefixFacts(os, pos, k);
    RowsOfPrefix(os, pos + k);
    var first, chunk, rows := RowsOf(os[..pos]), RowsOf(os[pos..pos + k]), RowsOf(os);
    assert rows[..|first| + |chunk|] == first + chunk;
    assert rows[..|first| + n] == (first + chunk)[..|first| + n];
  }

  lemma RowsOfPrefix(os: seq<Outcome>, pos: nat)
    requires pos <= |os|
    ensures |RowsOf(os[..pos])| <= |RowsOf(os)| && RowsOf(os)[..|RowsOf(os[..pos])|] == RowsOf(os[..pos])
  {
    assert os == os[..pos] + os[pos..];
    RowsOfConcat(os[..pos], os[pos..]);
  }

  lemma PrefixFacts(os: seq<Outcome>, pos: nat, k: nat)
    requires pos + k <= |os|
    ensures RowsOf(os[..pos + k]) == RowsOf(os[..pos]) + RowsOf(os[pos..pos + k])
    ensures NoneRaised(os[..pos]) && NoneRaised(os[pos..pos + k]) ==> NoneRaised(os[..pos + k])
    ensures !NoneRaised(os[pos..pos + k]) ==> !NoneRaised(os)
  {
    assert os[..pos + k] == os[..pos] + os[pos..pos + k];
    RowsOfConcat(os[..pos], os[pos..pos + k]);
    assert forall o :: o in os[pos..pos + k] ==> o in os;
  }
}
