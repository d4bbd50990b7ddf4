/** Submitting an analysis: the three files are loaded in chunks, the task is
    created unless another one is active, and the outbox message is stored, all
    in one transaction. */
module Submission {
  import opened Domain
  import opened Tables
  import opened OutboxStore

  /** A document of the raw collection; `source` names the file by the stage
      that reads it. */
  datatype RawDoc = RawDoc(taskId: string, source: Stage, data: RawRow)

  datatype Mongo = Mongo(raw: seq<RawDoc>, tasks: map<string, AnalyzeTask>, outbox: Store)

  /** The collections after a transaction with these writes. */
  function Apply(db: Mongo, writes: Mongo): Mongo {
    Mongo(db.raw + writes.raw, db.tasks + writes.tasks, db.outbox + writes.outbox)
  }

  /** What reading a file yields: some rows, and then perhaps an exception. */
  datatype Records = Records(rows: seq<RawRow>, failure: Option<Error>)

  /** One call of `submit`, with the ids it generates. */
  datatype Request = Request(
    taskId: string, messageId: string, now: int, selections: Records, odds: Records, labels: Records)
  {
    function For(stage: Stage): Records {
      match stage
      case SelectionStage => selections
      case OddTaggingStage => odds
      case AutoLabelingStage => labels
    }

    predicate Readable() {
      forall stage: Stage :: For(stage).failure == None
    }

    /** Some file is missing or malformed. */
    ghost predicate IsUnreadable() {
      exists stage: Stage :: For(stage).failure == Some(DomainError)
    }
  }

  function Docs(taskId: string, source: Stage, rows: seq<RawRow>): (docs: seq<RawDoc>)
    ensures |docs| == |rows| && forall i :: 0 <= i < |rows| ==> docs[i] == RawDoc(taskId, source, rows[i])
  {
    seq(|rows|, i requires 0 <= i < |rows| => RawDoc(taskId, source, rows[i]))
  }

  lemma DocsStepwise(taskId: string, source: Stage, rows: seq<RawRow>, i: nat, k: nat)
    requires i + k <= |rows|
    ensures Docs(taskId, source, rows[..i + k]) ==
      Docs(taskId, source, rows[..i]) + Docs(taskId, source, rows[i..i + k])
  {
  }

  lemma DocsEnds(taskId: string, source: Stage, rows: seq<RawRow>)
    ensures Docs(taskId, source, rows[..0]) == []
    ensures Docs(taskId, source, rows[..|rows|]) == Docs(taskId, source, rows)
  {
    assert rows[..|rows|] == rows;
  }

  function WithDocs(writes: Mongo, docs: seq<RawDoc>): Mongo {
    writes.(raw := writes.raw + docs)
  }

  lemma WithDocsTwice(writes: Mongo, a: seq<RawDoc>, b: seq<RawDoc>)
    ensures WithDocs(WithDocs(writes, a), b) == WithDocs(writes, a + b)
    ensures WithDocs(writes, []) == writes
  {
  }

  function AllDocs(r: Request): seq<RawDoc> {
    Docs(r.taskId, SelectionStage, r.selections.rows) +
    Docs(r.taskId, OddTaggingStage, r.odds.rows) +
    Docs(r.taskId, AutoLabelingStage, r.labels.rows)
  }

  function TaskFor(r: Request): AnalyzeTask {
    AnalyzeTask.CreateNew(r.taskId, |r.selections.rows|, |r.odds.rows|, |r.labels.rows|)
  }

  function MessageFor(r: Request): OutboxMessage {
    OutboxMessage.CreateAnalyzeEvent(r.messageId, r.taskId, r.now)
  }

  lemma FailureIsUnreadable(r: Request)
    ensures r.selections.failure == Some(DomainError) ==> r.IsUnreadable()
    ensures r.odds.failure == Some(DomainError) ==> r.IsUnreadable()
    ensures r.labels.failure == Some(DomainError) ==> r.IsUnreadable()
    ensures r.Readable() ==> r.selections.failure == r.odds.failure == r.labels.failure == None
  {
    assert r.For(SelectionStage) == r.selections && r.For(OddTaggingStage) == r.odds;
    assert r.For(AutoLabelingStage) == r.labels;
  }

  /** Everything a successful submit writes. */
  function Writes(r: Request): Mongo {
    Mongo(AllDocs(r), map[r.taskId := TaskFor(r)], map[r.messageId := MessageFor(r)])
  }

  /** A fresh task: pending, nothing processed, its totals the lengths of the files. */
  predicate IsFreshTask(r: Request, task: AnalyzeTask) {
    && task.taskId == r.taskId && task.status == TaskPending
    && task.lastCompletedPhase == None && task.result == None && task.error == None
    && task.selectionProgress.total == |r.selections.rows|
    && task.oddTaggingProgress.total == |r.odds.rows|
    && task.autoLabelingProgress.total == |r.labels.rows|
    && task.selectionProgress.processed == task.selectionProgress.rejected == 0
    && task.oddTaggingProgress.processed == task.oddTaggingProgress.rejected == 0
    && task.autoLabelingProgress.processed == task.autoLabelingProgress.rejected == 0
  }

  /** A fresh message: pending, to be dispatched for the task, with three retries. */
  predicate IsFreshMessage(r: Request, m: OutboxMessage) {
    && m.messageId == r.messageId && m.messageType == Analyze && m.taskId == Some(r.taskId)
    && m.status == Pending && m.retryCount == 0 && m.maxRetries == 3
    && m.createdAt == r.now && m.updatedAt == r.now
  }

  lemma WritesAreFresh(r: Request)
    ensures r.taskId in Writes(r).tasks && IsFreshTask(r, Writes(r).tasks[r.taskId])
    ensures r.messageId in Writes(r).outbox && IsFreshMessage(r, Writes(r).outbox[r.messageId])
  {
  }

  ghost predicate SomeActive(tasks: map<string, AnalyzeTask>) {
    exists id :: id in tasks && tasks[id].IsActive()
  }

  /** The database with the session of the open transaction, if there is one:
      its writes show to the session at once and to others on commit. `failures`
      counts the operations that the server has not answered. */
  class MongoDatabase {
    var committed: Mongo
    var session: Option<Mongo>
    ghost var failures: nat
    const bulkInsertSize: nat

    constructor (bulkInsertSize: nat)
      ensures committed == Mongo([], map[], map[]) && session == None && this.bulkInsertSize == bulkInsertSize
    {
      this.bulkInsertSize := bulkInsertSize;
      committed, session, failures := Mongo([], map[], map[]), None, 0;
    }

    method InsertMany(docs: seq<RawDoc>) returns (up: bool)
      requires session.Some?
      modifies this`session, this`failures
      ensures failures == old(failures) + if up then 0 else 1
      ensures session == if up then Some(WithDocs(old(session).value, docs)) else old(session)
    {
      up := *;
      if up {
        session := Some(WithDocs(session.value, docs));
      } else {
        failures := failures + 1;
      }
    }

    method BulkSave(taskId: string, source: Stage, items: seq<RawRow>) returns (saved: Try<nat>)
      requires bulkInsertSize >= 1 && session.Some?
      modifies this`session, this`failures
      ensures session.Some? && failures == old(failures) + if saved.Ok? then 0 else 1
      ensures saved.Ok? ==>
        && saved.value == |items|
        && session.value == WithDocs(old(session).value, Docs(taskId, source, items))
      ensures saved.Threw? ==> saved.error == OtherError
    {
      DocsEnds(taskId, source, items);
      WithDocsTwice(session.value, [], []);
      hide Docs, WithDocs;
      var total := 0;
      var i := 0;
      while i < |items|
        invariant total == i <= |items| && failures == old(failures)
        invariant session.Some?
        invariant session.value == WithDocs(old(session).value, Docs(taskId, source, items[..i]))
      {
        var k := if bulkInsertSize < |items| - i then bulkInsertSize else |items| - i;
        var chunk := items[i..i + k];
        DocsStepwise(taskId, source, items, i, k);
        WithDocsTwice(old(session).value, Docs(taskId, source, items[..i]), Docs(taskId, source, chunk));
        var up := InsertMany(Docs(taskId, source, chunk));
        if !up {
          return Threw(OtherError);
        }
        total := total + |chunk|;
        i := i + k;
      }
      saved := Ok(total);
    }

    /** Refuses while a task is pending or processing, and only then. */
    method CreateIfNotActive(task: AnalyzeTask) returns (created: Try<()>)
      requires session.Some?
      modifies this`session, this`failures
      ensures session.Some? && failures == old(failures) + if created == Threw(OtherError) then 1 else 0
      ensures created.Ok? ==>
        && !SomeActive(committed.tasks + old(session).value.tasks)
        && session.value == old(session).value.(tasks := old(session).value.tasks[task.taskId := task])
      ensures created.Ok? ==> forall id :: id in committed.tasks && id !in old(session).value.tasks ==>
        committed.tasks[id].status == TaskCompleted || committed.tasks[id].status == TaskFailed
      ensures created.Threw? ==> session == old(session)
      ensures created == Threw(DomainError) ==>
        var view := committed.tasks + old(session).value.tasks;
        && SomeActive(view)
        && exists id :: id in view && (view[id].status == TaskPending || view[id].status == TaskProcessing)
    {
      var up := *;
      if !up {
        failures := failures + 1;
        return Threw(OtherError);
      }
      var view := committed.tasks + session.value.tasks;
      if id :| id in view && view[id].IsActive() {
        return Threw(DomainError);
      }
      session := Some(session.value.(tasks := session.value.tasks[task.taskId := task]));
      created := Ok(());
    }

    method SaveMessage(m: OutboxMessage) returns (up: bool)
      requires session.Some?
      modifies this`session, this`failures
      ensures session.Some? && failures == old(failures) + if up then 0 else 1
      ensures up ==> session.value == old(session).value.(outbox := Save(old(session).value.outbox, m))
    {
      up := *;
      if up {
        session := Some(session.value.(outbox := Save(session.value.outbox, m)));
      } else {
        failures := failures + 1;
      }
    }

    /** `start_transaction`. */
    method Begin() returns (up: bool)
      requires session == None
      modifies this`session, this`failures
      ensures failures == old(failures) + if up then 0 else 1
      ensures session == if up then Some(Mongo([], map[], map[])) else None
    {
      up := *;
      session := if up then Some(Mongo([], map[], map[])) else None;
      failures := failures + if up then 0 else 1;
    }

    /** A commit that fails may have reached the server. */
    method Commit() returns (done: bool)
      requires session.Some?
      modifies this
      ensures session == None && failures == old(failures) + if done then 0 else 1
      ensures committed == Apply(old(committed), old(session).value) || (!done && committed == old(committed))
    {
      done := *;
      var applied := *;
      if done || applied {
        committed := Apply(committed, session.value);
      }
      failures := failures + if done then 0 else 1;
      session := None;
    }

    method Abort()
      modifies this`session
      ensures session == None
    {
      session := None;
    }
  }

  class DataIngestor {
    const db: MongoDatabase
    const chunkSize: nat

    constructor (db: MongoDatabase, chunkSize: nat)
      ensures this.db == db && this.chunkSize == chunkSize
    {
      this.db, this.chunkSize := db, chunkSize;
    }

    /** Both chunk sizes disappear in the result. An exception of the reader
        shows when a chunk reaches it. */
    method LoadAndSave(file: Records, taskId: string, source: Stage) returns (loaded: Try<nat>)
      requires chunkSize >= 1 && db.bulkInsertSize >= 1 && db.session.Some?
      modifies db`session, db`failures
      ensures db.session.Some? && db.failures >= old(db.failures)
      ensures db.failures == old(db.failures) ==> (loaded.Ok? <==> file.failure == None)
      ensures loaded.Ok? ==>
        && file.failure == None && loaded.value == |file.rows|
        && db.session.value == WithDocs(old(db.session).value, Docs(taskId, source, file.rows))
      ensures loaded.Threw? ==> loaded.error == OtherError || file.failure == Some(loaded.error)
    {
      DocsEnds(taskId, source, file.rows);
      WithDocsTwice(db.session.value, [], []);
      hide Docs, WithDocs;
      var total := 0;
      var pos := 0;
      while true
        invariant total == pos <= |file.rows| && db.failures == old(db.failures)
        invariant db.session.Some?
        invariant db.session.value == WithDocs(old(db.session).value, Docs(taskId, source, file.rows[..pos]))
        decreases |file.rows| - pos
      {
        var left := |file.rows| - pos;
        if left < chunkSize && file.failure.Some? {
          return Threw(file.failure.value);
        }
        var k := if chunkSize < left then chunkSize else left;
        if k == 0 {
          break;
        }
        var chunk := file.rows[pos..pos + k];
        DocsStepwise(taskId, source, file.rows, pos, k);
        WithDocsTwice(old(db.session).value, Docs(taskId, source, file.rows[..pos]), Docs(taskId, source, chunk));
        var saved := db.BulkSave(taskId, source, chunk);
        if saved.Threw? {
          return saved;
        }
        total := total + saved.value;
        pos := pos + k;
      }
      loaded := Ok(total);
    }
  }

  class AnalysisService {
    const db: MongoDatabase
    const ingestor: DataIngestor

    constructor (db: MongoDatabase, ingestor: DataIngestor)
      ensures this.db == db && this.ingestor == ingestor
    {
      this.db, this.ingestor := db, ingestor;
    }

    predicate Ready()
      reads db
    {
      ingestor.db == db && ingestor.chunkSize >= 1 && db.bulkInsertSize >= 1 && db.session == None
    }

    /** The body of the transaction. */
    method WriteAll(r: Request) returns (written: Try<()>)
      requires ingestor.db == db && ingestor.chunkSize >= 1 && db.bulkInsertSize >= 1
      requires db.session == Some(Mongo([], map[], map[]))
      modifies db`session, db`failures
      ensures db.session.Some? && db.failures >= old(db.failures)
      ensures db.failures == old(db.failures) ==> (written.Ok? <==> r.Readable() && !SomeActive(db.committed.tasks))
      ensures written.Ok? ==> r.Readable() && !SomeActive(db.committed.tasks) && db.session.value == Writes(r)
      ensures written.Ok? ==> forall id :: id in db.committed.tasks ==>
        db.committed.tasks[id].status == TaskCompleted || db.committed.tasks[id].status == TaskFailed
      ensures written == Threw(DomainError) ==> SomeActive(db.committed.tasks) || r.IsUnreadable()
    {
      FailureIsUnreadable(r);
      var selected := ingestor.LoadAndSave(r.selections, r.taskId, SelectionStage);
      if selected.Threw? { return Threw(selected.error); }
      var tagged := ingestor.LoadAndSave(r.odds, r.taskId, OddTaggingStage);
      if tagged.Threw? { return Threw(tagged.error); }
      var labeled := ingestor.LoadAndSave(r.labels, r.taskId, AutoLabelingStage);
      if labeled.Threw? { return Threw(labeled.error); }
      var task := AnalyzeTask.CreateNew(r.taskId, selected.value, tagged.value, labeled.value);
      assert db.committed.tasks + map[] == db.committed.tasks;
      var created := db.CreateIfNotActive(task);
      if created.Threw? {
        assert created.error == DomainError || created.error == OtherError;
        return created;
      }
      var up := db.SaveMessage(OutboxMessage.CreateAnalyzeEvent(r.messageId, r.taskId, r.now));
      written := if up then Ok(()) else Threw(OtherError);
    }

    /** All or nothing: a submit that answers has written everything; one that
        raises has written nothing, unless only the answer to its commit was
        lost. An unreadable file or an active task always leaves no trace, and
        nothing else is reported as a domain error. If the server answers every
        operation, these are the only obstacles. */
    method Submit(r: Request) returns (answer: Try<string>)
      requires Ready()
      modifies db
      ensures Ready() && db.failures >= old(db.failures)
      ensures db.failures == old(db.failures) ==>
        (answer.Ok? <==> r.Readable() && !SomeActive(old(db.committed).tasks))
      ensures answer.Ok? ==>
        && answer.value == r.taskId
        && r.Readable() && !SomeActive(old(db.committed).tasks)
        && db.committed == Apply(old(db.committed), Writes(r))
      ensures answer.Ok? ==>
        && r.taskId in db.committed.tasks && IsFreshTask(r, db.committed.tasks[r.taskId])
        && r.messageId in db.committed.outbox && IsFreshMessage(r, db.committed.outbox[r.messageId])
        && forall id :: id in old(db.committed).tasks ==>
             old(db.committed).tasks[id].status == TaskCompleted || old(db.committed).tasks[id].status == TaskFailed
      ensures answer.Threw? ==>
        || db.committed == old(db.committed)
        || (r.Readable() && !SomeActive(old(db.committed).tasks) && db.committed == Apply(old(db.committed), Writes(r)))
      ensures answer == Threw(DomainError) ==>
        db.committed == old(db.committed) && (SomeActive(old(db.committed).tasks) || r.IsUnreadable())
    {
      WritesAreFresh(r);
      var begun := db.Begin();
      if !begun {
        return Threw(OtherError);
      }
      var written := WriteAll(r);
      if written.Threw? {
        db.Abort();
        return Threw(written.error);
      }
      var done := db.Commit();
      answer := if done then Ok(r.taskId) else Threw(OtherError);
    }
  }
}
