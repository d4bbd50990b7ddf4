/** The whole of MongoDB over time: overlapping submits, the outbox protocol
    and the worker's task updates, in any order. A submit takes effect when it
    commits; its ids are new. */
module SubmissionHistory {
  import opened Domain
  import opened Tables
  import opened OutboxStore
  import OutboxProtocol
  import opened Submission

  datatype Phase = Open | Accepted | Dropped

  datatype Submit = Submit(request: Request, phase: Phase)

  /** `submits` remembers every submit under its task id. */
  datatype System = System(
    raw: seq<RawDoc>, tasks: map<string, AnalyzeTask>, outbox: OutboxProtocol.State, submits: map<string, Submit>)
  {
    function Collections(): Mongo {
      Mongo(raw, tasks, outbox.store)
    }

    predicate Is(id: string, phase: Phase) {
      id in submits && submits[id].phase == phase
    }
  }

  datatype Event =
    | SubmitBegins(request: Request)
    | SubmitCommits(id: string)
    | SubmitFails(id: string)
    | OutboxMoves(step: OutboxProtocol.Step)
    | TaskSaved(task: AnalyzeTask)

  /** What the worker leaves alone in a task. */
  predicate SameJob(a: AnalyzeTask, b: AnalyzeTask) {
    && a.taskId == b.taskId
    && a.selectionProgress.total == b.selectionProgress.total
    && a.oddTaggingProgress.total == b.oddTaggingProgress.total
    && a.autoLabelingProgress.total == b.autoLabelingProgress.total
  }

  ghost predicate NewMessageId(sys: System, m: string) {
    forall id :: id in sys.submits ==> sys.submits[id].request.messageId != m
  }

  ghost predicate Enabled(sys: System, e: Event) {
    match e
    case SubmitBegins(r) => r.taskId !in sys.submits && NewMessageId(sys, r.messageId)
    case SubmitCommits(id) => sys.Is(id, Open) && sys.submits[id].request.Readable()
    case SubmitFails(id) => sys.Is(id, Open)
    case OutboxMoves(step) => !step.Submit? && OutboxProtocol.Enabled(sys.outbox, step)
    case TaskSaved(task) => task.taskId in sys.tasks && SameJob(sys.tasks[task.taskId], task)
  }

  ghost function Next(sys: System, e: Event): System
    requires Enabled(sys, e)
  {
    match e
    case SubmitBegins(r) => sys.(submits := sys.submits[r.taskId := Submit(r, Open)])
    case SubmitCommits(id) =>
      var r := sys.submits[id].request;
      var db := Apply(sys.Collections(), Writes(r));
      System(db.raw, db.tasks, sys.outbox.(store := db.outbox), sys.submits[id := Submit(r, Accepted)])
    case SubmitFails(id) => sys.(submits := sys.submits[id := sys.submits[id].(phase := Dropped)])
    case OutboxMoves(step) => sys.(outbox := OutboxProtocol.Next(sys.outbox, step))
    case TaskSaved(task) => sys.(tasks := sys.tasks[task.taskId := task])
  }

  ghost predicate Initial(sys: System) {
    OutboxProtocol.Initial(sys.outbox) && sys.raw == [] && sys.tasks == map[] && sys.submits == map[]
  }

  ghost predicate IsHistory(sys: System, events: seq<Event>)
    decreases |events|
  {
    events == [] || (Enabled(sys, events[0]) && IsHistory(Next(sys, events[0]), events[1..]))
  }

  ghost function After(sys: System, events: seq<Event>): System
    requires IsHistory(sys, events)
    decreases |events|
  {
    if events == [] then sys else After(Next(sys, events[0]), events[1..])
  }

  /* ---- what the collections say about a submit ---- */

  /** `find_by_task_and_source`. */
  function RawRows(raw: seq<RawDoc>, id: string, stage: Stage): seq<RawRow> {
    if raw == [] then []
    else
      var n := |raw| - 1;
      RawRows(raw[..n], id, stage) + (if raw[n].taskId == id && raw[n].source == stage then [raw[n].data] else [])
  }

  function MessagesFor(outbox: Store, id: string): set<string> {
    set m | m in outbox && outbox[m].taskId == Some(id)
  }

  /** The rows of each file in order, a task whose totals are their numbers, and
      one ANALYZE message. */
  ghost predicate Recorded(db: Mongo, r: Request) {
    && (forall stage: Stage :: RawRows(db.raw, r.taskId, stage) == r.For(stage).rows)
    && r.taskId in db.tasks && SameJob(TaskFor(r), db.tasks[r.taskId])
    && MessagesFor(db.outbox, r.taskId) == {r.messageId}
    && db.outbox[r.messageId].messageType == Analyze
  }

  ghost predicate NoTrace(db: Mongo, r: Request) {
    && (forall d :: d in db.raw ==> d.taskId != r.taskId)
    && r.taskId !in db.tasks
    && MessagesFor(db.outbox, r.taskId) == {}
    && r.messageId !in db.outbox
  }

  lemma {:induction false} RawRowsConcat(a: seq<RawDoc>, b: seq<RawDoc>, id: string, stage: Stage)
    ensures RawRows(a + b, id, stage) == RawRows(a, id, stage) + RawRows(b, id, stage)
    decreases |b|
  {
    if b == [] {
      assert a + b == a;
    } else {
      var n := |b| - 1;
      RawRowsConcat(a, b[..n], id, stage);
      var c := a + b;
      assert c[..|c| - 1] == a + b[..n] && c[|c| - 1] == b[n];
    }
  }

  lemma {:induction false} RawRowsOfDocs(taskId: string, source: Stage, rows: seq<RawRow>, id: string, stage: Stage)
    ensures RawRows(Docs(taskId, source, rows), id, stage) == if id == taskId && stage == source then rows else []
    decreases |rows|
  {
    if rows == [] {
    } else {
      var n := |rows| - 1;
      RawRowsOfDocs(taskId, source, rows[..n], id, stage);
      assert Docs(taskId, source, rows)[..n] == Docs(taskId, source, rows[..n]);
    }
  }

  lemma RawRowsOfSubmit(r: Request, id: string, stage: Stage)
    ensures RawRows(AllDocs(r), id, stage) == if id == r.taskId then r.For(stage).rows else []
  {
    var a := Docs(r.taskId, SelectionStage, r.selections.rows);
    var b := Docs(r.taskId, OddTaggingStage, r.odds.rows);
    var c := Docs(r.taskId, AutoLabelingStage, r.labels.rows);
    RawRowsConcat(a + b, c, id, stage);
    RawRowsConcat(a, b, id, stage);
    RawRowsOfDocs(r.taskId, SelectionStage, r.selections.rows, id, stage);
    RawRowsOfDocs(r.taskId, OddTaggingStage, r.odds.rows, id, stage);
    RawRowsOfDocs(r.taskId, AutoLabelingStage, r.labels.rows, id, stage);
    hide RawRows, Docs;
  }

  lemma RawRowsOfOthers(raw: seq<RawDoc>, id: string, stage: Stage)
    requires forall d :: d in raw ==> d.taskId != id
    ensures RawRows(raw, id, stage) == []
  {
    if raw == [] {
    } else {
      RawRowsOfOthers(raw[..|raw| - 1], id, stage);
    }
  }

  /* ---- the invariant ---- */

  ghost predicate AsItEnded(db: Mongo, s: Submit) {
    if s.phase == Accepted then Recorded(db, s.request) else NoTrace(db, s.request)
  }

  ghost predicate Accounted(submits: map<string, Submit>, db: Mongo) {
    forall id :: id in submits ==> AsItEnded(db, submits[id])
  }

  ghost predicate OwnIds(submits: map<string, Submit>) {
    && (forall id :: id in submits ==> submits[id].request.taskId == id)
    && (forall a, b :: a in submits && b in submits && a != b ==>
          submits[a].request.messageId != submits[b].request.messageId)
  }

  predicate IsAccepted(submits: map<string, Submit>, id: string) {
    id in submits && submits[id].phase == Accepted
  }

  ghost predicate NamesAccepted(submits: map<string, Submit>, m: OutboxMessage) {
    m.taskId.Some? && IsAccepted(submits, m.taskId.value) && submits[m.taskId.value].request.messageId == m.messageId
  }

  /** Nothing is stored but what accepted submits wrote. */
  ghost predicate OnlyAccepted(submits: map<string, Submit>, db: Mongo) {
    && (forall id :: id in db.tasks ==> IsAccepted(submits, id))
    && (forall d :: d in db.raw ==> IsAccepted(submits, d.taskId))
    && (forall m :: m in db.outbox ==> db.outbox[m].messageId == m && NamesAccepted(submits, db.outbox[m]))
  }

  ghost predicate Intact(sys: System) {
    && OutboxProtocol.Safe(sys.outbox)
    && OwnIds(sys.submits)
    && Accounted(sys.submits, sys.Collections())
    && OnlyAccepted(sys.submits, sys.Collections())
  }

  lemma FreshLeavesNoTrace(sys: System, r: Request)
    requires Intact(sys) && r.taskId !in sys.submits && NewMessageId(sys, r.messageId)
    ensures NoTrace(sys.Collections(), r)
  {
    hide OutboxProtocol.Safe, Accounted;
    var db := sys.Collections();
    forall m | m in db.outbox ensures db.outbox[m].taskId != Some(r.taskId) && m != r.messageId {
      assert NamesAccepted(sys.submits, db.outbox[m]);
    }
  }

  /** A submit that is not accepted may be entered as long as it left no trace. */
  lemma EnterSubmit(submits: map<string, Submit>, db: Mongo, s: Submit)
    requires OwnIds(submits) && Accounted(submits, db) && OnlyAccepted(submits, db)
    requires s.phase != Accepted && NoTrace(db, s.request) && !IsAccepted(submits, s.request.taskId)
    requires forall x :: x in submits && x != s.request.taskId ==> submits[x].request.messageId != s.request.messageId
    ensures var submits' := submits[s.request.taskId := s];
      OwnIds(submits') && Accounted(submits', db) && OnlyAccepted(submits', db)
  {
    hide Recorded, NoTrace;
    var submits' := submits[s.request.taskId := s];
    forall m | m in db.outbox ensures NamesAccepted(submits', db.outbox[m]) {
      assert NamesAccepted(submits, db.outbox[m]);
    }
  }

  lemma IntactBegin(sys: System, r: Request)
    requires Intact(sys) && Enabled(sys, SubmitBegins(r))
    ensures Intact(Next(sys, SubmitBegins(r)))
  {
    FreshLeavesNoTrace(sys, r);
    hide OwnIds, Accounted, OnlyAccepted, NoTrace, OutboxProtocol.Safe;
    EnterSubmit(sys.submits, sys.Collections(), Submit(r, Open));
  }

  lemma IntactFail(sys: System, id: string)
    requires Intact(sys) && Enabled(sys, SubmitFails(id))
    ensures Intact(Next(sys, SubmitFails(id)))
  {
    OpenLeavesNoTrace(sys, id);
    hide Accounted, OnlyAccepted, NoTrace, OutboxProtocol.Safe;
    EnterSubmit(sys.submits, sys.Collections(), sys.submits[id].(phase := Dropped));
  }

  lemma OpenLeavesNoTrace(sys: System, id: string)
    requires Intact(sys) && sys.Is(id, Open)
    ensures NoTrace(sys.Collections(), sys.submits[id].request)
  {
    assert AsItEnded(sys.Collections(), sys.submits[id]);
  }

  /** A commit records its submit. */
  lemma CommitRecords(db: Mongo, r: Request)
    requires NoTrace(db, r)
    ensures Recorded(Apply(db, Writes(r)), r)
  {
    var db' := Apply(db, Writes(r));
    forall stage: Stage ensures RawRows(db'.raw, r.taskId, stage) == r.For(stage).rows {
      RawRowsConcat(db.raw, AllDocs(r), r.taskId, stage);
      RawRowsOfOthers(db.raw, r.taskId, stage);
      RawRowsOfSubmit(r, r.taskId, stage);
    }
    hide RawRows;
    forall m | m in db.outbox ensures db.outbox[m].taskId != Some(r.taskId) {
      assert m !in MessagesFor(db.outbox, r.taskId);
    }
  }

  /** A commit leaves every other submit as it was. */
  lemma CommitSparesOthers(db: Mongo, r: Request, other: Submit)
    requires other.request.taskId != r.taskId && other.request.messageId != r.messageId && r.messageId !in db.outbox
    requires AsItEnded(db, other)
    ensures AsItEnded(Apply(db, Writes(r)), other)
  {
    var db', id := Apply(db, Writes(r)), other.request.taskId;
    forall stage: Stage ensures RawRows(db'.raw, id, stage) == RawRows(db.raw, id, stage) {
      RawRowsConcat(db.raw, AllDocs(r), id, stage);
      RawRowsOfSubmit(r, id, stage);
    }
    assert forall d :: d in AllDocs(r) ==> d.taskId == r.taskId;
    hide RawRows, AllDocs;
    assert MessagesFor(db'.outbox, id) == MessagesFor(db.outbox, id);
  }

  lemma CommitAddsItsOwn(submits: map<string, Submit>, db: Mongo, r: Request)
    requires OnlyAccepted(submits, db)
    requires r.taskId in submits && submits[r.taskId] == Submit(r, Open)
    ensures OnlyAccepted(submits[r.taskId := Submit(r, Accepted)], Apply(db, Writes(r)))
  {
    var submits', db' := submits[r.taskId := Submit(r, Accepted)], Apply(db, Writes(r));
    assert forall d :: d in AllDocs(r) ==> d.taskId == r.taskId;
    hide AllDocs;
    forall m | m in db'.outbox ensures db'.outbox[m].messageId == m && NamesAccepted(submits', db'.outbox[m]) {
      if m != r.messageId {
        assert NamesAccepted(submits, db.outbox[m]);
      }
    }
  }

  lemma IntactCommit(sys: System, id: string)
    requires Intact(sys) && Enabled(sys, SubmitCommits(id))
    ensures Intact(Next(sys, SubmitCommits(id)))
  {
    hide OutboxProtocol.Safe, OutboxProtocol.Next, OutboxProtocol.Enabled, Recorded, Writes, Apply, OnlyAccepted;
    var r, db, sys' := sys.submits[id].request, sys.Collections(), Next(sys, SubmitCommits(id));
    CommitIsASubmitStep(sys, id);
    CommitRecords(db, r);
    CommitAddsItsOwn(sys.submits, db, r);
    assert r.messageId !in db.outbox;
    hide NoTrace;
    forall x | x in sys'.submits ensures AsItEnded(sys'.Collections(), sys'.submits[x]) {
      if x != id {
        CommitSparesOthers(db, r, sys.submits[x]);
      }
    }
  }

  /** For the outbox, a commit is the arrival of a new message. */
  lemma CommitIsASubmitStep(sys: System, id: string)
    requires Intact(sys) && Enabled(sys, SubmitCommits(id))
    ensures var r := sys.submits[id].request;
      && NoTrace(sys.Collections(), r)
      && OutboxProtocol.Safe(Next(sys, SubmitCommits(id)).outbox)
      && Next(sys, SubmitCommits(id)).Collections() == Apply(sys.Collections(), Writes(r))
  {
    hide OutboxProtocol.Safe, Recorded, OnlyAccepted, OwnIds;
    var r := sys.submits[id].request;
    OpenLeavesNoTrace(sys, id);
    hide Accounted;
    SafeArrival(sys.outbox, MessageFor(r));
    hide OutboxProtocol.Next, OutboxProtocol.Enabled;
    assert Apply(sys.Collections(), Writes(r)).outbox == Save(sys.outbox.store, MessageFor(r));
  }

  lemma SafeArrival(s: OutboxProtocol.State, m: OutboxMessage)
    requires OutboxProtocol.Safe(s) && OutboxProtocol.Enabled(s, OutboxProtocol.Submit(m))
    ensures OutboxProtocol.Safe(s.(store := Save(s.store, m)))
  {
    OutboxProtocol.SafeStep(s, OutboxProtocol.Submit(m));
  }

  /** The outbox protocol neither adds nor removes messages, nor readdresses them. */
  lemma OutboxKeepsMessages(s: OutboxProtocol.State, step: OutboxProtocol.Step)
    requires OutboxProtocol.Safe(s) && !step.Submit? && OutboxProtocol.Enabled(s, step)
    ensures OutboxProtocol.Safe(OutboxProtocol.Next(s, step))
    ensures SameEnvelopes(s.store, OutboxProtocol.Next(s, step).store)
  {
    OutboxProtocol.SafeStep(s, step);
    match step
    case RelayClaim(p, _) => OutboxProtocol.HeadIsKnown(s, p);
    case _ =>
  }

  ghost predicate SameEnvelopes(a: Store, b: Store) {
    a.Keys == b.Keys && forall m :: m in a ==> OutboxProtocol.SameEnvelope(a[m], b[m])
  }

  ghost predicate SameJobs(a: map<string, AnalyzeTask>, b: map<string, AnalyzeTask>) {
    a.Keys == b.Keys && forall id :: id in a ==> SameJob(a[id], b[id])
  }

  /** Updates within tasks and messages concern no submit. */
  lemma UpdatesSpareSubmits(db: Mongo, db': Mongo, s: Submit)
    requires db'.raw == db.raw && SameEnvelopes(db.outbox, db'.outbox) && SameJobs(db.tasks, db'.tasks)
    requires AsItEnded(db, s)
    ensures AsItEnded(db', s)
  {
    hide RawRows;
    var id := s.request.taskId;
    assert MessagesFor(db'.outbox, id) == MessagesFor(db.outbox, id);
    if s.phase == Accepted {
      assert s.request.messageId in MessagesFor(db.outbox, id);
    }
  }

  lemma UpdatesAddNothing(submits: map<string, Submit>, db: Mongo, db': Mongo)
    requires db'.raw == db.raw && SameEnvelopes(db.outbox, db'.outbox) && SameJobs(db.tasks, db'.tasks)
    requires OnlyAccepted(submits, db)
    ensures OnlyAccepted(submits, db')
  {
    forall m | m in db'.outbox ensures db'.outbox[m].messageId == m && NamesAccepted(submits, db'.outbox[m]) {
      assert m in db.outbox && NamesAccepted(submits, db.outbox[m]);
    }
  }

  lemma IntactUpdate(sys: System, e: Event)
    requires Intact(sys) && Enabled(sys, e) && (e.OutboxMoves? || e.TaskSaved?)
    ensures Intact(Next(sys, e))
  {
    var sys' := Next(sys, e);
    var db, db' := sys.Collections(), sys'.Collections();
    assert SameJobs(sys.tasks, sys'.tasks);
    if e.OutboxMoves? {
      OutboxKeepsMessages(sys.outbox, e.step);
    }
    hide OutboxProtocol.Safe, OutboxProtocol.Next, OutboxProtocol.Enabled, SameJobs;
    assert SameEnvelopes(sys.outbox.store, sys'.outbox.store);
    hide SameEnvelopes, AsItEnded, OnlyAccepted, OwnIds;
    UpdatesAddNothing(sys.submits, db, db');
    forall id | id in sys.submits ensures AsItEnded(db', sys'.submits[id]) {
      UpdatesSpareSubmits(db, db', sys.submits[id]);
    }
  }

  lemma IntactStep(sys: System, e: Event)
    requires Intact(sys) && Enabled(sys, e)
    ensures Intact(Next(sys, e))
  {
    match e
    case SubmitBegins(r) => IntactBegin(sys, r);
    case SubmitCommits(id) => IntactCommit(sys, id);
    case SubmitFails(id) => IntactFail(sys, id);
    case OutboxMoves(_) => IntactUpdate(sys, e);
    case TaskSaved(_) => IntactUpdate(sys, e);
  }

  lemma {:induction false} IntactAlways(sys: System, events: seq<Event>)
    requires Intact(sys) && IsHistory(sys, events)
    ensures Intact(After(sys, events))
    decreases |events|
  {
    hide Intact, Enabled, Next;
    if events == [] {
    } else {
      IntactStep(sys, events[0]);
      IntactAlways(Next(sys, events[0]), events[1..]);
    }
  }

  /** Submit is all or nothing, over every history with overlapping submits,
      relays, recoverers and workers: an accepted submit has its raw rows, a
      task whose totals are their numbers, and exactly one ANALYZE message; a
      failed or unfinished one has left no trace; every stored task is an
      accepted submit's, and every stored message names a stored task. */
  lemma SubmitsAreAllOrNothing(sys: System, events: seq<Event>)
    requires Initial(sys) && IsHistory(sys, events)
    ensures var sys' := After(sys, events);
      && (forall id :: id in sys'.submits ==> sys'.submits[id].request.taskId == id)
      && (forall id :: sys'.Is(id, Accepted) ==> Recorded(sys'.Collections(), sys'.submits[id].request))
      && (forall id :: sys'.Is(id, Dropped) || sys'.Is(id, Open) ==>
           NoTrace(sys'.Collections(), sys'.submits[id].request))
      && (forall id :: id in sys'.tasks ==> sys'.Is(id, Accepted))
      && (forall m :: m in sys'.outbox.store ==>
            sys'.outbox.store[m].taskId.Some? && sys'.outbox.store[m].taskId.value in sys'.tasks)
  {
    IntactAlways(sys, events);
    var sys' := After(sys, events);
    hide OutboxProtocol.Safe;
    forall id | id in sys'.submits ensures AsItEnded(sys'.Collections(), sys'.submits[id]) {}
    forall m | m in sys'.outbox.store
      ensures sys'.outbox.store[m].taskId.Some? && sys'.outbox.store[m].taskId.value in sys'.tasks
    {
      MessageNamesATask(sys', m);
    }
  }

  lemma MessageNamesATask(sys: System, m: string)
    requires Intact(sys) && m in sys.outbox.store
    ensures sys.outbox.store[m].taskId.Some? && sys.outbox.store[m].taskId.value in sys.tasks
  {
    hide OutboxProtocol.Safe;
    assert NamesAccepted(sys.submits, sys.Collections().outbox[m]);
    assert AsItEnded(sys.Collections(), sys.submits[sys.outbox.store[m].taskId.value]);
  }

  /** A relay never hands out a task that is not stored, and the message of a
      PUBLISHED task has reached the worker queue. */
  lemma DispatchedTasksAreStored(sys: System, events: seq<Event>)
    requires Initial(sys) && IsHistory(sys, events)
    ensures var sys' := After(sys, events);
      && (forall r :: r in sys'.outbox.relays && (r.Claimed? || r.Dispatched?) ==>
            r.msg.taskId.Some? && r.msg.taskId.value in sys'.tasks)
      && (forall id ::
            sys'.Is(id, Accepted) && StatusIs(sys'.outbox.store, sys'.submits[id].request.messageId, Published) ==>
            OutboxProtocol.Count(sys'.outbox.delivered, sys'.submits[id].request.messageId) >= 1)
  {
    IntactAlways(sys, events);
    var sys' := After(sys, events);
    forall r | r in sys'.outbox.relays && (r.Claimed? || r.Dispatched?)
      ensures r.msg.taskId.Some? && r.msg.taskId.value in sys'.tasks
    {
      assert OutboxProtocol.RelayOk(sys'.outbox, r);
      MessageNamesATask(sys', r.msg.messageId);
    }
    forall id | sys'.Is(id, Accepted) && StatusIs(sys'.outbox.store, sys'.submits[id].request.messageId, Published)
      ensures OutboxProtocol.Count(sys'.outbox.delivered, sys'.submits[id].request.messageId) >= 1
    {
      var m := sys'.outbox.store[sys'.submits[id].request.messageId];
      assert OutboxProtocol.MessageOk(sys'.outbox, m);
      assert AsItEnded(sys'.Collections(), sys'.submits[id]);
    }
  }

  /** The task transitions of the worker are among the saves allowed above. */
  lemma TransitionsKeepTheJob(
      t: AnalyzeTask, r: AnalysisResult, error: string, stage: Stage, processed: nat, rejected: nat)
    ensures SameJob(t, t.StartProcessing()) && SameJob(t, t.CompleteWith(r)) && SameJob(t, t.FailWith(error))
    ensures SameJob(t, t.WithCompletedPhase(stage))
    ensures SameJob(t, t.WithProgress(stage, StageProgress(t.ProgressFor(stage).total, processed, rejected)))
  {
  }
}
