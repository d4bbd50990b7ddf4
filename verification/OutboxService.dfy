/** The two loops of the relay service over a mutable outbox collection, every
    operation of which may fail, like the dispatch calls, and what repeating them
    achieves. */
module OutboxService {
  import opened Domain
  import opened OutboxStore
  import opened OutboxProtocol
  import opened OutboxRuns
  import opened OutboxHandling

  const DEFAULT_ZOMBIE_LIMIT: nat := 50

  /** `failures` counts the operations that the server has not answered. */
  class OutboxRepository {
    var docs: Store
    ghost var failures: nat

    /** How the write went; one that raises may have been applied. */
    method Save(m: OutboxMessage) returns (end: WriteEnd)
      modifies this
      ensures docs == if end == Lost(false) then old(docs) else OutboxStore.Save(old(docs), m)
      ensures failures == old(failures) + if end == Answered then 0 else 1
    {
      end := *;
      failures := failures + if end == Answered then 0 else 1;
      if end != Lost(false) {
        docs := docs[m.messageId := m];
      }
    }

    method SaveIfStatus(m: OutboxMessage, expected: OutboxStatus) returns (updated: bool, end: WriteEnd)
      modifies this
      ensures docs == if end == Lost(false) then old(docs) else OutboxStore.SaveIfStatus(old(docs), m, expected)
      ensures end == Answered ==> updated == StatusIs(old(docs), m.messageId, expected)
      ensures failures == old(failures) + if end == Answered then 0 else 1
    {
      end := *;
      failures := failures + if end == Answered then 0 else 1;
      updated := m.messageId in docs && docs[m.messageId].status == expected;
      if updated && end != Lost(false) {
        docs := docs[m.messageId := m];
      }
    }

    /** The oldest of a non-empty set of stored messages. */
    method Oldest(ids: set<string>) returns (id: string)
      requires ids != {} && ids <= docs.Keys
      ensures id in ids && forall x :: x in ids ==> docs[id].createdAt <= docs[x].createdAt
    {
      id :| id in ids;
      var rest := ids - {id};
      while rest != {}
        invariant rest <= ids && id in ids
        invariant forall x :: x in ids - rest ==> docs[id].createdAt <= docs[x].createdAt
        decreases rest
      {
        var x :| x in rest;
        if docs[x].createdAt < docs[id].createdAt {
          id := x;
        }
        rest := rest - {x};
      }
    }

    /** `find_by`, when it answers: only messages with that status and older than
        that time, and all of them unless the limit cuts the list off. */
    method FindBy(c: Criteria) returns (found: seq<OutboxMessage>)
      requires WellKeyed(docs)
      ensures IsFindResult(docs, c, found)
      ensures forall m :: m in found ==> m.status == c.status && (c.before.Some? ==> m.updatedAt < c.before.value)
      ensures forall id ::
        id in docs && docs[id].status == c.status && (c.before.Some? ==> docs[id].updatedAt < c.before.value) ==>
          docs[id] in found || (c.limit != 0 && |found| == c.limit)
    {
      found := [];
      var pool := set id | id in docs && Matches(docs[id], c);
      while pool != {} && (c.limit == 0 || |found| < c.limit)
        invariant forall id :: id in pool ==> id in docs && Matches(docs[id], c)
        invariant StoredAndMatching(docs, c, found)
        invariant DistinctIds(found) && OldestFirst(found)
        invariant forall m :: m in found ==> m.messageId !in pool
        invariant forall id, m :: id in pool && m in found ==> m.createdAt <= docs[id].createdAt
        invariant forall id :: id in docs && Matches(docs[id], c) ==> id in pool || docs[id] in found
        invariant c.limit != 0 ==> |found| <= c.limit
        decreases pool
      {
        var id := Oldest(pool);
        found := found + [docs[id]];
        pool := pool - {id};
      }
    }
  }

  class TaskDispatcher {
    /** Every dispatch call made, in order, and how many of them have raised. */
    var calls: seq<string>
    ghost var failures: nat

    /** Either outcome is possible. */
    method Dispatch(taskId: string) returns (ok: bool)
      modifies this
      ensures calls == old(calls) + [taskId]
      ensures failures == old(failures) + if ok then 0 else 1
    {
      calls := calls + [taskId];
      ok := *;
      failures := failures + if ok then 0 else 1;
    }
  }

  function CallsFor(m: OutboxMessage): seq<string> {
    if IsCalled(m) then [m.taskId.value] else []
  }

  /** The claim of one message, and its publication if the dispatch succeeds and
      the write is applied. */
  function RelayOne(store: Store, m: OutboxMessage, h: Handling): Store {
    var claimed := m.MarkProcessing(h.claimedAt);
    var store1 := OutboxStore.Save(store, claimed);
    if Publishes(m, h) then SaveIfStatus(store1, claimed.MarkPublished(h.write.at), Processing) else store1
  }

  /** Counted as published: dispatched, and the write was answered. */
  predicate Counts(m: OutboxMessage, h: Handling) {
    Delivers(m, h.ok) && h.write.end == Answered
  }

  datatype Relayed = Relayed(store: Store, calls: seq<string>, published: nat)

  /** The store, the dispatch calls and the count after relaying `todo`, where
      `hs` tells how each message fares. */
  function RelayAll(store: Store, todo: seq<OutboxMessage>, hs: seq<Handling>): Relayed
    requires |hs| == |todo|
  {
    if todo == [] then Relayed(store, [], 0)
    else
      var n := |todo| - 1;
      var before := RelayAll(store, todo[..n], hs[..n]);
      Relayed(RelayOne(before.store, todo[n], hs[n]), before.calls + CallsFor(todo[n]),
              before.published + (if Counts(todo[n], hs[n]) then 1 else 0))
  }

  lemma RelayNothing(store: Store, todo: seq<OutboxMessage>)
    ensures RelayAll(store, todo[..0], []) == RelayAll(store, [], []) == Relayed(store, [], 0)
    ensures todo[..|todo|] == todo
  {
  }

  lemma OneMoreRelayed(store: Store, todo: seq<OutboxMessage>, hs: seq<Handling>, h: Handling)
    requires |hs| < |todo|
    ensures var i := |hs|;
      var before := RelayAll(store, todo[..i], hs);
      RelayAll(store, todo[..i + 1], hs + [h]) ==
      Relayed(RelayOne(before.store, todo[i], h), before.calls + CallsFor(todo[i]),
              before.published + (if Counts(todo[i], h) then 1 else 0))
  {
    var i := |hs|;
    assert todo[..i + 1][..i] == todo[..i] && (hs + [h])[..i] == hs;
  }

  function RecoverOne(store: Store, z: OutboxMessage, w: Write): Store {
    if w.IsApplied() then SaveIfStatus(store, Recovered(z, w.at), Processing) else store
  }

  /** The store and the count after recovering `zombies`, where `ws` tells how
      each write goes. */
  function RecoverAll(store: Store, zombies: seq<OutboxMessage>, ws: seq<Write>): (Store, nat)
    requires |ws| == |zombies|
  {
    if zombies == [] then (store, 0)
    else
      var n := |zombies| - 1;
      var (before, k) := RecoverAll(store, zombies[..n], ws[..n]);
      (RecoverOne(before, zombies[n], ws[n]),
       if ws[n].end == Answered && StatusIs(before, zombies[n].messageId, Processing) then k + 1 else k)
  }

  lemma OneMoreRecovered(store: Store, zombies: seq<OutboxMessage>, ws: seq<Write>, w: Write)
    requires |ws| < |zombies|
    ensures var i := |ws|;
      var (before, k) := RecoverAll(store, zombies[..i], ws);
      RecoverAll(store, zombies[..i + 1], ws + [w]) ==
      (RecoverOne(before, zombies[i], w),
       if w.end == Answered && StatusIs(before, zombies[i].messageId, Processing) then k + 1 else k)
  {
    var i := |ws|;
    assert zombies[..i + 1][..i] == zombies[..i] && (ws + [w])[..i] == ws;
  }

  class OutboxRelayService {
    const repo: OutboxRepository
    const dispatcher: TaskDispatcher
    const fetchLimit: nat

    constructor (repo: OutboxRepository, dispatcher: TaskDispatcher, fetchLimit: nat)
      ensures this.repo == repo && this.dispatcher == dispatcher && this.fetchLimit == fetchLimit
    {
      this.repo, this.dispatcher, this.fetchLimit := repo, dispatcher, fetchLimit;
    }

    /** `relay()`. A claim that raises ends the call; everything after a claim is
        caught. `None` means that the call raises. */
    method Relay()
      returns (published: Option<nat>, ghost messages: seq<OutboxMessage>, ghost hs: seq<Handling>, ghost claim: Write)
      requires WellKeyed(repo.docs)
      modifies repo, dispatcher
      ensures repo.failures == old(repo.failures) ==> published.Some? && forall h :: h in hs ==> h.write.end == Answered
      ensures dispatcher.failures == old(dispatcher.failures) ==> forall h :: h in hs ==> h.ok
      ensures published.None? && messages == [] ==>
        repo.docs == old(repo.docs) && dispatcher.calls == old(dispatcher.calls)
      ensures published.Some? || messages != [] ==>
        && IsFindResult(old(repo.docs), Criteria(Pending, None, fetchLimit), messages)
        && RelayedUntil(old(repo.docs), messages, hs, claim, repo.docs, published)
        && dispatcher.calls == old(dispatcher.calls) + RelayAll(old(repo.docs), messages[..|hs|], hs).calls
      ensures repo.docs.Keys == old(repo.docs).Keys
      ensures forall id :: id in repo.docs && old(repo.docs)[id].status != Pending ==>
        repo.docs[id] == old(repo.docs)[id]
    {
      hs, claim := [], Write(Answered, 0);
      var up := *;
      if !up {
        repo.failures := repo.failures + 1;
        messages := [];
        return None, messages, hs, claim;
      }
      var todo := repo.FindBy(Criteria(Pending, None, fetchLimit));
      messages := todo;
      published, hs, claim := RelayEach(todo);
      RelaySparesOthers(old(repo.docs), fetchLimit, todo, hs, claim, repo.docs, published);
    }

    /** The loop of `Relay`, over the messages it has listed; `claim` is the last
        claim. */
    method RelayEach(todo: seq<OutboxMessage>)
      returns (published: Option<nat>, ghost hs: seq<Handling>, ghost claim: Write)
      modifies repo, dispatcher
      ensures repo.failures >= old(repo.failures) && dispatcher.failures >= old(dispatcher.failures)
      ensures repo.failures == old(repo.failures) ==> published.Some? && forall h :: h in hs ==> h.write.end == Answered
      ensures dispatcher.failures == old(dispatcher.failures) ==> forall h :: h in hs ==> h.ok
      ensures RelayedUntil(old(repo.docs), todo, hs, claim, repo.docs, published)
      ensures dispatcher.calls == old(dispatcher.calls) + RelayAll(old(repo.docs), todo[..|hs|], hs).calls
    {
      var count := 0;
      hs, claim := [], Write(Answered, 0);
      ghost var done := RelayAll(repo.docs, [], []);
      RelayNothing(repo.docs, todo);
      hide RelayAll;
      for i := 0 to |todo|
        invariant |hs| == i && claim.end == Answered && done == RelayAll(old(repo.docs), todo[..i], hs)
        invariant repo.docs == done.store && count == done.published && repo.failures >= old(repo.failures)
        invariant repo.failures == old(repo.failures) ==> forall h :: h in hs ==> h.write.end == Answered
        invariant dispatcher.failures >= old(dispatcher.failures)
        invariant dispatcher.failures == old(dispatcher.failures) ==> forall h :: h in hs ==> h.ok
        invariant dispatcher.calls == old(dispatcher.calls) + done.calls
      {
        var now: int := *;
        var msg := todo[i].MarkProcessing(now);
        var end := repo.Save(msg);
        claim := Write(end, now);
        if end != Answered {
          return None, hs, claim;
        }
        ghost var h;
        count, h := DispatchAndPublish(todo[i], msg, now, count);
        assert repo.docs == RelayOne(done.store, todo[i], h);
        assert dispatcher.calls == old(dispatcher.calls) + (done.calls + CallsFor(todo[i]));
        OneMoreRelayed(old(repo.docs), todo, hs, h);
        hs := hs + [h];
        done := RelayAll(old(repo.docs), todo[..i + 1], hs);
      }
      published := Some(count);
    }

    /** The `try` block: dispatch and publication of the claimed message. */
    method DispatchAndPublish(m: OutboxMessage, msg: OutboxMessage, ghost claimedAt: int, count: nat)
      returns (published: nat, ghost h: Handling)
      requires msg == m.MarkProcessing(claimedAt)
      modifies repo, dispatcher
      ensures h.claimedAt == claimedAt
      ensures repo.failures == old(repo.failures) + if h.write.end == Answered then 0 else 1
      ensures dispatcher.failures == old(dispatcher.failures) + if h.ok then 0 else 1
      ensures dispatcher.calls == old(dispatcher.calls) + CallsFor(m)
      ensures published ==
        if Counts(m, h) && StatusIs(old(repo.docs), m.messageId, Processing) then count + 1 else count
      ensures repo.docs ==
        if Publishes(m, h) then SaveIfStatus(old(repo.docs), msg.MarkPublished(h.write.at), Processing)
        else old(repo.docs)
    {
      published, h := count, Handling(claimedAt, true, Write(Answered, 0));
      if msg.messageType == Analyze {
        if msg.taskId == None {
          return;
        }
        var ok := dispatcher.Dispatch(msg.taskId.value);
        h := Handling(claimedAt, ok, Write(Answered, 0));
        if !ok {
          return;
        }
      }
      var now: int := *;
      var updated, end := repo.SaveIfStatus(msg.MarkPublished(now), Processing);
      h := Handling(claimedAt, true, Write(end, now));
      if end == Answered && updated {
        published := published + 1;
      }
    }

    /** `recover_zombies()`; `None` when the listing raises. */
    method RecoverZombies(cutoff: int)
      returns (recovered: Option<nat>, ghost zombies: seq<OutboxMessage>, ghost ws: seq<Write>)
      requires WellKeyed(repo.docs)
      modifies repo
      ensures repo.failures == old(repo.failures) ==> recovered.Some? && AllAnswered(ws)
      ensures recovered.None? ==> repo.docs == old(repo.docs)
      ensures recovered.Some? ==>
        && IsFindResult(old(repo.docs), Criteria(Processing, Some(cutoff), DEFAULT_ZOMBIE_LIMIT), zombies)
        && |ws| == |zombies| && (repo.docs, recovered.value) == RecoverAll(old(repo.docs), zombies, ws)
      ensures repo.docs.Keys == old(repo.docs).Keys
      ensures forall id ::
        id in repo.docs && (old(repo.docs)[id].status != Processing || old(repo.docs)[id].updatedAt >= cutoff) ==>
          repo.docs[id] == old(repo.docs)[id]
      ensures recovered.Some? && |zombies| < DEFAULT_ZOMBIE_LIMIT && NoneLost(ws) ==> forall id ::
        id in repo.docs && old(repo.docs)[id].status == Processing && old(repo.docs)[id].updatedAt < cutoff ==>
          IsRetriedOnce(old(repo.docs)[id], repo.docs[id])
    {
      zombies, ws := [], [];
      var up := *;
      if !up {
        repo.failures := repo.failures + 1;
        return None, zombies, ws;
      }
      var found := repo.FindBy(Criteria(Processing, Some(cutoff), DEFAULT_ZOMBIE_LIMIT));
      zombies := found;
      var count;
      count, ws := RecoverEach(found);
      RecoveryIsExact(old(repo.docs), cutoff, found, ws);
      recovered := Some(count);
    }

    /** The loop of `RecoverZombies`, over the messages it has listed; a write that
        raises is passed over. The second clock reading is the one stored. */
    method RecoverEach(found: seq<OutboxMessage>) returns (recovered: nat, ghost ws: seq<Write>)
      modifies repo
      ensures repo.failures >= old(repo.failures)
      ensures repo.failures == old(repo.failures) ==> AllAnswered(ws)
      ensures |ws| == |found| && (repo.docs, recovered) == RecoverAll(old(repo.docs), found, ws)
    {
      recovered, ws := 0, [];
      for i := 0 to |found|
        invariant repo.failures >= old(repo.failures) && (repo.failures == old(repo.failures) ==> AllAnswered(ws))
        invariant |ws| == i && (repo.docs, recovered) == RecoverAll(old(repo.docs), found[..i], ws)
      {
        var earlier: int, now: int := *, *;
        var msg := found[i].WithRetryIncremented(earlier);
        if msg.IsRetriable() {
          msg := msg.BackToPending(now);
        } else {
          msg := msg.MarkFailed(now);
        }
        ghost var before := repo.docs;
        var updated, end := repo.SaveIfStatus(msg, Processing);
        if end == Answered && updated {
          recovered := recovered + 1;
        }
        assert repo.docs == RecoverOne(before, found[i], Write(end, now));
        OneMoreRecovered(old(repo.docs), found, ws, Write(end, now));
        ws := ws + [Write(end, now)];
      }
      assert found[..|found|] == found;
    }
  }

  /** The call handled the first messages as `hs` tells; if it raised, then at the
      claim of the next one. */
  ghost predicate RelayedUntil(
      store: Store, todo: seq<OutboxMessage>, hs: seq<Handling>, claim: Write, store': Store, published: Option<nat>)
  {
    |hs| <= |todo| &&
    var r := RelayAll(store, todo[..|hs|], hs);
    if published.Some? then
      |hs| == |todo| && claim.end == Answered && store' == r.store && published.value == r.published
    else
      && |hs| < |todo| && claim.end.Lost?
      && store' == if claim.IsApplied() then OutboxStore.Save(r.store, todo[|hs|].MarkProcessing(claim.at)) else r.store
  }

  /* ---- what one call does, message by message ---- */

  function CountTrue(bs: seq<bool>): nat {
    if bs == [] then 0 else CountTrue(bs[..|bs| - 1]) + (if bs[|bs| - 1] then 1 else 0)
  }

  /** Which messages were dispatched with their write answered. */
  function Counted(ms: seq<OutboxMessage>, hs: seq<Handling>): seq<bool>
    requires |hs| == |ms|
  {
    seq(|ms|, i requires 0 <= i < |ms| => GoesThrough(ms[i], hs[i]) && hs[i].write.end == Answered)
  }

  function Ids(ms: seq<OutboxMessage>): set<string> {
    set m | m in ms :: m.messageId
  }

  /** The same messages, none of them changed unless it is in `ids`. */
  ghost predicate SameOutside(before: Store, after: Store, ids: set<string>) {
    && after.Keys == before.Keys
    && forall id :: id in before && id !in ids ==> after[id] == before[id]
  }

  ghost predicate StoredAs(store: Store, m: OutboxMessage) {
    m.messageId in store && store[m.messageId] == m
  }

  function RecoveredForm(m: OutboxMessage, now: int): OutboxMessage {
    m.(retryCount := m.retryCount + 1, updatedAt := now,
       status := if m.retryCount + 1 < m.maxRetries then Pending else Failed)
  }

  lemma SplitLast(ms: seq<OutboxMessage>)
    requires ms != [] && DistinctIds(ms)
    ensures var n := |ms| - 1;
      && DistinctIds(ms[..n]) && ms[n].messageId !in Ids(ms[..n])
      && Ids(ms) == Ids(ms[..n]) + {ms[n].messageId}
  {
    var n := |ms| - 1;
    assert ms == ms[..n] + [ms[n]];
    forall m | m in ms[..n] ensures m.messageId != ms[n].messageId {
      var i :| 0 <= i < n && ms[..n][i] == m;
    }
  }

  /** `forms` are the stored forms of the messages `ms`, and nothing else differs. */
  ghost predicate Rewritten(before: Store, after: Store, ms: seq<OutboxMessage>, forms: seq<OutboxMessage>) {
    && |forms| == |ms|
    && SameOutside(before, after, Ids(ms))
    && forall i :: 0 <= i < |ms| ==> forms[i].messageId == ms[i].messageId && StoredAs(after, forms[i])
  }

  lemma RewriteOneMore(before: Store, mid: Store, ms: seq<OutboxMessage>, forms: seq<OutboxMessage>)
    requires ms != [] && |forms| == |ms| && DistinctIds(ms) && Ids(ms) <= before.Keys
    requires Rewritten(before, mid, ms[..|ms| - 1], forms[..|ms| - 1])
    requires forms[|ms| - 1].messageId == ms[|ms| - 1].messageId
    ensures Rewritten(before, OutboxStore.Save(mid, forms[|ms| - 1]), ms, forms)
  {
    var n := |ms| - 1;
    var after := OutboxStore.Save(mid, forms[n]);
    SplitLast(ms);
    assert ms[n].messageId in Ids(ms);
    forall i | 0 <= i < |ms| ensures forms[i].messageId == ms[i].messageId && StoredAs(after, forms[i]) {
      if i < n {
        assert forms[..n][i] == forms[i] && ms[..n][i] == ms[i];
      }
    }
  }

  function RelayedForms(todo: seq<OutboxMessage>, hs: seq<Handling>): seq<OutboxMessage>
    requires |hs| == |todo|
  {
    seq(|todo|, i requires 0 <= i < |todo| => RelayedForm(todo[i], hs[i]))
  }

  lemma RelayOneSaves(store: Store, m: OutboxMessage, h: Handling)
    ensures RelayOne(store, m, h) == OutboxStore.Save(store, RelayedForm(m, h))
  {
  }

  /** relay() leaves each listed message PUBLISHED if its dispatch went through
      and PROCESSING otherwise, and leaves all others alone. */
  lemma {:induction false} RelayedMessages(store: Store, todo: seq<OutboxMessage>, hs: seq<Handling>)
    requires |hs| == |todo| && DistinctIds(todo) && Ids(todo) <= store.Keys
    ensures Rewritten(store, RelayAll(store, todo, hs).store, todo, RelayedForms(todo, hs))
    decreases |todo|
  {
    if todo == [] {
    } else {
      var n := |todo| - 1;
      SplitLast(todo);
      RelayedMessages(store, todo[..n], hs[..n]);
      var before := RelayAll(store, todo[..n], hs[..n]).store;
      var forms := RelayedForms(todo, hs);
      assert forms[..n] == RelayedForms(todo[..n], hs[..n]);
      assert forms[n] == RelayedForm(todo[n], hs[n]) && forms[n].messageId == todo[n].messageId;
      hide RelayedForms, RelayedForm, Rewritten, RelayOne;
      RewriteOneMore(store, before, todo, forms);
      RelayOneSaves(before, todo[n], hs[n]);
    }
  }

  /** The messages of the list that ask for this task. */
  function Askers(todo: seq<OutboxMessage>, taskId: string): set<int> {
    set i | 0 <= i < |todo| && todo[i].messageType == Analyze && todo[i].taskId == Some(taskId)
  }

  lemma OneMoreAsker(todo: seq<OutboxMessage>, taskId: string)
    requires todo != []
    ensures var n := |todo| - 1;
      |Askers(todo, taskId)| == |Askers(todo[..n], taskId)| +
        if todo[n].messageType == Analyze && todo[n].taskId == Some(taskId) then 1 else 0
  {
    var n := |todo| - 1;
    var earlier := Askers(todo[..n], taskId);
    if todo[n].messageType == Analyze && todo[n].taskId == Some(taskId) {
      assert n !in earlier && Askers(todo, taskId) == earlier + {n};
    } else {
      assert Askers(todo, taskId) == earlier;
    }
  }

  /** One dispatch call for each listed ANALYZE message with a task id. */
  lemma {:induction false} RelayedCalls(store: Store, todo: seq<OutboxMessage>, hs: seq<Handling>, taskId: string)
    requires |hs| == |todo|
    ensures multiset(RelayAll(store, todo, hs).calls)[taskId] == |Askers(todo, taskId)|
    decreases |todo|
  {
    if todo == [] {
      assert Askers(todo, taskId) == {};
    } else {
      var n := |todo| - 1;
      RelayedCalls(store, todo[..n], hs[..n], taskId);
      OneMoreAsker(todo, taskId);
      hide RelayOne, Askers, Counts;
    }
  }

  /** The count relay() returns is the number of messages it left PUBLISHED. */
  lemma {:induction false} RelayedCount(store: Store, todo: seq<OutboxMessage>, hs: seq<Handling>)
    requires |hs| == |todo|
    ensures RelayAll(store, todo, hs).published == CountTrue(Counted(todo, hs))
    decreases |todo|
  {
    if todo == [] {
    } else {
      var n := |todo| - 1;
      RelayedCount(store, todo[..n], hs[..n]);
      assert Counted(todo, hs)[..n] == Counted(todo[..n], hs[..n]);
    }
  }

  /** A zombie whose write was not applied stays as it is stored. */
  function RecoveredForms(store: Store, zombies: seq<OutboxMessage>, ws: seq<Write>): seq<OutboxMessage>
    requires |ws| == |zombies| && Ids(zombies) <= store.Keys
  {
    seq(|zombies|, i requires 0 <= i < |zombies| =>
      assert zombies[i].messageId in Ids(zombies);
      if !ws[i].IsApplied() then store[zombies[i].messageId] else RecoveredForm(zombies[i], ws[i].at))
  }

  function AnsweredOnes(ws: seq<Write>): seq<bool> {
    seq(|ws|, i requires 0 <= i < |ws| => ws[i].end == Answered)
  }

  ghost predicate AllProcessing(store: Store, ms: seq<OutboxMessage>) {
    forall i :: 0 <= i < |ms| ==> StatusIs(store, ms[i].messageId, Processing)
  }

  lemma IdsAreStored(store: Store, ms: seq<OutboxMessage>)
    requires AllProcessing(store, ms)
    ensures Ids(ms) <= store.Keys
  {
    forall id | id in Ids(ms) ensures id in store {
      var i :| 0 <= i < |ms| && ms[i].messageId == id;
      assert StatusIs(store, ms[i].messageId, Processing);
    }
  }

  /** recover_zombies() leaves each listed message whose write was applied PENDING
      with one more retry, or FAILED when that was the last one, leaves all others
      alone, and counts the answered writes. */
  lemma {:induction false} RecoveredMessages(store: Store, zombies: seq<OutboxMessage>, ws: seq<Write>)
    requires WellKeyed(store) && |ws| == |zombies| && DistinctIds(zombies) && AllProcessing(store, zombies)
    ensures Ids(zombies) <= store.Keys
    ensures Rewritten(store, RecoverAll(store, zombies, ws).0, zombies,
      RecoveredForms(store, zombies, ws))
    ensures RecoverAll(store, zombies, ws).1 == CountTrue(AnsweredOnes(ws))
    decreases |zombies|
  {
    IdsAreStored(store, zombies);
    if zombies == [] {
    } else {
      var n := |zombies| - 1;
      SplitLast(zombies);
      RecoveredMessages(store, zombies[..n], ws[..n]);
      var before := RecoverAll(store, zombies[..n], ws[..n]).0;
      var forms := RecoveredForms(store, zombies, ws);
      FormsOfFirst(store, zombies, ws);
      ZombieIsUntouched(store, before, zombies, RecoveredForms(store, zombies[..n], ws[..n]));
      hide RecoveredForms, AnsweredOnes, Rewritten, RecoverOne, AllProcessing;
      RewriteOneMore(store, before, zombies, forms);
      RecoverOneSaves(store, before, zombies[n], ws[n]);
    }
  }

  lemma FormsOfFirst(store: Store, zombies: seq<OutboxMessage>, ws: seq<Write>)
    requires WellKeyed(store) && |ws| == |zombies| && zombies != [] && AllProcessing(store, zombies)
    requires Ids(zombies) <= store.Keys && Ids(zombies[..|zombies| - 1]) <= store.Keys
    ensures var n, forms := |zombies| - 1, RecoveredForms(store, zombies, ws);
      && forms[..n] == RecoveredForms(store, zombies[..n], ws[..n])
      && zombies[n].messageId in store && forms[n].messageId == zombies[n].messageId
      && forms[n] == (if !ws[n].IsApplied() then store[zombies[n].messageId] else RecoveredForm(zombies[n], ws[n].at))
      && AnsweredOnes(ws)[..n] == AnsweredOnes(ws[..n]) && AnsweredOnes(ws)[n] == (ws[n].end == Answered)
  {
    assert StatusIs(store, zombies[|zombies| - 1].messageId, Processing);
  }

  /** The last zombie is still as it was. */
  lemma ZombieIsUntouched(store: Store, before: Store, zombies: seq<OutboxMessage>, forms: seq<OutboxMessage>)
    requires zombies != [] && DistinctIds(zombies) && AllProcessing(store, zombies)
    requires Rewritten(store, before, zombies[..|zombies| - 1], forms)
    ensures var id := zombies[|zombies| - 1].messageId;
      StatusIs(store, id, Processing) && id in before && before[id] == store[id]
  {
    SplitLast(zombies);
    assert StatusIs(store, zombies[|zombies| - 1].messageId, Processing);
  }

  lemma RecoverOneSaves(store: Store, before: Store, z: OutboxMessage, w: Write)
    requires WellKeyed(store) && StatusIs(store, z.messageId, Processing)
    requires z.messageId in before && before[z.messageId] == store[z.messageId]
    ensures RecoverOne(before, z, w) ==
      OutboxStore.Save(before, if w.IsApplied() then RecoveredForm(z, w.at) else store[z.messageId])
  {
  }

  /* ---- which messages a call touches ---- */

  lemma ListedAreStored(store: Store, c: Criteria, ms: seq<OutboxMessage>)
    requires IsFindResult(store, c, ms)
    ensures Ids(ms) <= store.Keys
    ensures forall id :: id in Ids(ms) ==> store[id] in ms && store[id].messageId == id
    ensures forall m :: m in ms ==> m.status == c.status && (c.before.Some? ==> m.updatedAt < c.before.value)
  {
  }

  /** Whatever happens in a call, only PENDING messages are touched. */
  lemma RelaySparesOthers(
      store: Store, limit: nat, todo: seq<OutboxMessage>, hs: seq<Handling>, claim: Write, store': Store,
      published: Option<nat>)
    requires IsFindResult(store, Criteria(Pending, None, limit), todo)
    requires RelayedUntil(store, todo, hs, claim, store', published)
    ensures store'.Keys == store.Keys
    ensures forall id :: id in store && store[id].status != Pending ==> store'[id] == store[id]
  {
    var k := |hs|;
    ListedAreStored(store, Criteria(Pending, None, limit), todo);
    forall m | m in todo[..k] ensures m in todo && m.messageId in Ids(todo) {}
    assert forall i :: 0 <= i < k ==> todo[..k][i] == todo[i];
    RelayedMessages(store, todo[..k], hs);
    hide RelayAll;
    if k < |todo| {
      assert todo[k] in todo && todo[k].messageId in Ids(todo);
    }
  }

  /** An undisturbed relay() takes every listed message out of PENDING, and all
      there are if the limit does not cut the list off. */
  lemma NothingStaysPending(store: Store, limit: nat, todo: seq<OutboxMessage>, hs: seq<Handling>)
    requires WellKeyed(store) && IsFindResult(store, Criteria(Pending, None, limit), todo) && |hs| == |todo|
    ensures var after := RelayAll(store, todo, hs).store;
      && (forall m :: m in todo ==> StatusIs(after, m.messageId, Published) || StatusIs(after, m.messageId, Processing))
      && (limit == 0 || |todo| < limit ==> forall id :: id in after ==> after[id].status != Pending)
  {
    var c := Criteria(Pending, None, limit);
    var after := RelayAll(store, todo, hs).store;
    ListedAreStored(store, c, todo);
    RelayedMessages(store, todo, hs);
    hide RelayAll;
    forall m | m in todo
      ensures StatusIs(after, m.messageId, Published) || StatusIs(after, m.messageId, Processing)
    {
      var i :| 0 <= i < |todo| && todo[i] == m;
      assert StoredAs(after, RelayedForms(todo, hs)[i]);
    }
    forall id | id in after && after[id].status == Pending ensures !(limit == 0 || |todo| < limit) {
      assert id !in Ids(todo) && Matches(store[id], c) && Complete(store, c, todo);
    }
  }

  /** The same message with one more retry: PENDING again, or FAILED if that was
      the last one. */
  predicate IsRetriedOnce(m: OutboxMessage, m': OutboxMessage) {
    && m' == m.(status := m'.status, retryCount := m.retryCount + 1, updatedAt := m'.updatedAt)
    && m'.status == (if m.retryCount + 1 < m.maxRetries then Pending else Failed)
  }

  predicate NoneLost(ws: seq<Write>) {
    forall w :: w in ws ==> w.end != Lost(false)
  }

  /** Recovery leaves every message alone that is not PROCESSING or is young. It
      gives each older PROCESSING one its retry, if the limit does not cut the list
      off and the writes go through. */
  lemma RecoveryIsExact(store: Store, cutoff: int, zombies: seq<OutboxMessage>, ws: seq<Write>)
    requires WellKeyed(store) && |ws| == |zombies|
    requires IsFindResult(store, Criteria(Processing, Some(cutoff), DEFAULT_ZOMBIE_LIMIT), zombies)
    ensures var after := RecoverAll(store, zombies, ws).0;
      && after.Keys == store.Keys
      && (forall id :: id in store && (store[id].status != Processing || store[id].updatedAt >= cutoff) ==>
            after[id] == store[id])
      && (|zombies| < DEFAULT_ZOMBIE_LIMIT && NoneLost(ws) ==> forall id ::
            id in store && store[id].status == Processing && store[id].updatedAt < cutoff ==>
              IsRetriedOnce(store[id], after[id]))
  {
    var c := Criteria(Processing, Some(cutoff), DEFAULT_ZOMBIE_LIMIT);
    var after := RecoverAll(store, zombies, ws).0;
    ListedAreStored(store, c, zombies);
    assert forall i :: 0 <= i < |zombies| ==> zombies[i] in zombies;
    RecoveredMessages(store, zombies, ws);
    hide RecoverAll;
    if |zombies| < DEFAULT_ZOMBIE_LIMIT && NoneLost(ws) {
      forall id | id in store && store[id].status == Processing && store[id].updatedAt < cutoff
        ensures IsRetriedOnce(store[id], after[id])
      {
        assert Complete(store, c, zombies) && Matches(store[id], c);
        var i :| 0 <= i < |zombies| && zombies[i] == store[id];
        assert ws[i] in ws && StoredAs(after, RecoveredForms(store, zombies, ws)[i]);
      }
    }
  }

  /* ---- repeated rounds drain the outbox ---- */

  ghost predicate RelayRound(s: Store, s': Store, limit: nat) {
    exists todo: seq<OutboxMessage>, hs: seq<Handling> ::
      |hs| == |todo| && IsFindResult(s, Criteria(Pending, None, limit), todo) && s' == RelayAll(s, todo, hs).store
  }

  ghost predicate RecoverRound(s: Store, s': Store, cutoff: int) {
    exists zombies: seq<OutboxMessage>, ws: seq<Write> ::
      && IsFindResult(s, Criteria(Processing, Some(cutoff), DEFAULT_ZOMBIE_LIMIT), zombies)
      && |ws| == |zombies| && AllAnswered(ws) && s' == RecoverAll(s, zombies, ws).0
  }

  /** The rounds assume a store that answers; the dispatcher may do anything. */
  predicate AllAnswered(ws: seq<Write>) {
    forall w :: w in ws ==> w.end == Answered
  }

  /** One relay() call, a wait until every PROCESSING message is older than the
      threshold, and one recover_zombies() call. */
  ghost predicate Round(s: Store, s': Store, limit: nat) {
    exists mid: Store, cutoff: int ::
      && RelayRound(s, mid, limit)
      && (forall id :: StatusIs(mid, id, Processing) ==> mid[id].updatedAt < cutoff)
      && RecoverRound(mid, s', cutoff)
  }

  ghost predicate Good(s: Store) {
    WellKeyed(s) && forall id :: id in s ==> Bounded(s[id])
  }

  ghost predicate AllTerminal(s: Store) {
    forall id :: id in s ==> s[id].IsTerminal()
  }

  /** Every message keeps or lowers its rank. */
  ghost predicate RanksFall(s: Store, s': Store) {
    && s'.Keys == s.Keys
    && forall id :: id in s ==> 0 <= Rank(s'[id]) <= Rank(s[id])
  }

  ghost function Pick(ids: set<string>): string
    requires ids != {}
  {
    var id :| id in ids; id
  }

  /** Sum of the ranks of `ids`. */
  ghost function RankSum(s: Store, ids: set<string>): int
    requires ids <= s.Keys
  {
    if ids == {} then 0 else var id := Pick(ids); Rank(s[id]) + RankSum(s, ids - {id})
  }

  ghost function Total(s: Store): int {
    RankSum(s, s.Keys)
  }

  lemma {:induction false} RankSumFalls(s: Store, s': Store, ids: set<string>)
    requires RanksFall(s, s') && ids <= s.Keys
    ensures 0 <= RankSum(s', ids) <= RankSum(s, ids)
    ensures (exists id :: id in ids && Rank(s'[id]) < Rank(s[id])) ==> RankSum(s', ids) < RankSum(s, ids)
  {
    if ids == {} {
    } else {
      RankSumFalls(s, s', ids - {Pick(ids)});
    }
  }

  /** The message `id` loses rank. */
  predicate Loses(s: Store, s': Store, id: string) {
    id in s && id in s' && Rank(s'[id]) < Rank(s[id])
  }

  lemma RewrittenFalls(s: Store, s': Store, ms: seq<OutboxMessage>, forms: seq<OutboxMessage>)
    requires Good(s) && Rewritten(s, s', ms, forms)
    requires forall i :: 0 <= i < |ms| ==> StoredAs(s, ms[i]) && Bounded(forms[i]) && Rank(forms[i]) < Rank(ms[i])
    ensures Good(s') && RanksFall(s, s')
    ensures ms != [] ==> Loses(s, s', ms[0].messageId)
  {
    forall id | id in s ensures Bounded(s'[id]) && s'[id].messageId == id && 0 <= Rank(s'[id]) <= Rank(s[id]) {
      if id in Ids(ms) {
        var i :| 0 <= i < |ms| && ms[i].messageId == id;
        assert StoredAs(s', forms[i]) && StoredAs(s, ms[i]);
      }
    }
    if ms != [] {
      assert StoredAs(s', forms[0]) && StoredAs(s, ms[0]);
    }
  }

  lemma RelayedRanksLower(m: OutboxMessage, h: Handling)
    requires m.status == Pending && Bounded(m)
    ensures Bounded(RelayedForm(m, h)) && Rank(RelayedForm(m, h)) < Rank(m)
  {
  }

  lemma RelayRoundLowers(s: Store, s': Store, limit: nat)
    requires Good(s) && RelayRound(s, s', limit)
    ensures Good(s') && RanksFall(s, s')
    ensures forall id :: StatusIs(s, id, Processing) ==> id in s' && s'[id] == s[id]
    ensures (exists id :: StatusIs(s, id, Pending)) ==> exists id :: Loses(s, s', id)
  {
    var c := Criteria(Pending, None, limit);
    var todo: seq<OutboxMessage>, hs: seq<Handling> :|
      |hs| == |todo| && IsFindResult(s, c, todo) && s' == RelayAll(s, todo, hs).store;
    var forms := RelayedForms(todo, hs);
    RelayedMessages(s, todo, hs);
    hide RelayAll, Complete, OldestFirst;
    forall i | 0 <= i < |todo| ensures StoredAs(s, todo[i]) && Bounded(forms[i]) && Rank(forms[i]) < Rank(todo[i]) {
      assert todo[i] in todo && Bounded(s[todo[i].messageId]);
      RelayedRanksLower(todo[i], hs[i]);
    }
    hide RelayedForms;
    RewrittenFalls(s, s', todo, forms);
    if id :| StatusIs(s, id, Pending) {
      SomethingIsFound(s, c, todo, id);
    }
  }

  lemma SomethingIsFound(s: Store, c: Criteria, found: seq<OutboxMessage>, id: string)
    requires IsFindResult(s, c, found) && id in s && Matches(s[id], c)
    ensures found != []
  {
    assert Complete(s, c, found);
  }

  lemma RecoverRoundLowers(s: Store, s': Store, cutoff: int)
    requires Good(s) && RecoverRound(s, s', cutoff)
    ensures Good(s') && RanksFall(s, s')
    ensures (exists id :: StatusIs(s, id, Processing) && s[id].updatedAt < cutoff) ==> exists id :: Loses(s, s', id)
  {
    var c := Criteria(Processing, Some(cutoff), DEFAULT_ZOMBIE_LIMIT);
    var zombies: seq<OutboxMessage>, ws: seq<Write> :|
      IsFindResult(s, c, zombies) && |ws| == |zombies| && AllAnswered(ws) && s' == RecoverAll(s, zombies, ws).0;
    assert forall i :: 0 <= i < |zombies| ==> zombies[i] in zombies;
    RecoveredMessages(s, zombies, ws);
    var forms := RecoveredForms(s, zombies, ws);
    forall i | 0 <= i < |zombies|
      ensures StoredAs(s, zombies[i]) && Bounded(forms[i]) && Rank(forms[i]) < Rank(zombies[i])
    {
      assert zombies[i] in zombies && Bounded(s[zombies[i].messageId]);
    }
    RewrittenFalls(s, s', zombies, forms);
    if id :| StatusIs(s, id, Processing) && s[id].updatedAt < cutoff {
      SomethingIsFound(s, c, zombies, id);
    }
  }

  lemma SomeMessageLoses(s: Store, mid: Store, s': Store, limit: nat, cutoff: int)
    requires Good(s) && RelayRound(s, mid, limit) && RecoverRound(mid, s', cutoff)
    requires forall id :: StatusIs(mid, id, Processing) ==> mid[id].updatedAt < cutoff
    requires !AllTerminal(s)
    ensures (exists id :: Loses(s, mid, id)) || (exists id :: Loses(mid, s', id))
  {
    hide RelayRound, RecoverRound, RanksFall, Good, Rank;
    RelayRoundLowers(s, mid, limit);
    RecoverRoundLowers(mid, s', cutoff);
    var id :| id in s && !s[id].IsTerminal();
    assert StatusIs(s, id, Pending) || StatusIs(s, id, Processing);
    if StatusIs(s, id, Processing) {
      assert StatusIs(mid, id, Processing);
    }
  }

  /** A round lowers the total unless every message is terminal, whatever the
      dispatcher does and whatever the limits are. */
  lemma RoundLowersTotal(s: Store, s': Store, limit: nat)
    requires Good(s) && Round(s, s', limit)
    ensures Good(s') && RanksFall(s, s')
    ensures 0 <= Total(s') <= Total(s)
    ensures !AllTerminal(s) ==> Total(s') < Total(s)
  {
    var mid: Store, cutoff: int :|
      && RelayRound(s, mid, limit)
      && (forall id :: StatusIs(mid, id, Processing) ==> mid[id].updatedAt < cutoff)
      && RecoverRound(mid, s', cutoff);
    RelayRoundLowers(s, mid, limit);
    RecoverRoundLowers(mid, s', cutoff);
    RankSumFalls(s, mid, s.Keys);
    RankSumFalls(mid, s', s.Keys);
    if !AllTerminal(s) {
      SomeMessageLoses(s, mid, s', limit, cutoff);
    }
  }

  lemma TerminalByRank(s: Store)
    requires Good(s) && forall id :: id in s ==> Rank(s[id]) <= 0
    ensures AllTerminal(s)
  {
    forall id | id in s ensures s[id].IsTerminal() {
      assert Bounded(s[id]);
    }
  }

  /** Each store of the history follows from the one before it by a round. */
  ghost predicate Rounds(history: seq<Store>, limit: nat) {
    |history| <= 1 || (Round(history[0], history[1], limit) && Rounds(history[1..], limit))
  }

  /** The outbox drains: whatever each dispatch does, once the number of rounds
      exceeds the initial total, every message is PUBLISHED or FAILED. */
  lemma {:induction false} OutboxDrains(history: seq<Store>, limit: nat)
    requires history != [] && Good(history[0])
    requires Rounds(history, limit)
    requires |history| > Total(history[0]) + 1
    ensures AllTerminal(history[|history| - 1])
    decreases |history|
  {
    var s := history[0];
    if |history| == 1 {
      RankSumFalls(s, s, s.Keys);
    } else {
      var rest := history[1..];
      assert rest[0] == history[1] && rest[|rest| - 1] == history[|history| - 1];
      RoundLowersTotal(s, history[1], limit);
      if AllTerminal(s) {
        StaysTerminal(history, limit);
      } else {
        OutboxDrains(rest, limit);
      }
    }
  }

  lemma {:induction false} StaysTerminal(history: seq<Store>, limit: nat)
    requires history != [] && Good(history[0]) && AllTerminal(history[0])
    requires Rounds(history, limit)
    ensures AllTerminal(history[|history| - 1])
    decreases |history|
  {
    if |history| > 1 {
      RoundLowersTotal(history[0], history[1], limit);
      forall id | id in history[1] ensures Rank(history[1][id]) <= 0 {
        assert id in history[0] && history[0][id].IsTerminal();
      }
      TerminalByRank(history[1]);
      StaysTerminal(history[1..], limit);
    }
  }

  /* ---- the loops are runs of the protocol ---- */

  /** The relay() loop, undisturbed, is a run of the protocol: after `k`
      messages the protocol state holds exactly the store the loop computes. */
  lemma {:induction false} RelayLoopIsARun(
      start: State, s: State, p: nat, todo: seq<OutboxMessage>, hs: seq<Handling>, k: nat)
    returns (s': State)
    requires Reachable(start, s) && p < |s.relays| && s.relays[p] == Listed(todo)
    requires |hs| == |todo| && k <= |todo|
    ensures Reachable(start, s')
    ensures s'.store == RelayAll(s.store, todo[..k], hs[..k]).store
    ensures s'.relays == s.relays[p := Listed(todo[k..])] && s'.recoverers == s.recoverers
    decreases k
  {
    if k == 0 {
      s' := s;
    } else {
      var s1 := RelayLoopIsARun(start, s, p, todo, hs, k - 1);
      s' := OneMessageIsARun(start, s1, p, todo[k - 1..], hs[k - 1]);
      assert todo[k - 1..][1..] == todo[k..];
      RelayOneSaves(s1.store, todo[k - 1], hs[k - 1]);
      assert todo[..k][..k - 1] == todo[..k - 1] && hs[..k][..k - 1] == hs[..k - 1];
    }
  }

  /** The same for the recover_zombies() loop. */
  lemma {:induction false} RecoverLoopIsARun(
      start: State, s: State, q: nat, zombies: seq<OutboxMessage>, ws: seq<Write>, k: nat)
    returns (s': State)
    requires Reachable(start, s) && q < |s.recoverers| && s.recoverers[q] == Recovering(zombies)
    requires |ws| == |zombies| && k <= |zombies|
    ensures Reachable(start, s')
    ensures s'.store == RecoverAll(s.store, zombies[..k], ws[..k]).0
    ensures s'.recoverers == s.recoverers[q := Recovering(zombies[k..])] && s'.relays == s.relays
    decreases k
  {
    if k == 0 {
      s' := s;
    } else {
      var s1 := RecoverLoopIsARun(start, s, q, zombies, ws, k - 1);
      var step := if ws[k - 1].IsApplied() then RecoverWrite(q, ws[k - 1].at) else RecoverError(q);
      s' := Next(s1, step);
      ReachNext(start, s1, step);
      hide Reachable, RecoverAll;
      assert zombies[k - 1..][1..] == zombies[k..];
      OneMoreRecovered(s.store, zombies, ws[..k - 1], ws[k - 1]);
      assert ws[..k] == ws[..k - 1] + [ws[k - 1]];
    }
  }
}
