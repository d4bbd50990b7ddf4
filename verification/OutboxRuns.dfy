/** What the outbox protocol guarantees when only one relay runs, and when only
    one relay and one recoverer run; and how runs are put together. */
module OutboxRuns {
  import opened Domain
  import opened OutboxStore
  import opened OutboxProtocol

  /* ---- one relay, any number of recoverers ---- */

  /** The snapshots of the only relay are never stale: nobody else moves a
      message out of PENDING or into PROCESSING. */
  ghost predicate RelayFresh(store: Store, r: Relay) {
    && (!r.Idle? ==> DistinctIds(r.todo) && forall m :: m in r.todo ==> m.messageId in store && store[m.messageId] == m)
    && (r.Claimed? || r.Dispatched? ==>
          && (forall m :: m in r.todo ==> m.messageId != r.msg.messageId)
          && (StatusIs(store, r.msg.messageId, Processing) ==> store[r.msg.messageId] == r.msg))
  }

  ghost predicate OneRelay(s: State) {
    && Safe(s)
    && |s.relays| == 1
    && RelayFresh(s.store, s.relays[0])
  }

  /** The edges of the status diagram. */
  predicate Edge(from: OutboxStatus, to: OutboxStatus) {
    match from
    case Pending => to == Pending || to == Processing
    case Processing => true
    case Published => to == Published
    case Failed => to == Failed
  }

  ghost predicate Edges(before: Store, after: Store) {
    forall id :: id in before ==> id in after && Edge(before[id].status, after[id].status)
  }

  lemma EdgeStep(s: State, step: Step)
    requires OneRelay(s) && Enabled(s, step)
    ensures Edges(s.store, Next(s, step).store)
  {
    match step
    case RelayClaim(p, _) => HeadIsKnown(s, p);
    case RelayPublish(p, now) => EdgesAfterCas(s, s.relays[p].msg.MarkPublished(now));
    case RecoverWrite(q, now) => EdgesAfterCas(s, Recovered(s.recoverers[q].zombies[0], now));
    case _ =>
  }

  lemma EdgesAfterCas(s: State, m: OutboxMessage)
    ensures Edges(s.store, CasProcessing(s, m).store)
  {
  }

  /** Moving a message out of PROCESSING leaves the relay's snapshots fresh. */
  lemma FreshAfterCas(s: State, r: Relay, m: OutboxMessage)
    requires RelayOk(s, r) && RelayFresh(s.store, r)
    requires StatusIs(s.store, m.messageId, Processing) && m.status != Processing
    ensures RelayFresh(Save(s.store, m), r)
  {
    if !r.Idle? {
      forall x | x in r.todo ensures x.messageId != m.messageId {
        assert KnownCopy(s, x, Pending);
      }
    }
  }

  lemma TailIsDistinct(ms: seq<OutboxMessage>)
    requires ms != [] && DistinctIds(ms)
    ensures DistinctIds(ms[1..])
    ensures forall m :: m in ms[1..] ==> m in ms && m.messageId != ms[0].messageId
  {
    forall m | m in ms[1..] ensures m in ms && m.messageId != ms[0].messageId {
      var i :| 0 <= i < |ms[1..]| && ms[1..][i] == m;
      assert ms[i + 1] == m;
    }
  }

  lemma FreshAfterClaim(s: State, now: int)
    requires OneRelay(s) && Enabled(s, RelayClaim(0, now))
    ensures OneRelay(Next(s, RelayClaim(0, now)))
  {
    SafeStep(s, RelayClaim(0, now));
    HeadIsKnown(s, 0);
    TailIsDistinct(s.relays[0].todo);
  }

  lemma FreshAfterPublish(s: State, now: int)
    requires OneRelay(s) && Enabled(s, RelayPublish(0, now))
    ensures OneRelay(Next(s, RelayPublish(0, now)))
  {
    SafeStep(s, RelayPublish(0, now));
    InFlightIsKnown(s, 0);
    var r := s.relays[0];
    if StatusIs(s.store, r.msg.messageId, Processing) {
      FreshAfterCas(s, r, r.msg.MarkPublished(now));
    }
  }

  lemma FreshAfterRecover(s: State, q: nat, now: int)
    requires OneRelay(s) && Enabled(s, RecoverWrite(q, now))
    ensures OneRelay(Next(s, RecoverWrite(q, now)))
  {
    SafeStep(s, RecoverWrite(q, now));
    var m := Recovered(s.recoverers[q].zombies[0], now);
    if StatusIs(s.store, m.messageId, Processing) {
      FreshAfterCas(s, s.relays[0], m);
    }
  }

  lemma OneRelayStep(s: State, step: Step)
    requires OneRelay(s) && Enabled(s, step)
    ensures OneRelay(Next(s, step))
  {
    match step
    case RelayClaim(p, now) => FreshAfterClaim(s, now);
    case RelayPublish(p, now) => FreshAfterPublish(s, now);
    case RecoverWrite(q, now) => FreshAfterRecover(s, q, now);
    case _ =>
      SafeStep(s, step);
      FreshAfterOtherStep(s, step);
  }

  lemma FreshAfterOtherStep(s: State, step: Step)
    requires |s.relays| == 1 && RelayFresh(s.store, s.relays[0]) && Enabled(s, step)
    requires !step.RelayClaim? && !step.RelayPublish? && !step.RecoverWrite?
    ensures |Next(s, step).relays| == 1 && RelayFresh(Next(s, step).store, Next(s, step).relays[0])
  {
    match step
    case Submit(m) => FreshAfterSubmit(s, m);
    case RelayList(p, found, limit) => FreshAfterList(s, found, limit);
    case RelayDispatch(p, ok) =>
    case RelayPublishError(p) =>
    case RelayStop(p) =>
    case RecoverList(_, _, _, _) =>
    case RecoverError(_) =>
    case RecoverStop(_) =>
  }

  lemma FreshAfterSubmit(s: State, m: OutboxMessage)
    requires |s.relays| == 1 && RelayFresh(s.store, s.relays[0]) && Enabled(s, Submit(m))
    ensures RelayFresh(Next(s, Submit(m)).store, s.relays[0])
  {
  }

  lemma FreshAfterList(s: State, found: seq<OutboxMessage>, limit: nat)
    requires |s.relays| == 1 && Enabled(s, RelayList(0, found, limit))
    ensures RelayFresh(s.store, Listed(found))
  {
  }

  lemma {:induction false} OneRelayRun(s: State, steps: seq<Step>)
    requires OneRelay(s) && IsRun(s, steps)
    ensures OneRelay(After(s, steps))
    ensures forall id :: id in s.store ==>
      id in After(s, steps).store &&
      (s.store[id].IsTerminal() ==> After(s, steps).store[id] == s.store[id])
    decreases |steps|
  {
    if steps == [] {
    } else {
      OneRelayStep(s, steps[0]);
      EdgeStep(s, steps[0]);
      OneRelayRun(Next(s, steps[0]), steps[1..]);
      forall id | id in s.store && s.store[id].IsTerminal()
        ensures After(s, steps).store[id] == s.store[id]
      {
        TerminalIsLeftExactlyByStaleClaims(s, steps[0], id);
      }
    }
  }

  lemma OneRelayInitially(s: State)
    requires Initial(s) && |s.relays| == 1
    ensures OneRelay(s)
  {
    assert s.relays[0] in s.relays;
  }

  /** With one relay, over every run: in each step a stored status moves along
      an edge of the diagram, and a message that has become PUBLISHED or FAILED
      stays exactly as it is, although claims are saved unconditionally. */
  lemma OneRelayMovesAlongEdges(s: State, before: seq<Step>, step: Step, after: seq<Step>)
    requires Initial(s) && |s.relays| == 1
    requires IsRun(s, before) && Enabled(After(s, before), step)
    requires IsRun(Next(After(s, before), step), after)
    ensures var s1 := After(s, before);
      var s2 := Next(s1, step);
      var s3 := After(s2, after);
      && Edges(s1.store, s2.store)
      && forall id :: id in s2.store && s2.store[id].IsTerminal() ==> id in s3.store && s3.store[id] == s2.store[id]
  {
    OneRelayInitially(s);
    OneRelayRun(s, before);
    EdgeStep(After(s, before), step);
    OneRelayStep(After(s, before), step);
    OneRelayRun(Next(After(s, before), step), after);
  }

  /* ---- one relay and one recoverer ---- */

  predicate CurrentOrPublished(store: Store, z: OutboxMessage) {
    z.messageId in store && (store[z.messageId] == z || store[z.messageId].status == Published)
  }

  /** The snapshots of the only recoverer are current, except for messages the
      relay has published since. */
  ghost predicate RecovererFresh(store: Store, r: Recoverer) {
    r.Recovering? ==>
      && DistinctIds(r.zombies)
      && forall z :: z in r.zombies ==> CurrentOrPublished(store, z)
  }

  /** Claims a message has seen, as told by its stored form. */
  function ClaimsOf(m: OutboxMessage): nat {
    m.retryCount + (if m.status == Processing || m.status == Published then 1 else 0)
  }

  /** Writes a message can still take. */
  function Rank(m: OutboxMessage): int {
    match m.status
    case Pending => 2 * (m.maxRetries - m.retryCount)
    case Processing => 2 * (m.maxRetries - m.retryCount) - 1
    case Published => 0
    case Failed => 0
  }

  predicate AwaitsDispatch(r: Relay, id: string) {
    r.Claimed? && r.msg.messageId == id
  }

  ghost predicate Ledger(s: State, id: string)
    requires |s.relays| == 1
  {
    if id in s.store then
      && Count(s.claims, id) == ClaimsOf(s.store[id])
      && Count(s.calls, id) + (if AwaitsDispatch(s.relays[0], id) then 1 else 0) <= Count(s.claims, id)
      && Count(s.writes, id) + Rank(s.store[id]) <= 2 * s.store[id].maxRetries
    else
      Count(s.claims, id) == Count(s.calls, id) == Count(s.writes, id) == 0
  }

  ghost predicate Exact(s: State) {
    && OneRelay(s)
    && |s.recoverers| == 1
    && RecovererFresh(s.store, s.recoverers[0])
    && forall id :: Ledger(s, id)
  }

  lemma LedgerAfterClaim(s: State, now: int, id: string)
    requires |s.relays| == 1 && Enabled(s, RelayClaim(0, now)) && Ledger(s, id)
    requires var m := s.relays[0].todo[0]; m.messageId in s.store && s.store[m.messageId] == m && m.status == Pending
    ensures Ledger(Next(s, RelayClaim(0, now)), id)
  {
  }

  lemma LedgerAfterDispatch(s: State, ok: bool, id: string)
    requires |s.relays| == 1 && s.relays[0].Claimed? && s.relays[0].msg.messageId in s.store && Ledger(s, id)
    ensures Ledger(Dispatch(s, 0, ok), id)
  {
  }

  lemma DispatchKeepsStore(s: State, ok: bool)
    requires |s.relays| == 1 && s.relays[0].Claimed?
    ensures var s' := Dispatch(s, 0, ok); s'.store == s.store && s'.recoverers == s.recoverers
  {
  }

  lemma LedgerAfterPublish(s: State, now: int, id: string)
    requires |s.relays| == 1 && Enabled(s, RelayPublish(0, now)) && Ledger(s, id)
    requires var m := s.relays[0].msg;
      Bounded(m) && m.status == Processing && (StatusIs(s.store, m.messageId, Processing) ==> s.store[m.messageId] == m)
    ensures Ledger(Next(s, RelayPublish(0, now)), id)
  {
  }

  lemma LedgerAfterRecover(s: State, now: int, id: string)
    requires |s.relays| == 1 && |s.recoverers| == 1 && Enabled(s, RecoverWrite(0, now)) && Ledger(s, id)
    requires var z := s.recoverers[0].zombies[0];
      Bounded(z) && z.status == Processing && CurrentOrPublished(s.store, z)
    ensures Ledger(Next(s, RecoverWrite(0, now)), id)
  {
  }

  lemma RecovererFreshAfterClaim(s: State, r: Recoverer, m: OutboxMessage)
    requires RecovererFresh(s.store, r) && RecovererOk(s, r)
    requires StatusIs(s.store, m.messageId, Pending)
    ensures RecovererFresh(Save(s.store, m), r)
  {
    if r.Recovering? {
      forall z | z in r.zombies ensures CurrentOrPublished(Save(s.store, m), z) {
        assert KnownCopy(s, z, Processing) && CurrentOrPublished(s.store, z);
      }
    }
  }

  lemma ExactClaim(s: State, now: int)
    requires Exact(s) && Enabled(s, RelayClaim(0, now))
    ensures Exact(Next(s, RelayClaim(0, now)))
  {
    var s' := Next(s, RelayClaim(0, now));
    FreshAfterClaim(s, now);
    HeadIsKnown(s, 0);
    assert s.relays[0].todo[0] in s.relays[0].todo;
    RecovererFreshAfterClaim(s, s.recoverers[0], s'.relays[0].msg);
    forall id ensures Ledger(s', id) {
      assert Ledger(s, id);
      LedgerAfterClaim(s, now, id);
    }
  }

  lemma ExactDispatch(s: State, ok: bool)
    requires Exact(s) && Enabled(s, RelayDispatch(0, ok))
    ensures Exact(Next(s, RelayDispatch(0, ok)))
  {
    var s' := Dispatch(s, 0, ok);
    DispatchKeepsStore(s, ok);
    forall id ensures Ledger(s', id) {
      assert KnownCopy(s, s.relays[0].msg, Processing) by { InFlightIsKnown(s, 0); }
      assert Ledger(s, id);
      LedgerAfterDispatch(s, ok, id);
    }
    OneRelayStep(s, RelayDispatch(0, ok));
  }

  lemma ExactPublish(s: State, now: int)
    requires Exact(s) && Enabled(s, RelayPublish(0, now))
    ensures Exact(Next(s, RelayPublish(0, now)))
  {
    var s' := Next(s, RelayPublish(0, now));
    FreshAfterPublish(s, now);
    InFlightIsKnown(s, 0);
    forall id ensures Ledger(s', id) {
      assert Ledger(s, id);
      LedgerAfterPublish(s, now, id);
    }
  }

  lemma ExactRecover(s: State, now: int)
    requires Exact(s) && Enabled(s, RecoverWrite(0, now))
    ensures Exact(Next(s, RecoverWrite(0, now)))
  {
    var s' := Next(s, RecoverWrite(0, now));
    FreshAfterRecover(s, 0, now);
    ZombieIsKnown(s, 0);
    var zombies := s.recoverers[0].zombies;
    assert zombies[0] in zombies;
    TailIsDistinct(zombies);
    forall z | z in zombies[1..] ensures CurrentOrPublished(s'.store, z) {
      assert CurrentOrPublished(s.store, z);
    }
    forall id ensures Ledger(s', id) {
      assert Ledger(s, id);
      LedgerAfterRecover(s, now, id);
    }
  }

  lemma ExactAfterOtherStep(s: State, step: Step)
    requires |s.relays| == 1 && |s.recoverers| == 1 && Enabled(s, step)
    requires RecovererFresh(s.store, s.recoverers[0]) && forall id :: Ledger(s, id)
    requires s.relays[0].Claimed? ==> s.relays[0].msg.messageId in s.store
    requires !step.RelayClaim? && !step.RelayDispatch? && !step.RelayPublish? && !step.RecoverWrite?
    ensures var s' := Next(s, step);
      |s'.relays| == 1 && |s'.recoverers| == 1 &&
      RecovererFresh(s'.store, s'.recoverers[0]) && forall id :: Ledger(s', id)
  {
    var s' := Next(s, step);
    match step {
      case RecoverList(q, zombies, cutoff, limit) =>
        forall z | z in zombies ensures CurrentOrPublished(s.store, z) {}
      case RecoverError(q) => TailIsDistinct(s.recoverers[0].zombies);
      case _ =>
    }
    forall id ensures Ledger(s', id) {
      assert Ledger(s, id);
      LedgerAfterOtherStep(s, step, id);
    }
  }

  lemma LedgerAfterOtherStep(s: State, step: Step, id: string)
    requires |s.relays| == 1 && |s.recoverers| == 1 && Enabled(s, step) && Ledger(s, id)
    requires s.relays[0].Claimed? ==> s.relays[0].msg.messageId in s.store
    requires !step.RelayClaim? && !step.RelayDispatch? && !step.RelayPublish? && !step.RecoverWrite?
    ensures |Next(s, step).relays| == 1 && Ledger(Next(s, step), id)
  {
  }

  lemma ExactStep(s: State, step: Step)
    requires Exact(s) && Enabled(s, step)
    ensures Exact(Next(s, step))
  {
    match step
    case RelayClaim(p, now) => ExactClaim(s, now);
    case RelayDispatch(p, ok) => ExactDispatch(s, ok);
    case RelayPublish(p, now) => ExactPublish(s, now);
    case RecoverWrite(q, now) => ExactRecover(s, now);
    case _ =>
      OneRelayStep(s, step);
      assert RelayOk(s, s.relays[0]);
      ExactAfterOtherStep(s, step);
  }

  lemma {:induction false} ExactRun(s: State, steps: seq<Step>)
    requires Exact(s) && IsRun(s, steps)
    ensures Exact(After(s, steps))
    decreases |steps|
  {
    if steps == [] {
    } else {
      ExactStep(s, steps[0]);
      ExactRun(Next(s, steps[0]), steps[1..]);
    }
  }

  /** With one relay and one recoverer, after every run: the claims of a message
      are its retries plus one while it is PROCESSING or PUBLISHED; it has been
      dispatched at most `maxRetries` times; and it has been written at most
      `2 * maxRetries` times since it was submitted. */
  lemma OneRelayOneRecovererIsExact(s: State, steps: seq<Step>)
    requires Initial(s) && |s.relays| == 1 && |s.recoverers| == 1 && IsRun(s, steps)
    ensures var s' := After(s, steps);
      forall id :: id in s'.store ==>
        var m := s'.store[id];
        && Count(s'.claims, id) == m.retryCount + (if m.status == Processing || m.status == Published then 1 else 0)
        && Count(s'.calls, id) <= Count(s'.claims, id) <= m.maxRetries
        && Count(s'.writes, id) <= 2 * m.maxRetries
  {
    OneRelayInitially(s);
    assert s.recoverers[0] in s.recoverers;
    ExactRun(s, steps);
    var s' := After(s, steps);
    forall id | id in s'.store
      ensures Count(s'.claims, id) == ClaimsOf(s'.store[id])
      ensures Count(s'.calls, id) <= Count(s'.claims, id) <= s'.store[id].maxRetries
      ensures Count(s'.writes, id) <= 2 * s'.store[id].maxRetries
    {
      assert Ledger(s', id) && MessageOk(s', s'.store[id]);
    }
  }

  /* ---- building runs ---- */

  lemma {:induction false} RunThenStep(s: State, steps: seq<Step>, step: Step)
    requires IsRun(s, steps) && Enabled(After(s, steps), step)
    ensures IsRun(s, steps + [step]) && After(s, steps + [step]) == Next(After(s, steps), step)
    decreases |steps|
  {
    if steps == [] {
      assert [step][1..] == [];
    } else {
      RunThenStep(Next(s, steps[0]), steps[1..], step);
      assert (steps + [step])[1..] == steps[1..] + [step];
    }
  }

  lemma FindsTheOnlyMessage(store: Store, m: OutboxMessage, c: Criteria)
    requires store == map[m.messageId := m] && Matches(m, c)
    ensures IsFindResult(store, c, [m])
  {
    assert m in [m];
  }

  function Start(relays: nat, recoverers: nat): State {
    State(map[], seq(relays, _ => Idle), seq(recoverers, _ => Resting), map[], map[], map[], map[])
  }

  ghost predicate Reachable(start: State, s: State) {
    exists steps :: IsRun(start, steps) && After(start, steps) == s
  }

  lemma ReachNext(start: State, s: State, step: Step)
    requires Reachable(start, s) && Enabled(s, step)
    ensures Reachable(start, Next(s, step))
  {
    var steps :| IsRun(start, steps) && After(start, steps) == s;
    RunThenStep(start, steps, step);
  }

  lemma ReachSubmitted(start: State, m: OutboxMessage)
    requires Enabled(start, Submit(m))
    ensures Reachable(start, Next(start, Submit(m)))
  {
    assert IsRun(start, []) && After(start, []) == start;
    ReachNext(start, start, Submit(m));
  }

  lemma ClaimHead(start: State, s: State, p: nat, todo: seq<OutboxMessage>, now: int) returns (s': State)
    requires Reachable(start, s) && p < |s.relays| && s.relays[p] == Listed(todo) && todo != []
    ensures Reachable(start, s')
    ensures s'.relays == s.relays[p := Claimed(todo[0].MarkProcessing(now), todo[1..])]
    ensures s'.recoverers == s.recoverers && s'.calls == s.calls
    ensures s'.store == Save(s.store, todo[0].MarkProcessing(now))
  {
    s' := Next(s, RelayClaim(p, now));
    ReachNext(start, s, RelayClaim(p, now));
  }

  lemma DispatchClaimed(start: State, s: State, p: nat, m: OutboxMessage, todo: seq<OutboxMessage>, ok: bool)
    returns (s': State)
    requires Reachable(start, s) && p < |s.relays| && s.relays[p] == Claimed(m, todo)
    ensures Reachable(start, s') && s'.recoverers == s.recoverers && s'.store == s.store
    ensures s'.calls == if IsCalled(m) then Bump(s.calls, m.messageId) else s.calls
    ensures s'.relays == s.relays[p := if Delivers(m, ok) then Dispatched(m, todo) else Listed(todo)]
  {
    s' := Next(s, RelayDispatch(p, ok));
    ReachNext(start, s, RelayDispatch(p, ok));
  }

  lemma PublishDispatched(start: State, s: State, p: nat, m: OutboxMessage, todo: seq<OutboxMessage>, now: int)
    returns (s': State)
    requires Reachable(start, s) && p < |s.relays| && s.relays[p] == Dispatched(m, todo)
    requires StatusIs(s.store, m.messageId, Processing)
    ensures Reachable(start, s') && s'.recoverers == s.recoverers
    ensures s'.store == Save(s.store, m.MarkPublished(now)) && s'.relays == s.relays[p := Listed(todo)]
  {
    s' := Next(s, RelayPublish(p, now));
    ReachNext(start, s, RelayPublish(p, now));
  }
}
