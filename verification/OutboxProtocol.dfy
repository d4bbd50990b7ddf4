/** The outbox protocol as a transition system: any number of relays and of
    zombie recoverers run over one collection, interleaved at every store
    operation and every dispatch call. A process may stop at any point, a
    dispatch or a write may fail, and clock readings are arbitrary. */
module OutboxProtocol {
  import opened Domain
  import opened OutboxStore

  /** A relay between two of its operations: the snapshots not handled yet and
      the message in flight. */
  datatype Relay =
    | Idle
    | Listed(todo: seq<OutboxMessage>)
    | Claimed(msg: OutboxMessage, todo: seq<OutboxMessage>)
    | Dispatched(msg: OutboxMessage, todo: seq<OutboxMessage>)

  datatype Recoverer = Resting | Recovering(zombies: seq<OutboxMessage>)

  type Counter = map<string, nat>

  function Count(c: Counter, id: string): nat {
    if id in c then c[id] else 0
  }

  function Bump(c: Counter, id: string): Counter {
    c[id := Count(c, id) + 1]
  }

  /** `claims`, `calls`, `delivered` and `writes` record the history: claims
      saved, dispatch calls made, dispatch calls that returned normally, and
      writes to a message after its submission. */
  datatype State = State(
    store: Store, relays: seq<Relay>, recoverers: seq<Recoverer>,
    claims: Counter, calls: Counter, delivered: Counter, writes: Counter)

  datatype Step =
    | Submit(msg: OutboxMessage)
    | RelayList(p: nat, found: seq<OutboxMessage>, limit: nat)
    | RelayClaim(p: nat, now: int)
    | RelayDispatch(p: nat, ok: bool)
    | RelayPublish(p: nat, now: int)
    | RelayPublishError(p: nat)
    | RelayStop(p: nat)
    | RecoverList(q: nat, zombies: seq<OutboxMessage>, cutoff: int, limit: nat)
    | RecoverWrite(q: nat, now: int)
    | RecoverError(q: nat)
    | RecoverStop(q: nat)

  ghost predicate Enabled(s: State, step: Step) {
    match step
    case Submit(m) =>
      m.messageId !in s.store && m.status == Pending && m.retryCount == 0 && 0 < m.maxRetries
    case RelayList(p, found, limit) =>
      p < |s.relays| && s.relays[p].Idle? && IsFindResult(s.store, Criteria(Pending, None, limit), found)
    case RelayClaim(p, _) => p < |s.relays| && s.relays[p].Listed? && s.relays[p].todo != []
    case RelayDispatch(p, _) => p < |s.relays| && s.relays[p].Claimed?
    case RelayPublish(p, _) => p < |s.relays| && s.relays[p].Dispatched?
    case RelayPublishError(p) => p < |s.relays| && s.relays[p].Dispatched?
    case RelayStop(p) => p < |s.relays|
    case RecoverList(q, zombies, cutoff, limit) =>
      q < |s.recoverers| && s.recoverers[q].Resting? &&
      IsFindResult(s.store, Criteria(Processing, Some(cutoff), limit), zombies)
    case RecoverWrite(q, _) => q < |s.recoverers| && s.recoverers[q].Recovering? && s.recoverers[q].zombies != []
    case RecoverError(q) => q < |s.recoverers| && s.recoverers[q].Recovering? && s.recoverers[q].zombies != []
    case RecoverStop(q) => q < |s.recoverers|
  }

  /** The message a recoverer tries to write for the zombie `m`. */
  function Recovered(m: OutboxMessage, now: int): OutboxMessage {
    var m' := m.WithRetryIncremented(now);
    if m'.IsRetriable() then m'.BackToPending(now) else m'.MarkFailed(now)
  }

  function WithRelay(s: State, p: nat, r: Relay): State
    requires p < |s.relays|
  {
    s.(relays := s.relays[p := r])
  }

  function WithRecoverer(s: State, q: nat, r: Recoverer): State
    requires q < |s.recoverers|
  {
    s.(recoverers := s.recoverers[q := r])
  }

  /** A compare-and-set against PROCESSING, counted when it goes through. */
  function CasProcessing(s: State, m: OutboxMessage): State {
    if StatusIs(s.store, m.messageId, Processing)
    then s.(store := Save(s.store, m), writes := Bump(s.writes, m.messageId))
    else s
  }

  /** The unconditional save that claims a message. */
  function Claim(s: State, m: OutboxMessage): State {
    s.(store := Save(s.store, m), claims := Bump(s.claims, m.messageId), writes := Bump(s.writes, m.messageId))
  }

  /** Does the relay reach `mark_published` for this message? Only ANALYZE
      messages are dispatched; a missing task id or a failing call leaves the
      message PROCESSING. */
  predicate Delivers(m: OutboxMessage, ok: bool) {
    m.messageType != Analyze || (m.taskId.Some? && ok)
  }

  predicate IsCalled(m: OutboxMessage) {
    m.messageType == Analyze && m.taskId.Some?
  }

  /** One dispatch attempt. */
  function Dispatch(s: State, p: nat, ok: bool): State
    requires p < |s.relays| && s.relays[p].Claimed?
  {
    var m, todo := s.relays[p].msg, s.relays[p].todo;
    s.(relays := s.relays[p := if Delivers(m, ok) then Dispatched(m, todo) else Listed(todo)],
       calls := if IsCalled(m) then Bump(s.calls, m.messageId) else s.calls,
       delivered := if IsCalled(m) && ok then Bump(s.delivered, m.messageId) else s.delivered)
  }

  ghost function Next(s: State, step: Step): State
    requires Enabled(s, step)
  {
    match step
    case Submit(m) => s.(store := Save(s.store, m))
    case RelayList(p, found, _) => WithRelay(s, p, Listed(found))
    case RelayClaim(p, now) =>
      var m := s.relays[p].todo[0].MarkProcessing(now);
      WithRelay(Claim(s, m), p, Claimed(m, s.relays[p].todo[1..]))
    case RelayDispatch(p, ok) => Dispatch(s, p, ok)
    case RelayPublish(p, now) =>
      WithRelay(CasProcessing(s, s.relays[p].msg.MarkPublished(now)), p, Listed(s.relays[p].todo))
    case RelayPublishError(p) => WithRelay(s, p, Listed(s.relays[p].todo))
    case RelayStop(p) => WithRelay(s, p, Idle)
    case RecoverList(q, zombies, _, _) => WithRecoverer(s, q, Recovering(zombies))
    case RecoverWrite(q, now) =>
      var zombies := s.recoverers[q].zombies;
      WithRecoverer(CasProcessing(s, Recovered(zombies[0], now)), q, Recovering(zombies[1..]))
    case RecoverError(q) => WithRecoverer(s, q, Recovering(s.recoverers[q].zombies[1..]))
    case RecoverStop(q) => WithRecoverer(s, q, Resting)
  }

  ghost predicate Initial(s: State) {
    && s.store == map[]
    && (forall r :: r in s.relays ==> r == Idle)
    && (forall r :: r in s.recoverers ==> r == Resting)
    && s.claims == s.calls == s.delivered == s.writes == map[]
  }

  /** `steps` can be taken one after the other from `s`. */
  ghost predicate IsRun(s: State, steps: seq<Step>)
    decreases |steps|
  {
    steps == [] || (Enabled(s, steps[0]) && IsRun(Next(s, steps[0]), steps[1..]))
  }

  ghost function After(s: State, steps: seq<Step>): State
    requires IsRun(s, steps)
    decreases |steps|
  {
    if steps == [] then s else After(Next(s, steps[0]), steps[1..])
  }

  /* ---- any number of relays and recoverers ---- */

  /** The retry bound of a message in each status. */
  predicate Bounded(m: OutboxMessage) {
    if m.status == Failed then m.retryCount == m.maxRetries else m.retryCount < m.maxRetries
  }

  /** The parts of a message that no operation changes. */
  predicate SameEnvelope(a: OutboxMessage, b: OutboxMessage) {
    a.messageId == b.messageId && a.messageType == b.messageType && a.taskId == b.taskId &&
    a.maxRetries == b.maxRetries && a.createdAt == b.createdAt
  }

  ghost predicate KnownCopy(s: State, m: OutboxMessage, status: OutboxStatus) {
    && m.messageId in s.store
    && SameEnvelope(m, s.store[m.messageId])
    && m.status == status
    && Bounded(m)
  }

  ghost predicate RelayOk(s: State, r: Relay) {
    && (!r.Idle? ==> forall m :: m in r.todo ==> KnownCopy(s, m, Pending))
    && (r.Claimed? || r.Dispatched? ==> KnownCopy(s, r.msg, Processing))
    && (r.Dispatched? && r.msg.messageType == Analyze ==> Count(s.delivered, r.msg.messageId) >= 1)
  }

  ghost predicate RecovererOk(s: State, r: Recoverer) {
    r.Recovering? ==> forall m :: m in r.zombies ==> KnownCopy(s, m, Processing)
  }

  ghost predicate MessageOk(s: State, m: OutboxMessage) {
    && Bounded(m)
    && (m.status == Published && m.messageType == Analyze ==> Count(s.delivered, m.messageId) >= 1)
  }

  /** Holds with any number of processes. */
  ghost predicate Safe(s: State) {
    && WellKeyed(s.store)
    && (forall id :: id in s.store ==> MessageOk(s, s.store[id]))
    && (forall r :: r in s.relays ==> RelayOk(s, r))
    && (forall r :: r in s.recoverers ==> RecovererOk(s, r))
  }

  /** What every step leaves standing: no message disappears, envelopes stay,
      deliveries are never forgotten. */
  ghost predicate Keeps(s: State, s': State) {
    && (forall id :: id in s.store ==> id in s'.store && SameEnvelope(s.store[id], s'.store[id]))
    && (forall id :: Count(s.delivered, id) <= Count(s'.delivered, id))
    && |s'.relays| == |s.relays| && |s'.recoverers| == |s.recoverers|
  }

  lemma HeadIsKnown(s: State, p: nat)
    requires Safe(s) && p < |s.relays| && s.relays[p].Listed? && s.relays[p].todo != []
    ensures KnownCopy(s, s.relays[p].todo[0], Pending)
  {
    assert RelayOk(s, s.relays[p]);
  }

  lemma InFlightIsKnown(s: State, p: nat)
    requires Safe(s) && p < |s.relays| && (s.relays[p].Claimed? || s.relays[p].Dispatched?)
    ensures RelayOk(s, s.relays[p]) && KnownCopy(s, s.relays[p].msg, Processing)
  {
  }

  lemma ZombieIsKnown(s: State, q: nat)
    requires Safe(s) && q < |s.recoverers| && s.recoverers[q].Recovering? && s.recoverers[q].zombies != []
    ensures KnownCopy(s, s.recoverers[q].zombies[0], Processing)
  {
    assert RecovererOk(s, s.recoverers[q]);
  }

  /** The step touches at most the stored message `m`, and one process. */
  ghost predicate Touches(s: State, s': State, m: OutboxMessage) {
    && Keeps(s, s')
    && (s'.store == s.store || (s'.store == Save(s.store, m) && MessageOk(s', m)))
  }

  lemma SafeMessages(s: State, s': State, m: OutboxMessage)
    requires Safe(s) && Touches(s, s', m)
    ensures WellKeyed(s'.store)
    ensures forall id :: id in s'.store ==> MessageOk(s', s'.store[id])
  {
    forall id | id in s'.store ensures MessageOk(s', s'.store[id]) {
      if id != m.messageId {
        assert MessageOk(s, s.store[id]);
      }
    }
  }

  lemma ProcessesStayOk(s: State, s': State)
    requires Safe(s) && Keeps(s, s')
    ensures forall r :: r in s.relays ==> RelayOk(s', r)
    ensures forall r :: r in s.recoverers ==> RecovererOk(s', r)
  {
    forall r | r in s.relays ensures RelayOk(s', r) {
      assert RelayOk(s, r);
    }
    forall r | r in s.recoverers ensures RecovererOk(s', r) {
      assert RecovererOk(s, r);
    }
  }

  lemma SafeAfterRelay(s: State, s': State, p: nat, m: OutboxMessage)
    requires Safe(s) && Touches(s, s', m)
    requires p < |s.relays| && s'.relays == s.relays[p := s'.relays[p]] && s'.recoverers == s.recoverers
    requires RelayOk(s', s'.relays[p])
    ensures Safe(s')
  {
    SafeMessages(s, s', m);
    ProcessesStayOk(s, s');
  }

  lemma SafeAfterRecoverer(s: State, s': State, q: nat, m: OutboxMessage)
    requires Safe(s) && Touches(s, s', m)
    requires q < |s.recoverers| && s'.recoverers == s.recoverers[q := s'.recoverers[q]] && s'.relays == s.relays
    requires RecovererOk(s', s'.recoverers[q])
    ensures Safe(s')
  {
    SafeMessages(s, s', m);
    ProcessesStayOk(s, s');
  }

  lemma SafeStep(s: State, step: Step)
    requires Safe(s) && Enabled(s, step)
    ensures Safe(Next(s, step)) && Keeps(s, Next(s, step))
  {
    match step
    case Submit(m) => SafeSubmit(s, m);
    case RelayList(p, found, limit) => SafeList(s, p, found, limit);
    case RelayClaim(p, now) => SafeClaim(s, p, now);
    case RelayDispatch(p, ok) => SafeDispatch(s, p, ok);
    case RelayPublish(p, now) => SafePublish(s, p, now);
    case RelayPublishError(p) => SafePublishError(s, p);
    case RelayStop(p) => ProcessesStayOk(s, Next(s, step));
    case RecoverList(q, zombies, cutoff, limit) => SafeRecoverList(s, q, zombies, cutoff, limit);
    case RecoverWrite(q, now) => SafeRecoverWrite(s, q, now);
    case RecoverError(q) => SafeRecoverError(s, q);
    case RecoverStop(q) => ProcessesStayOk(s, Next(s, step));
  }

  lemma SafeSubmit(s: State, m: OutboxMessage)
    requires Safe(s) && Enabled(s, Submit(m))
    ensures Safe(Next(s, Submit(m))) && Keeps(s, Next(s, Submit(m)))
  {
    var s' := Next(s, Submit(m));
    SafeMessages(s, s', m);
    ProcessesStayOk(s, s');
  }

  lemma SafeList(s: State, p: nat, found: seq<OutboxMessage>, limit: nat)
    requires Safe(s) && Enabled(s, RelayList(p, found, limit))
    ensures Safe(Next(s, RelayList(p, found, limit))) && Keeps(s, Next(s, RelayList(p, found, limit)))
  {
    var s' := Next(s, RelayList(p, found, limit));
    forall m | m in found ensures KnownCopy(s', m, Pending) {
      assert MessageOk(s, s.store[m.messageId]);
    }
    ProcessesStayOk(s, s');
  }

  lemma SafeRecoverList(s: State, q: nat, zombies: seq<OutboxMessage>, cutoff: int, limit: nat)
    requires Safe(s) && Enabled(s, RecoverList(q, zombies, cutoff, limit))
    ensures Safe(Next(s, RecoverList(q, zombies, cutoff, limit)))
    ensures Keeps(s, Next(s, RecoverList(q, zombies, cutoff, limit)))
  {
    var s' := Next(s, RecoverList(q, zombies, cutoff, limit));
    forall m | m in zombies ensures KnownCopy(s', m, Processing) {
      assert MessageOk(s, s.store[m.messageId]);
    }
    ProcessesStayOk(s, s');
  }

  lemma SafeClaim(s: State, p: nat, now: int)
    requires Safe(s) && Enabled(s, RelayClaim(p, now))
    ensures Safe(Next(s, RelayClaim(p, now))) && Keeps(s, Next(s, RelayClaim(p, now)))
  {
    var s' := Next(s, RelayClaim(p, now));
    HeadIsKnown(s, p);
    assert RelayOk(s, s.relays[p]);
    assert Keeps(s, s');
    assert forall x :: x in s'.relays[p].todo ==> x in s.relays[p].todo;
    SafeAfterRelay(s, s', p, s'.relays[p].msg);
  }

  lemma SafeDispatch(s: State, p: nat, ok: bool)
    requires Safe(s) && Enabled(s, RelayDispatch(p, ok))
    ensures Safe(Next(s, RelayDispatch(p, ok))) && Keeps(s, Next(s, RelayDispatch(p, ok)))
  {
    var s' := Next(s, RelayDispatch(p, ok));
    InFlightIsKnown(s, p);
    assert Keeps(s, s');
    SafeAfterRelay(s, s', p, s.relays[p].msg);
  }

  lemma CasTouches(s: State, m: OutboxMessage)
    requires WellKeyed(s.store) && m.messageId in s.store && SameEnvelope(m, s.store[m.messageId]) && MessageOk(s, m)
    ensures Touches(s, CasProcessing(s, m), m)
    ensures CasProcessing(s, m).relays == s.relays && CasProcessing(s, m).recoverers == s.recoverers
  {
  }

  lemma SafePublish(s: State, p: nat, now: int)
    requires Safe(s) && Enabled(s, RelayPublish(p, now))
    ensures Safe(Next(s, RelayPublish(p, now))) && Keeps(s, Next(s, RelayPublish(p, now)))
  {
    var s', m := Next(s, RelayPublish(p, now)), s.relays[p].msg.MarkPublished(now);
    InFlightIsKnown(s, p);
    CasTouches(s, m);
    hide CasProcessing, RecovererOk;
    assert Touches(s, s', m);
    SafeAfterRelay(s, s', p, m);
  }

  lemma SafePublishError(s: State, p: nat)
    requires Safe(s) && Enabled(s, RelayPublishError(p))
    ensures Safe(Next(s, RelayPublishError(p))) && Keeps(s, Next(s, RelayPublishError(p)))
  {
    InFlightIsKnown(s, p);
    SafeAfterRelay(s, Next(s, RelayPublishError(p)), p, s.relays[p].msg);
  }

  /** Recovering a known copy keeps its envelope and respects the bound. */
  lemma RecoveredIsBounded(m: OutboxMessage, now: int)
    requires Bounded(m) && m.status == Processing
    ensures Bounded(Recovered(m, now)) && SameEnvelope(Recovered(m, now), m)
    ensures Recovered(m, now).status == Pending || Recovered(m, now).status == Failed
  {
  }

  lemma SafeRecoverWrite(s: State, q: nat, now: int)
    requires Safe(s) && Enabled(s, RecoverWrite(q, now))
    ensures Safe(Next(s, RecoverWrite(q, now))) && Keeps(s, Next(s, RecoverWrite(q, now)))
  {
    var s', zombies := Next(s, RecoverWrite(q, now)), s.recoverers[q].zombies;
    ZombieIsKnown(s, q);
    RecoveredIsBounded(zombies[0], now);
    CasTouches(s, Recovered(zombies[0], now));
    assert RecovererOk(s, s.recoverers[q]);
    hide CasProcessing, RelayOk, Recovered, Bounded;
    assert Touches(s, s', Recovered(zombies[0], now));
    assert forall x :: x in s'.recoverers[q].zombies ==> x in zombies;
    SafeAfterRecoverer(s, s', q, Recovered(zombies[0], now));
  }

  lemma SafeRecoverError(s: State, q: nat)
    requires Safe(s) && Enabled(s, RecoverError(q))
    ensures Safe(Next(s, RecoverError(q))) && Keeps(s, Next(s, RecoverError(q)))
  {
    ZombieIsKnown(s, q);
    assert RecovererOk(s, s.recoverers[q]);
    var s' := Next(s, RecoverError(q));
    assert forall x :: x in s'.recoverers[q].zombies ==> x in s.recoverers[q].zombies;
    SafeAfterRecoverer(s, s', q, s.recoverers[q].zombies[0]);
  }

  lemma {:induction false} SafeRun(s: State, steps: seq<Step>)
    requires Safe(s) && IsRun(s, steps)
    ensures Safe(After(s, steps)) && Keeps(s, After(s, steps))
    decreases |steps|
  {
    if steps == [] {
    } else {
      var s1 := Next(s, steps[0]);
      SafeStep(s, steps[0]);
      SafeRun(s1, steps[1..]);
      KeepsTransitive(s, s1, After(s, steps));
    }
  }

  lemma KeepsTransitive(s0: State, s1: State, s2: State)
    requires Keeps(s0, s1) && Keeps(s1, s2)
    ensures Keeps(s0, s2)
  {
    forall id ensures Count(s0.delivered, id) <= Count(s2.delivered, id) {
      assert Count(s0.delivered, id) <= Count(s1.delivered, id) <= Count(s2.delivered, id);
    }
  }

  /** Whatever the number of relays and recoverers, after every run: a stored
      ANALYZE message that is PUBLISHED has been dispatched, FAILED messages
      have used up their retries and no other message has, stored or in
      flight. */
  lemma AnyNumberOfProcesses(s: State, steps: seq<Step>)
    requires Initial(s) && IsRun(s, steps)
    ensures var s' := After(s, steps);
      && (forall id :: StatusIs(s'.store, id, Published) && s'.store[id].messageType == Analyze ==>
            Count(s'.delivered, id) >= 1)
      && (forall id :: id in s'.store ==>
            if s'.store[id].status == Failed then s'.store[id].retryCount == s'.store[id].maxRetries
            else s'.store[id].retryCount < s'.store[id].maxRetries)
      && (forall r, m :: r in s'.relays && !r.Idle? && m in r.todo ==> m.retryCount < m.maxRetries)
      && (forall r :: r in s'.relays && (r.Claimed? || r.Dispatched?) ==> r.msg.retryCount < r.msg.maxRetries)
      && (forall r, m :: r in s'.recoverers && r.Recovering? && m in r.zombies ==> m.retryCount < m.maxRetries)
  {
    var s' := After(s, steps);
    SafeRun(s, steps);
    forall id | id in s'.store ensures MessageOk(s', s'.store[id]) {}
    forall r, m | r in s'.relays && !r.Idle? && m in r.todo ensures m.retryCount < m.maxRetries {
      assert RelayOk(s', r) && KnownCopy(s', m, Pending);
    }
    forall r | r in s'.relays && (r.Claimed? || r.Dispatched?) ensures r.msg.retryCount < r.msg.maxRetries {
      assert RelayOk(s', r);
    }
    forall r, m | r in s'.recoverers && r.Recovering? && m in r.zombies ensures m.retryCount < m.maxRetries {
      assert RecovererOk(s', r) && KnownCopy(s', m, Processing);
    }
  }

  /** The one way out of PUBLISHED or FAILED, for any number of processes: a
      relay claims a snapshot it took before the message got there. */
  lemma TerminalIsLeftExactlyByStaleClaims(s: State, step: Step, id: string)
    requires Safe(s) && Enabled(s, step)
    requires id in s.store && s.store[id].IsTerminal()
    ensures id in Next(s, step).store
    ensures !Next(s, step).store[id].IsTerminal() <==>
      step.RelayClaim? && s.relays[step.p].todo[0].messageId == id
    ensures Next(s, step).store[id].IsTerminal() ==> Next(s, step).store[id] == s.store[id]
  {
    match step
    case RelayClaim(p, _) => HeadIsKnown(s, p);
    case RelayPublish(p, _) => InFlightIsKnown(s, p);
    case RecoverWrite(q, _) => ZombieIsKnown(s, q);
    case _ =>
  }

  /* ---- the history ---- */

  /** The message that the next operation of this step is about. */
  ghost predicate IsAbout(s: State, step: Step, id: string)
    requires Enabled(s, step)
  {
    match step
    case RelayClaim(p, _) => s.relays[p].todo[0].messageId == id
    case RelayDispatch(p, _) => s.relays[p].msg.messageId == id
    case RelayPublish(p, _) => s.relays[p].msg.messageId == id
    case RecoverWrite(q, _) => s.recoverers[q].zombies[0].messageId == id
    case _ => false
  }

  /** A claim counts as one, for its message. */
  lemma ClaimsAreExact(s: State, step: Step, id: string)
    requires Enabled(s, step)
    ensures Count(Next(s, step).claims, id) ==
      Count(s.claims, id) + if step.RelayClaim? && IsAbout(s, step, id) then 1 else 0
  {
    hide IsFindResult, Recovered, OutboxMessage.MarkPublished;
  }

  /** So does a dispatch call for an ANALYZE message with a task id; as a delivery
      too if it returns. */
  lemma CallsAreExact(s: State, step: Step, id: string)
    requires Enabled(s, step)
    ensures var calls := step.RelayDispatch? && IsAbout(s, step, id)
                         && s.relays[step.p].msg.messageType == Analyze && s.relays[step.p].msg.taskId != None;
      && Count(Next(s, step).calls, id) == Count(s.calls, id) + (if calls then 1 else 0)
      && Count(Next(s, step).delivered, id) == Count(s.delivered, id) + (if calls && step.ok then 1 else 0)
  {
    hide IsFindResult, Recovered, OutboxMessage.MarkPublished, OutboxMessage.MarkProcessing;
    match step
    case RelayDispatch(p, ok) =>
    case RelayPublish(p, now) => CasCallsNothing(s, s.relays[p].msg.MarkPublished(now));
    case RecoverWrite(q, now) => CasCallsNothing(s, Recovered(s.recoverers[q].zombies[0], now));
    case _ =>
  }

  lemma CasCallsNothing(s: State, m: OutboxMessage)
    ensures CasProcessing(s, m).calls == s.calls && CasProcessing(s, m).delivered == s.delivered
  {
  }

  /** A stored message changes only in a write that is counted. */
  lemma WritesAreExact(s: State, step: Step, id: string)
    requires Enabled(s, step) && !step.Submit?
    ensures var s' := Next(s, step);
      var writes := IsAbout(s, step, id) && !step.RelayDispatch?
                    && (step.RelayClaim? || StatusIs(s.store, id, Processing));
      && Count(s'.writes, id) == Count(s.writes, id) + (if writes then 1 else 0)
      && (id in s.store ==> id in s'.store && (s'.store[id] == s.store[id] || writes))
  {
    hide IsFindResult, Recovered, Dispatch;
    match step
    case RelayClaim(p, _) =>
    case RelayPublish(p, _) =>
    case RecoverWrite(q, now) => SameIdRecovered(s.recoverers[q].zombies[0], now);
    case RelayDispatch(p, ok) => DispatchWritesNothing(s, p, ok);
    case _ =>
  }

  lemma SameIdRecovered(m: OutboxMessage, now: int)
    ensures Recovered(m, now).messageId == m.messageId
  {
  }

  lemma DispatchWritesNothing(s: State, p: nat, ok: bool)
    requires p < |s.relays| && s.relays[p].Claimed?
    ensures Dispatch(s, p, ok).store == s.store && Dispatch(s, p, ok).writes == s.writes
  {
  }

  /* ---- what the processes list and recover ---- */

  /** Relays list PENDING messages, and recoverers PROCESSING ones that are older
      than their cutoff, as they are stored. */
  lemma ListedAsStored(s: State, step: Step)
    requires Enabled(s, step)
    ensures step.RelayList? ==> forall m :: m in step.found ==>
      m.messageId in s.store && s.store[m.messageId] == m && m.status == Pending
    ensures step.RecoverList? ==> forall m :: m in step.zombies ==>
      m.messageId in s.store && s.store[m.messageId] == m && m.status == Processing && m.updatedAt < step.cutoff
  {
  }

  predicate CutoffsUpTo(steps: seq<Step>, cutoff: int) {
    forall step :: step in steps && step.RecoverList? ==> step.cutoff <= cutoff
  }

  /** All snapshots the recoverers hold were PROCESSING and older than `cutoff`. */
  ghost predicate HoldOldOnes(s: State, cutoff: int) {
    forall r, m :: r in s.recoverers && r.Recovering? && m in r.zombies ==>
      m.status == Processing && m.updatedAt < cutoff
  }

  lemma HoldOldOnesStep(s: State, step: Step, cutoff: int)
    requires Enabled(s, step) && HoldOldOnes(s, cutoff) && (step.RecoverList? ==> step.cutoff <= cutoff)
    ensures HoldOldOnes(Next(s, step), cutoff)
  {
    ListedAsStored(s, step);
    hide IsFindResult, CasProcessing, Recovered;
    if step.RecoverWrite? || step.RecoverError? {
      var q := step.q;
      assert s.recoverers[q] in s.recoverers;
      assert forall m :: m in s.recoverers[q].zombies[1..] ==> m in s.recoverers[q].zombies;
    }
  }

  lemma {:induction false} HoldOldOnesRun(s: State, steps: seq<Step>, cutoff: int)
    requires IsRun(s, steps) && HoldOldOnes(s, cutoff) && CutoffsUpTo(steps, cutoff)
    ensures HoldOldOnes(After(s, steps), cutoff)
    decreases |steps|
  {
    if steps != [] {
      HoldOldOnesStep(s, steps[0], cutoff);
      HoldOldOnesRun(Next(s, steps[0]), steps[1..], cutoff);
    }
  }

  /** In every run, a recoverer changes a message only if that message is
      PROCESSING now, and was PROCESSING and older than the cutoff when listed. */
  lemma YoungMessagesAreSpared(start: State, steps: seq<Step>, step: Step, cutoff: int, id: string)
    requires Initial(start) && IsRun(start, steps) && CutoffsUpTo(steps, cutoff)
    requires var s := After(start, steps);
      Enabled(s, step) && (step.RecoverList? || step.RecoverWrite? || step.RecoverError? || step.RecoverStop?)
    ensures var s, s' := After(start, steps), Next(After(start, steps), step);
      id in s.store && !(id in s'.store && s'.store[id] == s.store[id]) ==>
        && step.RecoverWrite? && s.store[id].status == Processing
        && exists m :: m in s.recoverers[step.q].zombies && m.messageId == id &&
             m.status == Processing && m.updatedAt < cutoff
  {
    HoldOldOnesRun(start, steps, cutoff);
    hide IsRun, IsFindResult;
    var s := After(start, steps);
    if step.RecoverWrite? {
      assert s.recoverers[step.q] in s.recoverers;
      assert s.recoverers[step.q].zombies[0] in s.recoverers[step.q].zombies;
    }
  }
}
