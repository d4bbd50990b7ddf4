/** How often a message is dispatched, for any number of relays and recoverers:
    the books of claims, retries and dispatch calls over whole runs. */
module OutboxAccounting {
  import opened Domain
  import opened OutboxStore
  import opened OutboxProtocol
  import opened OutboxRuns

  /* ---- every dispatch call follows a claim of its own ---- */

  /** Relays that have claimed the message and not dispatched it yet. */
  function Waiting(relays: seq<Relay>, id: string): nat {
    if relays == [] then 0
    else Waiting(relays[..|relays| - 1], id) + (if AwaitsDispatch(relays[|relays| - 1], id) then 1 else 0)
  }

  lemma {:induction false} WaitingAfter(relays: seq<Relay>, p: nat, r: Relay, id: string)
    requires p < |relays|
    ensures Waiting(relays[p := r], id) ==
      Waiting(relays, id) - (if AwaitsDispatch(relays[p], id) then 1 else 0) + (if AwaitsDispatch(r, id) then 1 else 0)
    decreases |relays|
  {
    var n := |relays| - 1;
    if p == n {
      assert relays[p := r][..n] == relays[..n];
    } else {
      WaitingAfter(relays[..n], p, r, id);
      assert relays[p := r][..n] == relays[..n][p := r];
    }
  }

  ghost predicate CallsCovered(s: State) {
    forall id :: Count(s.calls, id) + Waiting(s.relays, id) <= Count(s.claims, id)
  }

  /** Only stored messages have been claimed. */
  ghost predicate ClaimsAreStored(s: State) {
    forall id :: Count(s.claims, id) > 0 ==> id in s.store
  }

  /** The relay that the step moves, if it moves one. */
  function RelayOf(step: Step): Option<nat> {
    match step
    case RelayList(p, _, _) => Some(p)
    case RelayClaim(p, _) => Some(p)
    case RelayDispatch(p, _) => Some(p)
    case RelayPublish(p, _) => Some(p)
    case RelayPublishError(p) => Some(p)
    case RelayStop(p) => Some(p)
    case _ => None
  }

  lemma OneRelayMoves(s: State, step: Step)
    requires Enabled(s, step)
    ensures var s' := Next(s, step);
      match RelayOf(step)
      case None => s'.relays == s.relays
      case Some(p) => p < |s.relays| && |s'.relays| == |s.relays| && s'.relays == s.relays[p := s'.relays[p]]
  {
    hide IsFindResult;
  }

  predicate IsCalledFor(m: OutboxMessage, id: string) {
    IsCalled(m) && m.messageId == id
  }

  /** The counters that the step moves, and for which message. */
  lemma CountersMove(s: State, step: Step, id: string)
    requires Enabled(s, step)
    ensures var s' := Next(s, step);
      && Count(s'.claims, id) == Count(s.claims, id) +
           (if step.RelayClaim? && s.relays[step.p].todo[0].messageId == id then 1 else 0)
      && Count(s'.calls, id) == Count(s.calls, id) +
           (if step.RelayDispatch? && IsCalledFor(s.relays[step.p].msg, id) then 1 else 0)
  {
    hide IsFindResult;
  }

  lemma CoveredStep(s: State, step: Step)
    requires CallsCovered(s) && Enabled(s, step)
    ensures CallsCovered(Next(s, step))
  {
    var s' := Next(s, step);
    forall id ensures Count(s'.calls, id) + Waiting(s'.relays, id) <= Count(s'.claims, id) {
      CoveredStepFor(s, step, id);
    }
  }

  lemma CoveredStepFor(s: State, step: Step, id: string)
    requires Enabled(s, step) && Count(s.calls, id) + Waiting(s.relays, id) <= Count(s.claims, id)
    ensures var s' := Next(s, step);
      Count(s'.calls, id) + Waiting(s'.relays, id) <= Count(s'.claims, id)
  {
    hide IsFindResult;
    OneRelayMoves(s, step);
    CountersMove(s, step, id);
    if RelayOf(step).Some? {
      var p := RelayOf(step).value;
      WaitingAfter(s.relays, p, Next(s, step).relays[p], id);
    }
  }

  lemma ClaimsAreStoredStep(s: State, step: Step)
    requires Safe(s) && ClaimsAreStored(s) && Enabled(s, step)
    ensures ClaimsAreStored(Next(s, step))
  {
    SafeStep(s, step);
    forall id | Count(Next(s, step).claims, id) > 0 ensures id in Next(s, step).store {
      CountersMove(s, step, id);
      if step.RelayClaim? {
        HeadIsKnown(s, step.p);
      }
    }
  }

  /* ---- claims against retries ---- */

  /** The claims of a message that its stored form does not account for. */
  function Balance(s: State, id: string): int
    requires id in s.store
  {
    Count(s.claims, id) - ClaimsOf(s.store[id])
  }

  /** The snapshot from which the step is about to write a stored message. */
  ghost function WrittenFrom(s: State, step: Step): Option<OutboxMessage>
    requires Enabled(s, step)
  {
    match step
    case RelayClaim(p, _) => Some(s.relays[p].todo[0])
    case RelayPublish(p, _) =>
      if StatusIs(s.store, s.relays[p].msg.messageId, Processing) then Some(s.relays[p].msg) else None
    case RecoverWrite(q, _) =>
      var z := s.recoverers[q].zombies[0];
      if StatusIs(s.store, z.messageId, Processing) then Some(z) else None
    case _ => None
  }

  /** How many retries the snapshot of the step is behind the stored message. */
  ghost function Drift(s: State, step: Step, id: string): int
    requires Enabled(s, step)
  {
    var m := WrittenFrom(s, step);
    if m.Some? && m.value.messageId == id && id in s.store
    then (if step.RelayClaim? then ClaimsOf(s.store[id]) else s.store[id].retryCount) - m.value.retryCount
    else 0
  }

  /** The step overwrites the message from a snapshot with another retry count. */
  ghost predicate IsStaleWrite(s: State, step: Step, id: string)
    requires Enabled(s, step)
  {
    Drift(s, step, id) != 0
  }

  lemma BalanceAfterClaim(s: State, p: nat, now: int, id: string)
    requires Safe(s) && Enabled(s, RelayClaim(p, now)) && id in s.store
    ensures id in Next(s, RelayClaim(p, now)).store
    ensures Balance(Next(s, RelayClaim(p, now)), id) == Balance(s, id) + Drift(s, RelayClaim(p, now), id)
  {
    hide Safe, RelayOk, RecovererOk, MessageOk;
  }

  lemma BalanceAfterCas(s: State, m: OutboxMessage, snapshot: OutboxMessage, id: string)
    requires id in s.store && ClaimsOf(m) == snapshot.retryCount + 1
    ensures id in CasProcessing(s, m).store
    ensures Balance(CasProcessing(s, m), id) == Balance(s, id) +
      if StatusIs(s.store, m.messageId, Processing) && m.messageId == id
      then s.store[id].retryCount - snapshot.retryCount else 0
  {
  }

  lemma BalanceAfterOtherStep(s: State, step: Step, id: string)
    requires Enabled(s, step) && id in s.store
    requires !step.RelayClaim? && !step.RelayPublish? && !step.RecoverWrite?
    ensures var s' := Next(s, step);
      id in s'.store && s'.store[id] == s.store[id] && s'.claims == s.claims
  {
    hide IsFindResult;
  }

  lemma SameBalance(s: State, s': State, id: string)
    requires id in s.store && id in s'.store && s'.store[id] == s.store[id] && s'.claims == s.claims
    ensures Balance(s', id) == Balance(s, id)
  {
  }

  /** The balance moves by the drift of the step. */
  lemma BalanceMovesByDrift(s: State, step: Step, id: string)
    requires Safe(s) && Enabled(s, step) && id in s.store
    ensures id in Next(s, step).store
    ensures Balance(Next(s, step), id) == Balance(s, id) + Drift(s, step, id)
  {
    hide Safe, CasProcessing, Balance;
    match step
    case RelayClaim(p, now) => BalanceAfterClaim(s, p, now, id);
    case RelayPublish(p, now) =>
      var m := s.relays[p].msg;
      BalanceAfterCas(s, m.MarkPublished(now), m, id);
      SameBalance(CasProcessing(s, m.MarkPublished(now)), Next(s, step), id);
    case RecoverWrite(q, now) =>
      var z := s.recoverers[q].zombies[0];
      BalanceAfterCas(s, Recovered(z, now), z, id);
      SameBalance(CasProcessing(s, Recovered(z, now)), Next(s, step), id);
    case _ =>
      BalanceAfterOtherStep(s, step, id);
      SameBalance(s, Next(s, step), id);
  }

  /** A step loses the equation between claims and retries in exactly one way: by
      a write from a snapshot that is out of date. */
  lemma BalanceIsLostExactlyByStaleWrites(s: State, step: Step, id: string)
    requires Safe(s) && Enabled(s, step) && id in s.store
    ensures id in Next(s, step).store
    ensures Balance(Next(s, step), id) == Balance(s, id) <==> !IsStaleWrite(s, step, id)
  {
    hide Safe, Balance, Next, Enabled, Drift;
    BalanceMovesByDrift(s, step, id);
  }

  /** A message arrives with a balance of zero, and no other way. */
  lemma ArrivalIsBalanced(s: State, step: Step, id: string)
    requires Safe(s) && ClaimsAreStored(s) && Enabled(s, step) && id !in s.store && id in Next(s, step).store
    ensures Balance(Next(s, step), id) == 0 && Drift(s, step, id) == 0
  {
    match step
    case Submit(m) =>
    case RelayClaim(p, _) => HeadIsKnown(s, p);
    case RelayPublish(p, _) => InFlightIsKnown(s, p);
    case RecoverWrite(q, _) => ZombieIsKnown(s, q);
    case _ =>
  }

  /* ---- over whole runs ---- */

  ghost function TotalDrift(s: State, steps: seq<Step>, id: string): int
    requires IsRun(s, steps)
    decreases |steps|
  {
    if steps == [] then 0 else Drift(s, steps[0], id) + TotalDrift(Next(s, steps[0]), steps[1..], id)
  }

  /** No step of the run writes the message from an outdated snapshot. */
  ghost predicate NeverStale(s: State, steps: seq<Step>, id: string)
    requires IsRun(s, steps)
    decreases |steps|
  {
    steps == [] || (!IsStaleWrite(s, steps[0], id) && NeverStale(Next(s, steps[0]), steps[1..], id))
  }

  /** The equation holds in every state that the run goes through. */
  ghost predicate AlwaysBalanced(s: State, steps: seq<Step>, id: string)
    requires IsRun(s, steps)
    decreases |steps|
  {
    && (id in s.store ==> Balance(s, id) == 0)
    && (steps == [] || AlwaysBalanced(Next(s, steps[0]), steps[1..], id))
  }

  ghost predicate Booked(s: State) {
    Safe(s) && CallsCovered(s) && ClaimsAreStored(s)
  }

  /** The balance of a message that has not arrived is zero. */
  ghost function BalanceOrZero(s: State, id: string): int {
    if id in s.store then Balance(s, id) else 0
  }

  lemma BookedStep(s: State, step: Step, id: string)
    requires Booked(s) && Enabled(s, step)
    ensures Booked(Next(s, step))
    ensures BalanceOrZero(Next(s, step), id) == BalanceOrZero(s, id) + Drift(s, step, id)
  {
    SafeStep(s, step);
    CoveredStep(s, step);
    ClaimsAreStoredStep(s, step);
    if id in s.store {
      BalanceMovesByDrift(s, step, id);
    } else if id in Next(s, step).store {
      ArrivalIsBalanced(s, step, id);
    }
    hide Safe, CallsCovered, ClaimsAreStored, Next, Enabled;
  }

  lemma {:induction false} BookedRun(s: State, steps: seq<Step>, id: string)
    requires Booked(s) && IsRun(s, steps)
    ensures Booked(After(s, steps))
    ensures BalanceOrZero(After(s, steps), id) == BalanceOrZero(s, id) + TotalDrift(s, steps, id)
    decreases |steps|
  {
    hide Booked, Next, Enabled, Drift, BalanceOrZero;
    if steps == [] {
    } else {
      BookedStep(s, steps[0], id);
      BookedRun(Next(s, steps[0]), steps[1..], id);
    }
  }

  lemma InitiallyBooked(s: State)
    requires Initial(s)
    ensures Booked(s)
    ensures forall id :: BalanceOrZero(s, id) == 0
  {
    forall id ensures Waiting(s.relays, id) == 0 {
      NobodyWaits(s.relays, id);
    }
  }

  lemma {:induction false} NobodyWaits(relays: seq<Relay>, id: string)
    requires forall r :: r in relays ==> r == Idle
    ensures Waiting(relays, id) == 0
    decreases |relays|
  {
    if relays == [] {
    } else {
      var n := |relays| - 1;
      assert relays[n] in relays && forall r :: r in relays[..n] ==> r in relays;
      NobodyWaits(relays[..n], id);
    }
  }

  /** What the status and the retries of a message allow. */
  lemma ClaimsOfIsBounded(s: State, id: string)
    requires Safe(s) && id in s.store
    ensures ClaimsOf(s.store[id]) <= s.store[id].maxRetries
  {
    assert MessageOk(s, s.store[id]);
  }

  /** For any number of processes, after every run: each dispatch call has a
      claim of its own, the claims are the retries plus one while the message is
      PROCESSING or PUBLISHED plus what stale writes have lost, and so a message
      is dispatched at most `maxRetries` times more than stale writes have lost
      retries. */
  lemma DispatchesAreAccounted(s: State, steps: seq<Step>, id: string)
    requires Initial(s) && IsRun(s, steps) && id in After(s, steps).store
    ensures var s' := After(s, steps);
      && Count(s'.calls, id) + Waiting(s'.relays, id) <= Count(s'.claims, id)
      && Count(s'.claims, id) == ClaimsOf(s'.store[id]) + TotalDrift(s, steps, id)
      && Count(s'.calls, id) <= s'.store[id].maxRetries + TotalDrift(s, steps, id)
  {
    InitiallyBooked(s);
    BookedRun(s, steps, id);
    ClaimsOfIsBounded(After(s, steps), id);
    hide Safe, IsRun, After, TotalDrift;
  }

  lemma {:induction false} NeverStaleFrom(s: State, steps: seq<Step>, id: string)
    requires Booked(s) && IsRun(s, steps) && BalanceOrZero(s, id) == 0
    ensures AlwaysBalanced(s, steps, id) <==> NeverStale(s, steps, id)
    ensures NeverStale(s, steps, id) ==> TotalDrift(s, steps, id) == 0
    decreases |steps|
  {
    hide Booked, Next, Enabled, Drift, Balance;
    if steps == [] {
    } else {
      BookedStep(s, steps[0], id);
      var s1 := Next(s, steps[0]);
      if BalanceOrZero(s1, id) == 0 {
        NeverStaleFrom(s1, steps[1..], id);
      } else {
        assert !AlwaysBalanced(s1, steps[1..], id);
      }
    }
  }

  /** For any number of processes, over every run: the equation between claims
      and retries holds throughout if and only if no step writes the message
      from an outdated snapshot; and then the message is dispatched at most
      `maxRetries` times. */
  lemma BalancedExactlyWithoutStaleWrites(s: State, steps: seq<Step>, id: string)
    requires Initial(s) && IsRun(s, steps)
    ensures AlwaysBalanced(s, steps, id) <==> NeverStale(s, steps, id)
    ensures NeverStale(s, steps, id) && id in After(s, steps).store ==>
      Count(After(s, steps).calls, id) <= After(s, steps).store[id].maxRetries
  {
    InitiallyBooked(s);
    NeverStaleFrom(s, steps, id);
    if NeverStale(s, steps, id) && id in After(s, steps).store {
      DispatchesAreAccounted(s, steps, id);
    }
    hide Booked, IsRun, After, AlwaysBalanced, NeverStale, TotalDrift;
  }
}
