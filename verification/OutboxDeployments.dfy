/** For which numbers of relays and recoverers a message is dispatched at most
    `maxRetries` times, and for which it stays PUBLISHED or FAILED, whatever they
    do: the exact answers, with a run that breaks the promise for every other
    deployment. */
module OutboxDeployments {
  import opened Domain
  import opened OutboxStore
  import opened OutboxProtocol
  import opened OutboxRuns
  import opened OutboxAccounting
  import opened OutboxHandling

  /** Over all runs of this many processes, every message with `max` retries is
      dispatched at most `max` times. */
  ghost predicate RetryBoundHolds(relays: nat, recoverers: nat, max: nat) {
    forall s: State, id: string ::
      Reachable(Start(relays, recoverers), s) && id in s.store && s.store[id].maxRetries == max ==>
        Count(s.calls, id) <= max
  }

  /** No relay; or no recoverer and no more relays than retries; or one relay
      with one recoverer, or with several if there is nothing to retry. */
  predicate IsSafeDeployment(relays: nat, recoverers: nat, max: nat) {
    || relays == 0
    || (recoverers == 0 && relays <= max)
    || (relays == 1 && (recoverers <= 1 || max == 1))
  }

  /* ---- no relay ---- */

  lemma {:induction false} WithoutRelays(s: State, steps: seq<Step>)
    requires IsRun(s, steps) && |s.relays| == 0
    ensures After(s, steps).calls == s.calls
    decreases |steps|
  {
    hide IsFindResult;
    if steps == [] {
    } else {
      OneRelayMoves(s, steps[0]);
      NoRelayNoCall(s, steps[0]);
      hide Next, Enabled;
      WithoutRelays(Next(s, steps[0]), steps[1..]);
    }
  }

  lemma NoRelayNoCall(s: State, step: Step)
    requires Enabled(s, step) && |s.relays| == 0
    ensures Next(s, step).calls == s.calls
  {
    hide IsFindResult;
  }

  /* ---- no recoverer ---- */

  /** Relays that still have the message among their unhandled snapshots. */
  predicate Holds(r: Relay, id: string) {
    !r.Idle? && exists m :: m in r.todo && m.messageId == id
  }

  function Holders(relays: seq<Relay>, id: string): (n: nat)
    ensures n <= |relays|
  {
    if relays == [] then 0
    else Holders(relays[..|relays| - 1], id) + (if Holds(relays[|relays| - 1], id) then 1 else 0)
  }

  lemma {:induction false} HoldersAfter(relays: seq<Relay>, p: nat, r: Relay, id: string)
    requires p < |relays|
    ensures Holders(relays[p := r], id) ==
      Holders(relays, id) - (if Holds(relays[p], id) then 1 else 0) + (if Holds(r, id) then 1 else 0)
    decreases |relays|
  {
    hide Holds;
    var n := |relays| - 1;
    if p == n {
      assert relays[p := r][..n] == relays[..n];
    } else {
      HoldersAfter(relays[..n], p, r, id);
      assert relays[p := r][..n] == relays[..n][p := r];
    }
  }

  ghost predicate DistinctTodos(relays: seq<Relay>) {
    forall p :: 0 <= p < |relays| && !relays[p].Idle? ==> DistinctIds(relays[p].todo)
  }

  /** A pending message has not been claimed; each relay claims a message at most
      once, since it never becomes pending again. */
  ghost predicate ClaimedOncePerRelay(s: State) {
    && |s.recoverers| == 0
    && DistinctTodos(s.relays)
    && (forall id :: StatusIs(s.store, id, Pending) ==> Count(s.claims, id) == 0)
    && (forall id :: Count(s.claims, id) + Holders(s.relays, id) <= |s.relays|)
  }

  /** How the step changes who holds the message. */
  lemma HoldersStep(s: State, step: Step, id: string)
    requires Booked(s) && ClaimedOncePerRelay(s) && Enabled(s, step)
    ensures var s' := Next(s, step);
      Count(s'.claims, id) + Holders(s'.relays, id) <= |s'.relays|
  {
    hide IsFindResult, Holders;
    var s' := Next(s, step);
    OneRelayMoves(s, step);
    CountersMove(s, step, id);
    if RelayOf(step).Some? {
      var p := RelayOf(step).value;
      HoldersAfter(s.relays, p, s'.relays[p], id);
      match step
      case RelayList(_, found, limit) => ListedArePending(s, found, limit, id);
      case RelayClaim(_, _) => HeadIsGone(s.relays[p].todo, id);
      case _ =>
    }
  }

  lemma ListedArePending(s: State, found: seq<OutboxMessage>, limit: nat, id: string)
    requires IsFindResult(s.store, Criteria(Pending, None, limit), found)
    ensures Holds(Listed(found), id) ==> StatusIs(s.store, id, Pending)
  {
  }

  lemma HeadIsGone(todo: seq<OutboxMessage>, id: string)
    requires todo != [] && DistinctIds(todo)
    ensures todo[0].messageId == id ==> forall m :: m in todo[1..] ==> m.messageId != id
    ensures todo[0] in todo && forall m :: m in todo[1..] ==> m in todo
  {
    TailIsDistinct(todo);
  }

  lemma TodosStayDistinct(s: State, step: Step)
    requires DistinctTodos(s.relays) && Enabled(s, step)
    ensures DistinctTodos(Next(s, step).relays)
  {
    OneRelayMoves(s, step);
    if step.RelayClaim? {
      TailIsDistinct(s.relays[step.p].todo);
    }
  }

  /** Without a recoverer nothing becomes pending but by arriving. */
  lemma PendingIsUnclaimed(s: State, step: Step, id: string)
    requires Booked(s) && |s.recoverers| == 0 && Enabled(s, step) && StatusIs(Next(s, step).store, id, Pending)
    ensures step.Submit? || StatusIs(s.store, id, Pending)
    ensures Count(Next(s, step).claims, id) == Count(s.claims, id)
    ensures !StatusIs(s.store, id, Pending) ==> Count(s.claims, id) == 0
  {
    hide IsFindResult, CallsCovered;
    CountersMove(s, step, id);
    match step
    case RelayPublish(p, _) => InFlightIsKnown(s, p);
    case _ =>
  }

  lemma ClaimedOncePerRelayStep(s: State, step: Step)
    requires Booked(s) && ClaimedOncePerRelay(s) && Enabled(s, step)
    ensures ClaimedOncePerRelay(Next(s, step))
  {
    var s' := Next(s, step);
    TodosStayDistinct(s, step);
    SafeStep(s, step);
    forall id ensures Count(s'.claims, id) + Holders(s'.relays, id) <= |s'.relays| {
      HoldersStep(s, step, id);
    }
    forall id | StatusIs(s'.store, id, Pending) ensures Count(s'.claims, id) == 0 {
      PendingIsUnclaimed(s, step, id);
    }
    hide Safe, Booked, Next, Enabled, Holders, DistinctTodos;
  }

  lemma {:induction false} WithoutRecoverers(s: State, steps: seq<Step>)
    requires Booked(s) && ClaimedOncePerRelay(s) && IsRun(s, steps)
    ensures ClaimedOncePerRelay(After(s, steps)) && Booked(After(s, steps))
    ensures |After(s, steps).relays| == |s.relays|
    decreases |steps|
  {
    hide Booked, ClaimedOncePerRelay, Next, Enabled;
    if steps == [] {
    } else {
      BookedStep(s, steps[0], "");
      ClaimedOncePerRelayStep(s, steps[0]);
      OneRelayMoves(s, steps[0]);
      WithoutRecoverers(Next(s, steps[0]), steps[1..]);
    }
  }

  /* ---- one relay, nothing to retry ---- */

  /** A message with a single try is claimed at most once. */
  ghost predicate ClaimedOnce(s: State) {
    forall id :: id in s.store && s.store[id].maxRetries == 1 ==>
      Count(s.claims, id) <= (if s.store[id].status == Pending then 0 else 1)
  }

  lemma ClaimedOnceStep(s: State, step: Step)
    requires OneRelay(s) && ClaimsAreStored(s) && ClaimedOnce(s) && Enabled(s, step)
    ensures ClaimedOnce(Next(s, step))
  {
    var s' := Next(s, step);
    forall id | id in s'.store && s'.store[id].maxRetries == 1
      ensures Count(s'.claims, id) <= (if s'.store[id].status == Pending then 0 else 1)
    {
      ClaimedOnceStepFor(s, step, id);
    }
  }

  lemma ClaimedOnceStepFor(s: State, step: Step, id: string)
    requires OneRelay(s) && ClaimsAreStored(s) && Enabled(s, step)
    requires id in Next(s, step).store && Next(s, step).store[id].maxRetries == 1
    requires id in s.store && s.store[id].maxRetries == 1 ==>
      Count(s.claims, id) <= (if s.store[id].status == Pending then 0 else 1)
    ensures Count(Next(s, step).claims, id) <= (if Next(s, step).store[id].status == Pending then 0 else 1)
  {
    CountersMove(s, step, id);
    hide IsFindResult, CallsCovered, RecovererOk, MessageOk;
    match step
    case RelayClaim(p, _) => HeadIsKnown(s, p);
    case RelayPublish(p, _) => InFlightIsKnown(s, p);
    case RecoverWrite(q, now) =>
      ZombieIsKnown(s, q);
      LastTryFails(s.recoverers[q].zombies[0], now);
      hide Recovered;
    case _ =>
  }

  lemma LastTryFails(z: OutboxMessage, now: int)
    ensures SameEnvelope(Recovered(z, now), z)
    ensures z.maxRetries == 1 ==> Recovered(z, now).status == Failed
  {
  }

  lemma {:induction false} WithoutRetries(s: State, steps: seq<Step>)
    requires OneRelay(s) && Booked(s) && ClaimedOnce(s) && IsRun(s, steps)
    ensures ClaimedOnce(After(s, steps)) && Booked(After(s, steps))
    decreases |steps|
  {
    hide OneRelay, Safe, CallsCovered, ClaimsAreStored, ClaimedOnce, Next, Enabled;
    if steps == [] {
    } else {
      BookedStep(s, steps[0], "");
      OneRelayStep(s, steps[0]);
      ClaimedOnceStep(s, steps[0]);
      WithoutRetries(Next(s, steps[0]), steps[1..]);
    }
  }

  /* ---- runs that break the bound ---- */

  /** Nothing but `m` is stored, and every relay rests. */
  ghost predicate RelaysRest(s: State, m: OutboxMessage) {
    && s.store == map[m.messageId := m]
    && InState(s.relays, 0, |s.relays|, Idle)
  }

  ghost predicate AtRest(s: State, m: OutboxMessage) {
    RelaysRest(s, m) && forall q :: 0 <= q < |s.recoverers| ==> s.recoverers[q] == Resting
  }

  /** Relays `lo` to `hi - 1` are in state `r`. */
  ghost predicate InState(relays: seq<Relay>, lo: nat, hi: nat, r: Relay) {
    hi <= |relays| && forall p :: lo <= p < hi ==> relays[p] == r
  }

  ghost predicate SameCounts(s: State, s': State) {
    s'.calls == s.calls && |s'.relays| == |s.relays|
  }

  /** The first `k` relays list the only message. */
  lemma {:induction false} ListedBy(start: State, s: State, m: OutboxMessage, k: nat) returns (s': State)
    requires Reachable(start, s) && RelaysRest(s, m) && m.status == Pending && k <= |s.relays|
    ensures Reachable(start, s') && SameCounts(s, s') && s'.store == s.store && s'.recoverers == s.recoverers
    ensures InState(s'.relays, 0, k, Listed([m])) && InState(s'.relays, k, |s.relays|, Idle)
  {
    if k == 0 {
      s' := s;
    } else {
      var s1 := ListedBy(start, s, m, k - 1);
      hide Reachable;
      FindsTheOnlyMessage(s1.store, m, Criteria(Pending, None, 0));
      var step := RelayList(k - 1, [m], 0);
      s' := Next(s1, step);
      ReachNext(start, s1, step);
    }
  }

  /** The relay `p` claims its snapshot of the only message, which may have moved
      on, and fails to dispatch it. */
  lemma FailedDispatch(start: State, s: State, m: OutboxMessage, stored: OutboxMessage, p: nat) returns (s': State)
    requires Reachable(start, s) && s.store == map[m.messageId := stored] && IsCalled(m)
    requires p < |s.relays| && s.relays[p] == Listed([m])
    ensures Reachable(start, s') && s'.relays == s.relays[p := Listed([])] && s'.recoverers == s.recoverers
    ensures s'.store == map[m.messageId := m.MarkProcessing(0)]
    ensures Count(s'.calls, m.messageId) == Count(s.calls, m.messageId) + 1
  {
    hide Reachable;
    assert [m][1..] == [];
    var s1 := ClaimHead(start, s, p, [m], 0);
    s' := DispatchClaimed(start, s1, p, m.MarkProcessing(0), [], false);
  }

  /** They all claim it and fail to dispatch it. */
  lemma {:induction false} DispatchedBy(start: State, s: State, m: OutboxMessage, n: nat, k: nat) returns (s': State)
    requires Reachable(start, s) && s.store == map[m.messageId := m] && k <= n
    requires InState(s.relays, 0, n, Listed([m])) && InState(s.relays, n, |s.relays|, Idle) && IsCalled(m)
    ensures Reachable(start, s') && |s'.relays| == |s.relays| && s'.recoverers == s.recoverers
    ensures InState(s'.relays, 0, k, Listed([])) && InState(s'.relays, k, n, Listed([m]))
    ensures InState(s'.relays, n, |s.relays|, Idle)
    ensures s'.store == map[m.messageId := if k == 0 then m else m.MarkProcessing(0)]
    ensures Count(s'.calls, m.messageId) == Count(s.calls, m.messageId) + k
  {
    hide Reachable, IsCalled;
    if k == 0 {
      s' := s;
    } else {
      var s1 := DispatchedBy(start, s, m, n, k - 1);
      s' := FailedDispatch(start, s1, m, s1.store[m.messageId], k - 1);
    }
  }

  /** They finish. */
  lemma {:induction false} StoppedBy(start: State, s: State, n: nat, k: nat) returns (s': State)
    requires Reachable(start, s) && k <= n <= |s.relays| && InState(s.relays, n, |s.relays|, Idle)
    ensures Reachable(start, s') && SameCounts(s, s') && s'.store == s.store && s'.recoverers == s.recoverers
    ensures InState(s'.relays, 0, k, Idle) && InState(s'.relays, n, |s.relays|, Idle)
  {
    if k == 0 {
      s' := s;
    } else {
      var s1 := StoppedBy(start, s, n, k - 1);
      hide Reachable;
      s' := Next(s1, RelayStop(k - 1));
      ReachNext(start, s1, RelayStop(k - 1));
    }
  }

  /** The first `n` relays list the only message at the same time; each claims it
      and fails to dispatch it. */
  lemma FailingRound(start: State, s: State, m: OutboxMessage, n: nat) returns (s': State)
    requires Reachable(start, s) && RelaysRest(s, m) && m.status == Pending && IsCalled(m) && 1 <= n <= |s.relays|
    ensures Reachable(start, s') && RelaysRest(s', m.MarkProcessing(0))
    ensures |s'.relays| == |s.relays| && s'.recoverers == s.recoverers
    ensures Count(s'.calls, m.messageId) == Count(s.calls, m.messageId) + n
  {
    hide Reachable;
    var s1 := ListedBy(start, s, m, n);
    var s2 := DispatchedBy(start, s1, m, n, n);
    s' := StoppedBy(start, s2, n, n);
  }

  /** The recoverer `q` lists the only message. */
  lemma ListZombie(start: State, s: State, q: nat, z: OutboxMessage) returns (s': State)
    requires Reachable(start, s) && q < |s.recoverers| && s.recoverers[q] == Resting
    requires s.store == map[z.messageId := z] && z.status == Processing
    ensures s' == WithRecoverer(s, q, Recovering([z])) && Reachable(start, s')
  {
    hide Reachable;
    var step := RecoverList(q, [z], z.updatedAt + 1, 0);
    FindsTheOnlyMessage(s.store, z, Criteria(Processing, Some(z.updatedAt + 1), 0));
    s' := Next(s, step);
    ReachNext(start, s, step);
  }

  /** The recoverer `q` puts the only message back, from its snapshot `z`, and
      finishes. */
  lemma PutBack(start: State, s: State, q: nat, z: OutboxMessage, stored: OutboxMessage) returns (s': State)
    requires Reachable(start, s) && q < |s.recoverers| && s.recoverers[q] == Recovering([z])
    requires s.store == map[z.messageId := stored] && stored.status == Processing && z.retryCount + 1 < z.maxRetries
    ensures Reachable(start, s') && s'.recoverers == s.recoverers[q := Resting] && s'.relays == s.relays
    ensures s'.store == map[z.messageId := z.WithRetryIncremented(0).BackToPending(0)] && s'.calls == s.calls
  {
    hide Reachable;
    var s1 := Next(s, RecoverWrite(q, 0));
    ReachNext(start, s, RecoverWrite(q, 0));
    s' := Next(s1, RecoverStop(q));
    ReachNext(start, s1, RecoverStop(q));
  }

  /** A submitted message after `k` retries, always at time 0. */
  function Retried(id: string, taskId: string, max: nat, k: nat): OutboxMessage {
    OutboxMessage.CreateAnalyzeEvent(id, taskId, 0).(maxRetries := max, retryCount := k)
  }

  lemma Submitted(relays: nat, recoverers: nat, id: string, taskId: string, max: nat) returns (s: State)
    requires max >= 1
    ensures Reachable(Start(relays, recoverers), s) && AtRest(s, Retried(id, taskId, max, 0)) && Count(s.calls, id) == 0
    ensures |s.relays| == relays && |s.recoverers| == recoverers
  {
    hide Reachable;
    var m := Retried(id, taskId, max, 0);
    s := Next(Start(relays, recoverers), Submit(m));
    ReachSubmitted(Start(relays, recoverers), m);
  }

  /** Overlapping relays: in every round `n` of them dispatch the message and one
      retry is counted. */
  lemma {:induction false} OverlappingRelays(
      relays: nat, recoverers: nat, id: string, taskId: string, max: nat, n: nat, k: nat) returns (s: State)
    requires 1 <= n <= relays && recoverers >= 1 && k < max
    ensures Reachable(Start(relays, recoverers), s) && AtRest(s, Retried(id, taskId, max, k))
    ensures |s.relays| == relays && |s.recoverers| == recoverers && Count(s.calls, id) == n * k
  {
    hide Reachable;
    if k == 0 {
      s := Submitted(relays, recoverers, id, taskId, max);
    } else {
      var start, m := Start(relays, recoverers), Retried(id, taskId, max, k - 1);
      s := OverlappingRelays(relays, recoverers, id, taskId, max, n, k - 1);
      s := FailingRound(start, s, m, n);
      s := ListZombie(start, s, 0, m.MarkProcessing(0));
      s := PutBack(start, s, 0, m.MarkProcessing(0), m.MarkProcessing(0));
      assert n * k == n * (k - 1) + n;
    }
  }

  /** Overlapping recoverers: both list the message; after the first has put it
      back and the relay has claimed it again, the second takes the retry back
      from its old snapshot. Two dispatches, one retry. */
  lemma {:induction false} OverlappingRecoverers(
      relays: nat, recoverers: nat, id: string, taskId: string, max: nat, k: nat) returns (s: State)
    requires relays >= 1 && recoverers >= 2 && k < max
    ensures Reachable(Start(relays, recoverers), s) && AtRest(s, Retried(id, taskId, max, k))
    ensures |s.relays| == relays && |s.recoverers| == recoverers && Count(s.calls, id) == 2 * k
  {
    hide Reachable;
    if k == 0 {
      s := Submitted(relays, recoverers, id, taskId, max);
    } else {
      s := OverlappingRecoverers(relays, recoverers, id, taskId, max, k - 1);
      s := TakenBack(Start(relays, recoverers), s, Retried(id, taskId, max, k - 1));
    }
  }

  /** One round of this. */
  lemma TakenBack(start: State, s: State, m: OutboxMessage) returns (s': State)
    requires Reachable(start, s) && AtRest(s, m) && |s.relays| >= 1 && |s.recoverers| >= 2
    requires m.status == Pending && IsCalled(m) && m.retryCount + 1 < m.maxRetries && m.updatedAt == 0
    ensures Reachable(start, s') && AtRest(s', m.(retryCount := m.retryCount + 1))
    ensures |s'.relays| == |s.relays| && |s'.recoverers| == |s.recoverers|
    ensures Count(s'.calls, m.messageId) == Count(s.calls, m.messageId) + 2
  {
    hide Reachable;
    var z, m' := m.MarkProcessing(0), m.(retryCount := m.retryCount + 1);
    var s1 := FailingRound(start, s, m, 1);
    var s2 := ListZombie(start, s1, 0, z);
    var s3 := ListZombie(start, s2, 1, z);
    var s4 := PutBack(start, s3, 0, z, z);
    var s5 := FailingRound(start, s4, m', 1);
    s' := PutBack(start, s5, 1, z, m'.MarkProcessing(0));
  }

  /** A deployment that is not safe breaks the bound, for any retry limit. */
  lemma UnsafeDeploymentsBreakTheBound(relays: nat, recoverers: nat, id: string, taskId: string, max: nat)
    returns (s: State)
    requires max >= 1 && !IsSafeDeployment(relays, recoverers, max)
    ensures Reachable(Start(relays, recoverers), s) && id in s.store && s.store[id].maxRetries == max
    ensures Count(s.calls, id) > max
  {
    hide Reachable;
    var start := Start(relays, recoverers);
    if recoverers == 0 {
      s := Submitted(relays, recoverers, id, taskId, max);
      s := FailingRound(start, s, Retried(id, taskId, max, 0), relays);
    } else if relays >= 2 {
      s := OverlappingRelays(relays, recoverers, id, taskId, max, 2, max - 1);
      s := FailingRound(start, s, Retried(id, taskId, max, max - 1), 2);
    } else {
      s := OverlappingRecoverers(relays, recoverers, id, taskId, max, max - 1);
      s := FailingRound(start, s, Retried(id, taskId, max, max - 1), 1);
    }
  }

  /* ---- the exact answer ---- */

  lemma SafeDeploymentKeepsTheBound(relays: nat, recoverers: nat, max: nat, steps: seq<Step>, id: string)
    requires max >= 1 && IsSafeDeployment(relays, recoverers, max) && IsRun(Start(relays, recoverers), steps)
    requires var s := After(Start(relays, recoverers), steps); id in s.store && s.store[id].maxRetries == max
    ensures Count(After(Start(relays, recoverers), steps).calls, id) <= max
  {
    var start := Start(relays, recoverers);
    InitiallyBooked(start);
    if relays == 0 {
      WithoutRelays(start, steps);
    } else if recoverers == 0 {
      NobodyHolds(relays);
      WithoutRecoverers(start, steps);
    } else if recoverers == 1 {
      OneRelayOneRecovererIsExact(start, steps);
    } else {
      OneRelayInitially(start);
      WithoutRetries(start, steps);
    }
    hide Safe, Start, After, IsRun;
  }

  lemma NobodyHolds(relays: nat)
    ensures ClaimedOncePerRelay(Start(relays, 0))
  {
  }

  /** The retry bound, exactly: over all runs of a deployment, every message is
      dispatched at most `maxRetries` times if and only if there is no relay, or
      no recoverer and at most `maxRetries` relays, or one relay and either one
      recoverer or a message without retries. */
  lemma RetryBoundHoldsExactly(relays: nat, recoverers: nat, max: nat)
    requires max >= 1
    ensures RetryBoundHolds(relays, recoverers, max) <==> IsSafeDeployment(relays, recoverers, max)
  {
    var start := Start(relays, recoverers);
    if IsSafeDeployment(relays, recoverers, max) {
      forall s: State, id: string | Reachable(start, s) && id in s.store && s.store[id].maxRetries == max
        ensures Count(s.calls, id) <= max
      {
        var steps :| IsRun(start, steps) && After(start, steps) == s;
        SafeDeploymentKeepsTheBound(relays, recoverers, max, steps, id);
      }
    } else {
      var s := UnsafeDeploymentsBreakTheBound(relays, recoverers, "", "", max);
    }
  }

  /** With one relay but two overlapping recoverers, a message is dispatched more
      often than `maxRetries`. */
  lemma TwoRecoverersCanExceedTheRetryBound(id: string, taskId: string) returns (s: State)
    ensures Reachable(Start(1, 2), s) && id in s.store
    ensures Count(s.calls, id) > s.store[id].maxRetries
  {
    s := UnsafeDeploymentsBreakTheBound(1, 2, id, taskId, 3);
  }

  /** The same with two overlapping relays and one recoverer. */
  lemma TwoRelaysCanExceedTheRetryBound(id: string, taskId: string) returns (s: State)
    ensures Reachable(Start(2, 1), s) && id in s.store
    ensures Count(s.calls, id) > s.store[id].maxRetries
  {
    s := UnsafeDeploymentsBreakTheBound(2, 1, id, taskId, 3);
  }

  /* ---- when terminal messages stay ---- */

  /** Over all runs of this many processes, a message that is PUBLISHED or FAILED
      stays as it is in every step. */
  ghost predicate TerminalMessagesStay(relays: nat, recoverers: nat) {
    forall s: State, step: Step, id: string ::
      Reachable(Start(relays, recoverers), s) && Enabled(s, step) && id in s.store && s.store[id].IsTerminal() ==>
        StaysInStep(s, step, id)
  }

  ghost predicate StaysInStep(s: State, step: Step, id: string)
    requires Enabled(s, step) && id in s.store
  {
    id in Next(s, step).store && Next(s, step).store[id] == s.store[id]
  }

  /** With two relays, a PUBLISHED message can go back to PROCESSING: both list
      it, one publishes it, then the other claims its stale snapshot. */
  lemma TwoRelaysCanReopenAPublishedMessage(relays: nat, recoverers: nat, id: string, taskId: string)
    returns (s: State, step: Step)
    requires relays >= 2
    ensures Reachable(Start(relays, recoverers), s) && Enabled(s, step)
    ensures StatusIs(s.store, id, Published) && StatusIs(Next(s, step).store, id, Processing)
  {
    hide Reachable;
    var start, m := Start(relays, recoverers), Retried(id, taskId, 3, 0);
    var s1 := Submitted(relays, recoverers, id, taskId, 3);
    var s2 := ListedBy(start, s1, m, 2);
    s := OneMessageIsARun(start, s2, 0, [m], Handling(1, true, Write(Answered, 2)));
    step := RelayClaim(1, 3);
  }

  lemma TerminalStaysInStep(relays: nat, recoverers: nat, steps: seq<Step>, step: Step, id: string)
    requires relays <= 1 && IsRun(Start(relays, recoverers), steps)
    requires var s := After(Start(relays, recoverers), steps);
      Enabled(s, step) && id in s.store && s.store[id].IsTerminal()
    ensures StaysInStep(After(Start(relays, recoverers), steps), step, id)
  {
    var start := Start(relays, recoverers);
    var s := After(start, steps);
    InitiallyBooked(start);
    SafeRun(start, steps);
    if relays == 1 {
      OneRelayInitially(start);
      OneRelayRun(start, steps);
      EdgeStep(s, step);
    }
    TerminalIsLeftExactlyByStaleClaims(s, step, id);
    hide Safe, IsRun, After, OneRelay;
  }

  /** PUBLISHED and FAILED are final, exactly: over all runs of a deployment they
      are never left if and only if there is at most one relay, however many
      recoverers there are. */
  lemma TerminalMessagesStayExactly(relays: nat, recoverers: nat)
    ensures TerminalMessagesStay(relays, recoverers) <==> relays <= 1
  {
    hide StaysInStep;
    var start := Start(relays, recoverers);
    if relays <= 1 {
      forall s: State, step: Step, id: string
        | Reachable(start, s) && Enabled(s, step) && id in s.store && s.store[id].IsTerminal()
        ensures StaysInStep(s, step, id)
      {
        var steps :| IsRun(start, steps) && After(start, steps) == s;
        TerminalStaysInStep(relays, recoverers, steps, step, id);
      }
    } else {
      var s, step := TwoRelaysCanReopenAPublishedMessage(relays, recoverers, "", "");
      Reopened(s, step, "");
    }
  }

  lemma Reopened(s: State, step: Step, id: string)
    requires Enabled(s, step) && StatusIs(s.store, id, Published) && StatusIs(Next(s, step).store, id, Processing)
    ensures s.store[id].IsTerminal() && !StaysInStep(s, step, id)
  {
  }
}
