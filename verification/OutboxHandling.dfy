/** How one message fares in one call of the relay service, and the protocol steps
    that this amounts to. */
module OutboxHandling {
  import opened Domain
  import opened OutboxStore
  import opened OutboxProtocol
  import opened OutboxRuns

  /** How a write to the store ends: answered, or with an exception, in which case
      it may have been applied. */
  datatype WriteEnd = Answered | Lost(applied: bool)

  /** A write with the clock reading it stores. */
  datatype Write = Write(end: WriteEnd, at: int)
  {
    predicate IsApplied() {
      end != Lost(false)
    }
  }

  /** How the handling of a claimed message ends: the time of the claim, the
      dispatch, and the write after it. */
  datatype Handling = Handling(claimedAt: int, ok: bool, write: Write)

  predicate Publishes(m: OutboxMessage, h: Handling) {
    Delivers(m, h.ok) && h.write.IsApplied()
  }

  /** Nothing stands in the way of publishing: the dispatch, if the message is one
      to dispatch, names a task and succeeds. */
  predicate GoesThrough(m: OutboxMessage, h: Handling) {
    m.messageType == Analyze ==> m.taskId.Some? && h.ok
  }

  /** What the relay makes of a message, undisturbed. */
  function RelayedForm(m: OutboxMessage, h: Handling): OutboxMessage {
    if GoesThrough(m, h) && h.write.end != Lost(false) then m.(status := Published, updatedAt := h.write.at)
    else m.(status := Processing, updatedAt := h.claimedAt)
  }

  /** Handling the first unhandled snapshot takes the relay two or three steps. */
  lemma OneMessageIsARun(start: State, s: State, p: nat, todo: seq<OutboxMessage>, h: Handling) returns (s': State)
    requires Reachable(start, s) && p < |s.relays| && s.relays[p] == Listed(todo) && todo != []
    ensures Reachable(start, s')
    ensures s'.relays == s.relays[p := Listed(todo[1..])] && s'.recoverers == s.recoverers
    ensures s'.store == Save(s.store, RelayedForm(todo[0], h))
  {
    hide Reachable;
    var m := todo[0].MarkProcessing(h.claimedAt);
    var s1 := ClaimHead(start, s, p, todo, h.claimedAt);
    var s2 := DispatchClaimed(start, s1, p, m, todo[1..], h.ok);
    if Publishes(m, h) {
      s' := PublishDispatched(start, s2, p, m, todo[1..], h.write.at);
    } else if Delivers(m, h.ok) {
      s' := Next(s2, RelayPublishError(p));
      ReachNext(start, s2, RelayPublishError(p));
    } else {
      s' := s2;
    }
  }
}
