/** The outbox collection as a map, with the three operations the services use. */
module OutboxStore {
  import opened Domain

  type Store = map<string, OutboxMessage>

  /** `limit == 0` means "no limit", as in MongoDB. */
  datatype Criteria = Criteria(status: OutboxStatus, before: Option<int>, limit: nat)

  function Save(store: Store, m: OutboxMessage): Store {
    store[m.messageId := m]
  }

  predicate StatusIs(store: Store, id: string, status: OutboxStatus) {
    id in store && store[id].status == status
  }

  /** Compare-and-set on the stored status. */
  function SaveIfStatus(store: Store, m: OutboxMessage, expected: OutboxStatus): Store {
    if StatusIs(store, m.messageId, expected) then Save(store, m) else store
  }

  predicate Matches(m: OutboxMessage, c: Criteria) {
    m.status == c.status && (c.before.Some? ==> m.updatedAt < c.before.value)
  }

  ghost predicate DistinctIds(ms: seq<OutboxMessage>) {
    forall i, j :: 0 <= i < j < |ms| ==> ms[i].messageId != ms[j].messageId
  }

  ghost predicate StoredAndMatching(store: Store, c: Criteria, ms: seq<OutboxMessage>) {
    forall m :: m in ms ==> m.messageId in store && store[m.messageId] == m && Matches(m, c)
  }

  ghost predicate OldestFirst(ms: seq<OutboxMessage>) {
    forall i, j :: 0 <= i < j < |ms| ==> ms[i].createdAt <= ms[j].createdAt
  }

  ghost predicate WellKeyed(store: Store) {
    forall id :: id in store ==> store[id].messageId == id
  }

  /** A matching message may be missing from the answer only when the limit is
      used up by messages that are at least as old. */
  ghost predicate Complete(store: Store, c: Criteria, ms: seq<OutboxMessage>) {
    forall id :: id in store && Matches(store[id], c) && store[id] !in ms ==>
      c.limit != 0 && |ms| == c.limit && forall m :: m in ms ==> m.createdAt <= store[id].createdAt
  }

  /** What `find_by` promises about its answer. */
  ghost predicate IsFindResult(store: Store, c: Criteria, ms: seq<OutboxMessage>) {
    && StoredAndMatching(store, c, ms)
    && DistinctIds(ms)
    && OldestFirst(ms)
    && (c.limit != 0 ==> |ms| <= c.limit)
    && Complete(store, c, ms)
  }
}
