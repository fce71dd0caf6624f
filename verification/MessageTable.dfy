/**
 * The rows of `outbox_message` and `inbox_message` and what each SQL statement of
 * `OutboxStore` and `InboxStore` does to them.  The two tables differ only in the
 * name of their columns (`created_at`/`received_at`, `published`/`processed`) and in
 * `source`, so one model serves both; the outbox uses the empty `source`.
 */
module MessageTable {
  import opened Wrappers
  import opened Messages

  /** A row's UUID. */
  type Id = int

  /** Microseconds on the UTC time line. */
  type Time = int

  /** `Done` is `published` in the outbox and `processed` in the inbox. */
  datatype Status = Pending | Processing | Done | Failed

  /** The columns no statement ever writes after the insert. */
  datatype Identity = Identity(source: string, envelope: Envelope, maxAttempts: int, stampedAt: Time)

  datatype Row = Row(
    identity: Identity,
    status: Status,
    attempts: nat,
    availableAt: Time,
    leaseUntil: Option<Time>,
    lastError: Option<string>,
    updatedAt: Time,
    finishedAt: Option<Time>)

  type Table = map<Id, Row>

  /** A record handed to a worker: the row's id and the columns it read. */
  datatype Claimed = Claimed(id: Id, row: Row)

  /** Which claim query runs: only the unordered inbox query lacks the FIFO gate. */
  datatype Mode = Outbox | InboxFifo | InboxUnordered

  predicate Active(r: Row) {
    r.status == Pending || r.status == Processing
  }

  predicate Terminal(r: Row) {
    !Active(r)
  }

  // ---- insert ----

  function PendingRow(identity: Identity): Row {
    Row(identity, Pending, 0, identity.stampedAt, None, None, identity.stampedAt, None)
  }

  /** The unique key: `(source, message_id)`. */
  predicate SameMessage(a: Identity, b: Identity) {
    a.source == b.source && a.envelope.metadata.messageId == b.envelope.metadata.messageId
  }

  predicate Known(t: Table, identity: Identity) {
    exists x :: x in t && SameMessage(t[x].identity, identity)
  }

  // ---- reclaim_expired ----

  predicate Expired(r: Row, now: Time) {
    r.status == Processing && r.leaseUntil.Some? && r.leaseUntil.value < now
  }

  function ExpiredIds(t: Table, now: Time): (ids: set<Id>)
    ensures forall x :: x in ids <==>
      x in t && t[x].status == Processing && t[x].leaseUntil.Some? && t[x].leaseUntil.value < now
  {
    set x | x in t && Expired(t[x], now)
  }

  function ReclaimRow(r: Row, now: Time): Row {
    r.(status := Pending, leaseUntil := None, updatedAt := now)
  }

  function ReclaimIds(t: Table, ids: set<Id>, now: Time): Table {
    map x | x in t :: if x in ids then ReclaimRow(t[x], now) else t[x]
  }

  // ---- claim_ready ----

  /** Same `event_type` and same non-null `ordering_key`. */
  predicate SameKey(a: Identity, b: Identity) {
    && a.envelope.metadata.eventType == b.envelope.metadata.eventType
    && a.envelope.metadata.orderingKey.Some?
    && a.envelope.metadata.orderingKey == b.envelope.metadata.orderingKey
  }

  /** `older` stands in the way of `candidate` while it is active. */
  predicate Precedes(older: Identity, candidate: Identity) {
    SameKey(older, candidate) && older.stampedAt < candidate.stampedAt
  }

  /** The `ordering_key IS NULL OR NOT EXISTS (...)` gate of the claim query. */
  predicate GateOpen(t: Table, candidate: Identity) {
    forall x :: x in t && Precedes(t[x].identity, candidate) ==> Terminal(t[x])
  }

  predicate Eligible(t: Table, x: Id, now: Time, mode: Mode) {
    && x in t
    && t[x].status == Pending
    && t[x].availableAt <= now
    && (mode != InboxUnordered ==> GateOpen(t, t[x].identity))
  }

  predicate Holds(cs: seq<Claimed>, x: Id) {
    exists i :: 0 <= i < |cs| && cs[i].id == x
  }

  predicate Distinct(cs: seq<Claimed>) {
    forall i, j :: 0 <= i < j < |cs| ==> cs[i].id != cs[j].id
  }

  /**
   * `picked` is a possible answer of the claim's SELECT over `t`: distinct eligible rows
   * that are not in `skipped` (rows found locked), at most `limit` of them, and, when any
   * such row is left behind, exactly `limit` of them and none newer than it.
   * The order of `picked` is free: `RETURNING` promises none.
   */
  predicate IsBatch(t: Table, now: Time, mode: Mode, limit: nat, skipped: set<Id>, picked: seq<Claimed>) {
    && Distinct(picked)
    && |picked| <= limit
    && (forall i :: 0 <= i < |picked| ==>
          && Eligible(t, picked[i].id, now, mode)
          && picked[i].id !in skipped
          && picked[i].row == t[picked[i].id])
    && (forall x :: x in t && Eligible(t, x, now, mode) && x !in skipped && !Holds(picked, x) ==>
          && |picked| == limit
          && forall i :: 0 <= i < |picked| ==> picked[i].row.identity.stampedAt <= t[x].identity.stampedAt)
  }

  function ClaimRow(r: Row, now: Time, lease: Time): Row {
    r.(status := Processing, leaseUntil := Some(lease), updatedAt := now)
  }

  function ClaimIds(t: Table, picked: seq<Claimed>, now: Time, lease: Time): Table {
    map x | x in t :: if Holds(picked, x) then ClaimRow(t[x], now, lease) else t[x]
  }

  /** The records handed to the worker: the rows as read, with the UPDATE mirrored onto them. */
  function Mirror(picked: seq<Claimed>, now: Time, lease: Time): (records: seq<Claimed>)
    ensures |records| == |picked|
    ensures forall i :: 0 <= i < |picked| ==>
      records[i] == Claimed(picked[i].id, ClaimRow(picked[i].row, now, lease))
  {
    seq(|picked|, i requires 0 <= i < |picked| => Claimed(picked[i].id, ClaimRow(picked[i].row, now, lease)))
  }

  // ---- mark_published / mark_processed / mark_retry / mark_failed ----

  datatype Mark =
    | MarkDone(when: Time)
    | MarkRetry(error: string, availableAt: Time, when: Time)
    | MarkFailed(error: string, when: Time)

  /** What a mark does to a row, whatever the row's current state: the UPDATE tests the id alone. */
  function ApplyMark(r: Row, m: Mark): Row {
    match m
    case MarkDone(when) =>
      r.(status := Done, leaseUntil := None, finishedAt := Some(when), updatedAt := when)
    case MarkRetry(error, availableAt, when) =>
      r.(status := Pending, attempts := r.attempts + 1, availableAt := availableAt,
         leaseUntil := None, lastError := Some(error), updatedAt := when)
    case MarkFailed(error, when) =>
      r.(status := Failed, attempts := r.attempts + 1,
         leaseUntil := None, lastError := Some(error), updatedAt := when)
  }

  /** `UPDATE ... WHERE id = :id`. */
  function MarkId(t: Table, x: Id, m: Mark): Table {
    if x in t then t[x := ApplyMark(t[x], m)] else t
  }

  // ---- the runners' decisions ----

  /** What the publisher, handler, idempotency hook or stale filter said about one record. */
  datatype Verdict = Completed | Retryable(error: string) | Rejected(error: string) | Skipped | Stale

  /** The outbox has no hook and no filter; the filter runs in unordered mode only. */
  predicate Permitted(mode: Mode, v: Verdict) {
    match v
    case Skipped => mode != Outbox
    case Stale => mode == InboxUnordered
    case _ => true
  }

  /** The retry-or-fail decision of `handle_retryable_failure`, taken on the record as claimed. */
  predicate Exhausted(r: Row) {
    r.attempts + 1 >= r.identity.maxAttempts
  }

  /** `m` is a mark `run_once` may issue for a record after `v`. */
  predicate MarkFits(r: Row, v: Verdict, m: Mark) {
    match v
    case Retryable(error) => if Exhausted(r) then m.MarkFailed? && m.error == error else m.MarkRetry? && m.error == error
    case Rejected(error) => m.MarkFailed? && m.error == error
    case _ => m.MarkDone?
  }

  /** max(1, max_attempts): the number of attempts a row is entitled to. */
  function Ceiling(identity: Identity): (c: nat)
    ensures c >= 1 && c >= identity.maxAttempts && (c == 1 || c == identity.maxAttempts)
  {
    if identity.maxAttempts >= 1 then identity.maxAttempts else 1
  }
}
