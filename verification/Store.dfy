/** `OutboxStore` and `InboxStore`: the methods that change a message table in place. */
module Store {
  import opened Wrappers
  import opened Messages
  import opened MessageTable
  import opened Backoff
  import opened ClaimBatches

  datatype RetryAction = RetryScheduled | GaveUp

  /** A receipt's answer: the record stored for the message, and whether this receipt stored it. */
  datatype ReceiveOutcome = ReceiveOutcome(record: Claimed, inserted: bool)

  /** What `save_received` promises of its answer and of the table, whichever dialect runs it. */
  ghost predicate IsReceipt(before: Table, after: Table, id: Id, identity: Identity, outcome: ReceiveOutcome) {
    && (outcome.inserted <==>
          forall x :: x in before ==>
            || before[x].identity.source != identity.source
            || before[x].identity.envelope.metadata.messageId != identity.envelope.metadata.messageId)
    && (outcome.inserted ==>
          && outcome.record == Claimed(id, Row(identity, Pending, 0, identity.stampedAt, None, None, identity.stampedAt, None))
          && after == before[id := outcome.record.row])
    && (!outcome.inserted ==>
          && after == before && outcome.record.id in before && outcome.record.row == before[outcome.record.id]
          && outcome.record.row.identity.source == identity.source
          && outcome.record.row.identity.envelope.metadata.messageId == identity.envelope.metadata.messageId)
  }

  /** Both dialect branches give the same answer: over a deduplicated table there is only one. */
  lemma ReceiptIsUnique(before: Table, a: Table, b: Table, id: Id, identity: Identity, x: ReceiveOutcome, y: ReceiveOutcome)
    requires forall u, v :: u in before && v in before ==>
      (&& before[u].identity.source == before[v].identity.source
       && before[u].identity.envelope.metadata.messageId == before[v].identity.envelope.metadata.messageId) ==> u == v
    requires IsReceipt(before, a, id, identity, x) && IsReceipt(before, b, id, identity, y)
    ensures x == y && a == b
  {
    if !x.inserted {
      assert x.record.id == y.record.id;
    }
  }

  class MessageStore {
    var table: Table
    const batchSize: nat
    const leaseDuration: Time
    const maxAttempts: int
    const policy: Policy

    constructor (batchSize: nat, leaseDuration: Time, maxAttempts: int, policy: Policy)
      ensures table == map[]
      ensures this.batchSize == batchSize && this.leaseDuration == leaseDuration
      ensures this.maxAttempts == maxAttempts && this.policy == policy
    {
      table := map[];
      this.batchSize, this.leaseDuration, this.maxAttempts, this.policy := batchSize, leaseDuration, maxAttempts, policy;
    }

    /** Outbox insert; the unique index on `message_id` rejects a second row for a message. */
    method Append(id: Id, envelope: Envelope, now: Time) returns (r: Result<Claimed>)
      requires id !in table
      modifies this`table
      ensures r.Ok? <==> forall x :: x in old(table) ==>
        old(table)[x].identity.source != "" || old(table)[x].identity.envelope.metadata.messageId != envelope.metadata.messageId
      ensures r.Ok? ==>
        && r.value == Claimed(id, Row(Identity("", envelope, maxAttempts, now), Pending, 0, now, None, None, now, None))
        && table == old(table)[id := r.value.row]
      ensures r.Err? ==> table == old(table)
    {
      var identity := Identity("", envelope, maxAttempts, now);
      if Known(table, identity) {
        return Err("duplicate message_id");
      }
      table := table[id := PendingRow(identity)];
      r := Ok(Claimed(id, table[id]));
    }

    /** PostgreSQL: INSERT ... ON CONFLICT DO UPDATE SET source = source RETURNING *, (xmax = 0). */
    method SaveReceived(id: Id, source: string, envelope: Envelope, now: Time) returns (r: Result<ReceiveOutcome>)
      requires id !in table
      modifies this`table
      ensures r.Err? <==> Blank(source)
      ensures r.Err? ==> table == old(table)
      ensures r.Ok? ==> IsReceipt(old(table), table, id, Identity(source, envelope, maxAttempts, now), r.value)
      ensures r.Ok? ==> (r.value.inserted <==> forall x :: x in old(table) ==>
        old(table)[x].identity.source != source || old(table)[x].identity.envelope.metadata.messageId != envelope.metadata.messageId)
    {
      if Blank(source) {
        return Err("source must not be empty");
      }
      var identity := Identity(source, envelope, maxAttempts, now);
      if x :| x in table && SameMessage(table[x].identity, identity) {
        table := table[x := table[x].(identity := table[x].identity.(source := table[x].identity.source))];
        r := Ok(ReceiveOutcome(Claimed(x, table[x]), false));
      } else {
        table := table[id := PendingRow(identity)];
        r := Ok(ReceiveOutcome(Claimed(id, table[id]), true));
      }
    }

    /** MySQL: INSERT IGNORE, then read the existing row back when nothing was inserted. */
    method SaveReceivedMysql(id: Id, source: string, envelope: Envelope, now: Time) returns (r: Result<ReceiveOutcome>)
      requires id !in table
      modifies this`table
      ensures r.Err? <==> Blank(source)
      ensures r.Err? ==> table == old(table)
      ensures r.Ok? ==> IsReceipt(old(table), table, id, Identity(source, envelope, maxAttempts, now), r.value)
      ensures r.Ok? ==> (r.value.inserted <==> forall x :: x in old(table) ==>
        old(table)[x].identity.source != source || old(table)[x].identity.envelope.metadata.messageId != envelope.metadata.messageId)
    {
      if Blank(source) {
        return Err("source must not be empty");
      }
      var identity := Identity(source, envelope, maxAttempts, now);
      var rowcount := 0;
      if !Known(table, identity) {
        table := table[id := PendingRow(identity)];
        rowcount := 1;
      }
      if rowcount == 1 {
        return Ok(ReceiveOutcome(Claimed(id, PendingRow(identity)), true));
      }
      var x :| x in table && SameMessage(table[x].identity, identity);
      r := Ok(ReceiveOutcome(Claimed(x, table[x]), false));
    }

    /** Exactly the rows whose lease has run out become pending, and nothing else in the table changes. */
    method ReclaimExpired(now: Time) returns (count: nat)
      modifies this`table
      ensures table.Keys == old(table).Keys
      ensures forall x :: x in table ==>
        var r := old(table)[x];
        if r.status == Processing && r.leaseUntil.Some? && r.leaseUntil.value < now
        then table[x] == Row(r.identity, Pending, r.attempts, r.availableAt, None, r.lastError, now, r.finishedAt)
        else table[x] == r
      ensures count == |ExpiredIds(old(table), now)|
      ensures table == ReclaimIds(old(table), ExpiredIds(old(table), now), now)
    {
      count := |ExpiredIds(table, now)|;
      table := ReclaimIds(table, ExpiredIds(table, now), now);
    }

    /** The claim's SELECT: the database answers with some batch. */
    method SelectClaimable(now: Time, mode: Mode, locked: set<Id>) returns (picked: seq<Claimed>)
      ensures IsBatch(table, now, mode, batchSize, locked, picked)
    {
      ghost var answer := BatchExists(table, now, mode, batchSize, locked);
      picked :| IsBatch(table, now, mode, batchSize, locked, picked);
    }

    /** PostgreSQL: one statement selects, updates and returns the rows. */
    method ClaimReady(now: Time, mode: Mode, locked: set<Id>) returns (records: seq<Claimed>, ghost picked: seq<Claimed>)
      modifies this`table
      ensures IsBatch(old(table), now, mode, batchSize, locked, picked)
      ensures table == ClaimIds(old(table), picked, now, now + leaseDuration)
      ensures records == Mirror(picked, now, now + leaseDuration)
      ensures table.Keys == old(table).Keys && |records| <= batchSize
      ensures forall i :: 0 <= i < |records| ==>
        && records[i].id in old(table) && table[records[i].id] == records[i].row
        && records[i].row == old(table)[records[i].id].(status := Processing, leaseUntil := Some(now + leaseDuration), updatedAt := now)
        && old(table)[records[i].id].status == Pending && old(table)[records[i].id].availableAt <= now
      ensures forall x :: x in old(table) && (forall i :: 0 <= i < |records| ==> records[i].id != x) ==> table[x] == old(table)[x]
    {
      var rows := SelectClaimable(now, mode, locked);
      table := ClaimIds(table, rows, now, now + leaseDuration);
      picked := rows;
      assert forall i :: 0 <= i < |rows| ==> Holds(rows, rows[i].id);
      records := seq(|rows|, i requires 0 <= i < |rows| && rows[i].id in table reads this => Claimed(rows[i].id, table[rows[i].id]));
    }

    /** MySQL: select, update by id, then mirror the update onto the rows as read. */
    method ClaimReadyMysql(now: Time, mode: Mode, locked: set<Id>) returns (records: seq<Claimed>, ghost picked: seq<Claimed>)
      modifies this`table
      ensures IsBatch(old(table), now, mode, batchSize, locked, picked)
      ensures table == ClaimIds(old(table), picked, now, now + leaseDuration)
      ensures records == Mirror(picked, now, now + leaseDuration)
      ensures table.Keys == old(table).Keys && |records| <= batchSize
      ensures forall i :: 0 <= i < |records| ==>
        && records[i].id in old(table) && table[records[i].id] == records[i].row
        && records[i].row == old(table)[records[i].id].(status := Processing, leaseUntil := Some(now + leaseDuration), updatedAt := now)
        && old(table)[records[i].id].status == Pending && old(table)[records[i].id].availableAt <= now
      ensures forall x :: x in old(table) && (forall i :: 0 <= i < |records| ==> records[i].id != x) ==> table[x] == old(table)[x]
    {
      var lease := now + leaseDuration;
      var rows := SelectClaimable(now, mode, locked);
      picked := rows;
      records := [];
      if rows == [] {
        assert table == ClaimIds(table, rows, now, lease);
        return;
      }
      table := ClaimIds(table, rows, now, lease);
      for i := 0 to |rows|
        invariant |records| == i
        invariant forall k :: 0 <= k < i ==> records[k] == Claimed(rows[k].id, ClaimRow(rows[k].row, now, lease))
      {
        var record := rows[i].row;
        record := record.(status := Processing);
        record := record.(leaseUntil := Some(lease));
        record := record.(updatedAt := now);
        records := records + [Claimed(rows[i].id, record)];
      }
      assert forall i :: 0 <= i < |rows| ==> Holds(rows, rows[i].id);
    }

    /** The row is finished, whatever its state was: the lease is not looked at. */
    method MarkDone(id: Id, when: Time)
      modifies this`table
      ensures table.Keys == old(table).Keys && forall x :: x in table && x != id ==> table[x] == old(table)[x]
      ensures id in table ==>
        && table[id].status == Done && table[id].leaseUntil.None?
        && table[id].finishedAt == Some(when) && table[id].updatedAt == when
        && table[id].identity == old(table)[id].identity && table[id].attempts == old(table)[id].attempts
        && table[id].availableAt == old(table)[id].availableAt && table[id].lastError == old(table)[id].lastError
      ensures table == MarkId(old(table), id, Mark.MarkDone(when))
    {
      if id in table {
        table := table[id := table[id].(status := Done, leaseUntil := None, finishedAt := Some(when), updatedAt := when)];
      }
    }

    /** The row is pending again from `availableAt` on, with one more attempt than it has now. */
    method MarkRetry(id: Id, error: string, availableAt: Time, when: Time)
      modifies this`table
      ensures table.Keys == old(table).Keys && forall x :: x in table && x != id ==> table[x] == old(table)[x]
      ensures id in table ==>
        && table[id].status == Pending && table[id].leaseUntil.None?
        && table[id].attempts == old(table)[id].attempts + 1
        && table[id].availableAt == availableAt && table[id].lastError == Some(error) && table[id].updatedAt == when
        && table[id].identity == old(table)[id].identity && table[id].finishedAt == old(table)[id].finishedAt
      ensures table == MarkId(old(table), id, Mark.MarkRetry(error, availableAt, when))
    {
      if id in table {
        var r := table[id];
        table := table[id := r.(status := Pending, attempts := r.attempts + 1, availableAt := availableAt,
                                leaseUntil := None, lastError := Some(error), updatedAt := when)];
      }
    }

    /** The row has failed, with one more attempt than it has now. */
    method MarkFailed(id: Id, error: string, when: Time)
      modifies this`table
      ensures table.Keys == old(table).Keys && forall x :: x in table && x != id ==> table[x] == old(table)[x]
      ensures id in table ==>
        && table[id].status == Failed && table[id].leaseUntil.None?
        && table[id].attempts == old(table)[id].attempts + 1
        && table[id].lastError == Some(error) && table[id].updatedAt == when
        && table[id].identity == old(table)[id].identity
        && table[id].availableAt == old(table)[id].availableAt && table[id].finishedAt == old(table)[id].finishedAt
      ensures table == MarkId(old(table), id, Mark.MarkFailed(error, when))
    {
      if id in table {
        var r := table[id];
        table := table[id := r.(status := Failed, attempts := r.attempts + 1,
                                leaseUntil := None, lastError := Some(error), updatedAt := when)];
      }
    }

    /** Reschedules the record, or marks it failed at the attempt ceiling, going by the record as claimed. */
    method HandleRetryableFailure(record: Claimed, error: string, now: Time, when: Time)
      returns (action: RetryAction, ghost mark: Mark)
      modifies this`table
      ensures table == MarkId(old(table), record.id, mark)
      ensures action == RetryScheduled <==> record.row.attempts + 1 < record.row.identity.maxAttempts
      ensures action == RetryScheduled ==> mark == Mark.MarkRetry(error, NextRetryAt(policy, record.row.attempts, now), when)
      ensures action == GaveUp ==> mark == Mark.MarkFailed(error, when)
      ensures var p, k := policy, record.row.attempts;
        action == RetryScheduled && PositiveIntervals(p) ==>
        OffByAtMostHalf(mark.availableAt - now, 1000000.0 * ExactDelay(p, k))
    {
      if record.row.attempts + 1 >= record.row.identity.maxAttempts {
        MarkFailed(record.id, error, when);
        return GaveUp, Mark.MarkFailed(error, when);
      }
      var retryAt := NextRetryAt(policy, record.row.attempts, now);
      if PositiveIntervals(policy) {
        NextRetryIsExact(policy, record.row.attempts, now);
      }
      MarkRetry(record.id, error, retryAt, when);
      return RetryScheduled, Mark.MarkRetry(error, retryAt, when);
    }
  }
}
