/** Per-key order, under H1 (`WithinLease`), H2 (`StampedInOrder`) and, for the inbox, H3 (`FifoOnly`). */
module Fifo {
  import opened MessageTable
  import opened Protocol
  import opened RunFacts
  import opened History
  import opened Leases

  /** A row inserted by the next event is no older than any row of its key. */
  lemma NewRowIsNotOlder(run: seq<Event>, k: nat, x: Id)
    requires Legal(run) && StampedInOrder(run) && k < |run| && Inserts(run[k])
    requires x in After(run[..k]).table
    ensures !Precedes(run[k].identity, After(run[..k]).table[x].identity)
  {
    LegalAt(run, k);
    var i := RowHasReceipt(run[..k], x);
    assert run[..k][i] == run[i];
  }

  lemma GateStep(run: seq<Event>, k: nat, x: Id)
    requires Legal(run) && WithinLease(run) && StampedInOrder(run) && k < |run|
    requires x in After(run[..k]).table && GateOpen(After(run[..k]).table, After(run[..k]).table[x].identity)
    ensures x in After(run[..k + 1]).table && After(run[..k + 1]).table[x].identity == After(run[..k]).table[x].identity
    ensures GateOpen(After(run[..k + 1]).table, After(run[..k]).table[x].identity)
  {
    var t, t', candidate := After(run[..k]).table, After(run[..k + 1]).table, After(run[..k]).table[x].identity;
    Before(run, k);
    RowFrame(After(run[..k]), run[k], x);
    forall y | y in t' && Precedes(t'[y].identity, candidate)
      ensures Terminal(t'[y])
    {
      if y in t {
        RowFrame(After(run[..k]), run[k], y);
        TerminalStep(run, k, y);
      } else {
        NewRowIsNotOlder(run, k, x);
      }
    }
  }

  /** Gate stability: once the FIFO gate of a row is open it is open in every later state. */
  lemma {:induction false} GateStaysOpen(run: seq<Event>, n: nat, m: nat, x: Id)
    requires Legal(run) && WithinLease(run) && StampedInOrder(run) && n <= m <= |run|
    requires x in After(run[..n]).table && GateOpen(After(run[..n]).table, After(run[..n]).table[x].identity)
    ensures x in After(run[..m]).table && After(run[..m]).table[x].identity == After(run[..n]).table[x].identity
    ensures GateOpen(After(run[..m]).table, After(run[..m]).table[x].identity)
    decreases m
  {
    if n < m {
      GateStaysOpen(run, n, m - 1, x);
      GateStep(run, m - 1, x);
    }
  }

  /** A FIFO query picks a row only when its gate is open in the table itself. */
  lemma PickedGateOpen(s: State, e: Event, x: Id)
    requires Enabled(s, e) && Grabs(e) && e.grab.mode != InboxUnordered && Holds(e.grab.picked, x)
    ensures x in s.table && GateOpen(s.table, s.table[x].identity)
  {
    var v := View(s.table, e.grab);
    assert GateOpen(v, v[x].identity);
    forall y | y in s.table && Precedes(s.table[y].identity, s.table[x].identity)
      ensures Terminal(s.table[y])
    {
      assert y in v && Precedes(v[y].identity, v[x].identity);
    }
  }

  lemma ClaimWasPicked(run: seq<Event>, i: nat, x: Id) returns (k: nat)
    requires Legal(run) && i < |run| && Shows(run[i], ClaimTaken, x)
    ensures k <= i && Grabs(run[k]) && Holds(run[k].grab.picked, x)
  {
    if run[i].Claim? {
      k := i;
    } else {
      LegalAt(run, i);
      k := SelectedByGrab(run[..i], run[i].w);
    }
  }

  /** What an open gate means, in columns. */
  lemma OpenGateMeans(t: Table, x: Id)
    requires x in t && GateOpen(t, t[x].identity)
    ensures forall y :: y in t ==>
      var older, claimed := t[y].identity, t[x].identity;
      (&& older.envelope.metadata.eventType == claimed.envelope.metadata.eventType
       && older.envelope.metadata.orderingKey.Some? && older.envelope.metadata.orderingKey == claimed.envelope.metadata.orderingKey
       && older.stampedAt < claimed.stampedAt) ==> t[y].status == Done || t[y].status == Failed
  {
  }

  /** FIFO frontier: once a row was ever claimed, every strictly older row of its key is terminal, for good. */
  lemma Frontier(run: seq<Event>, i: nat, m: nat, x: Id)
    requires Legal(run) && WithinLease(run) && StampedInOrder(run) && FifoOnly(run)
    requires i < |run| && Shows(run[i], ClaimTaken, x) && i < m <= |run|
    ensures x in After(run[..m]).table && GateOpen(After(run[..m]).table, After(run[..m]).table[x].identity)
    ensures forall y :: y in After(run[..m]).table ==>
      var t := After(run[..m]).table;
      var older, claimed := t[y].identity, t[x].identity;
      (&& older.envelope.metadata.eventType == claimed.envelope.metadata.eventType
       && older.envelope.metadata.orderingKey.Some? && older.envelope.metadata.orderingKey == claimed.envelope.metadata.orderingKey
       && older.stampedAt < claimed.stampedAt) ==> t[y].status == Done || t[y].status == Failed
  {
    assert x in After(run[..m]).table && GateOpen(After(run[..m]).table, After(run[..m]).table[x].identity) by {
      var k := ClaimWasPicked(run, i, x);
      LegalAt(run, k);
      PickedGateOpen(After(run[..k]), run[k], x);
      GateStaysOpen(run, k, m, x);
    }
    OpenGateMeans(After(run[..m]).table, x);
  }

  /**
   * Per-key delivery order: in every run, with any number of workers, crashes, reclaims and
   * open transactions, the calls for one (event_type, ordering_key) are made in non-decreasing
   * stamp.  Repeats are allowed: delivery is at least once.  The hypotheses H1, H2 and H3 are
   * written out.
   */
  lemma DeliveryOrder(run: seq<Event>, i: nat, j: nat)
    requires Legal(run)
    requires forall k, l :: 0 <= k < l < |run| ==> run[k].at <= run[l].at
    requires forall k :: 0 <= k < |run| ==>
      && (run[k].Claim? || run[k].Select? ==> run[k].grab.now <= run[k].at)
      && (run[k].Call? || run[k].MarkIt? ==> run[k].at <= run[k].lease)
    requires forall k, l :: 0 <= k < l < |run| && run[k].Receive? && run[k].inserted && run[l].Receive? && run[l].inserted ==>
      var a, b := run[k].identity, run[l].identity;
      (&& a.envelope.metadata.eventType == b.envelope.metadata.eventType
       && a.envelope.metadata.orderingKey.Some? && a.envelope.metadata.orderingKey == b.envelope.metadata.orderingKey) ==> a.stampedAt <= b.stampedAt
    requires forall k :: 0 <= k < |run| && (run[k].Claim? || run[k].Select?) ==> run[k].grab.mode != InboxUnordered
    requires i < j < |run| && run[i].Call? && run[j].Call?
    ensures run[i].id in After(run).table && run[j].id in After(run).table
    ensures var a, b := After(run).table[run[i].id].identity, After(run).table[run[j].id].identity;
      (&& a.envelope.metadata.eventType == b.envelope.metadata.eventType
       && a.envelope.metadata.orderingKey.Some? && a.envelope.metadata.orderingKey == b.envelope.metadata.orderingKey) ==> a.stampedAt <= b.stampedAt
  {
    assert WithinLease(run) && StampedInOrder(run) && FifoOnly(run);
    var t, x, y := After(run[..j]).table, run[i].id, run[j].id;
    assert x in t && GateOpen(t, t[x].identity) by {
      var k := CallFollowsClaim(run, i);
      assert Shows(run[k], ClaimTaken, x);
      Frontier(run, k, j, x);
    }
    assert y in t && Active(t[y]) by {
      WorkFindsItsLease(run, j);
    }
    assert !Precedes(t[y].identity, t[x].identity);
    NothingLost(run, j, x);
    NothingLost(run, j, y);
  }
}
