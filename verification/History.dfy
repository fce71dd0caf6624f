/** What the events of a run tell about its rows: receipts, calls, marks and their counts. */
module History {
  import opened Wrappers
  import opened MessageTable
  import opened Protocol
  import opened RunFacts

  // ---- receipts ----

  /** Every row of the table was put there by an inserting receipt of the run. */
  lemma {:induction false} RowHasReceipt(run: seq<Event>, x: Id) returns (k: nat)
    requires Legal(run) && x in After(run).table
    ensures k < |run| && Inserts(run[k]) && run[k].id == x
    ensures After(run).table[x].identity == run[k].identity
  {
    var n := |run| - 1;
    if Inserts(run[n]) && run[n].id == x {
      k := n;
    } else {
      k := RowHasReceipt(run[..n], x);
      RowFrame(After(run[..n]), run[n], x);
    }
  }

  /** A receipt is always accepted, as an insert exactly when no row has its source and message id. */
  lemma ReceiptIsAlwaysPossible(s: State, at: Time, id: Id, m: Identity, inserted: bool)
    requires id !in s.table
    ensures Enabled(s, Receive(at, id, m, inserted)) <==>
      (inserted <==> forall x :: x in s.table ==>
         s.table[x].identity.source != m.source || s.table[x].identity.envelope.metadata.messageId != m.envelope.metadata.messageId)
  {
  }

  ghost predicate UniqueMessages(t: Table) {
    forall x, y :: x in t && y in t ==>
      var a, b := t[x].identity, t[y].identity;
      (a.source == b.source && a.envelope.metadata.messageId == b.envelope.metadata.messageId) ==> x == y
  }

  lemma {:induction false} OneRowPerMessage(run: seq<Event>)
    requires Legal(run)
    ensures UniqueMessages(After(run).table)
  {
    if run != [] {
      var n := |run| - 1;
      OneRowPerMessage(run[..n]);
      var s, e := After(run[..n]), run[n];
      forall x | x in s.table
        ensures x in Apply(s, e).table && Apply(s, e).table[x].identity == s.table[x].identity
      {
        RowFrame(s, e, x);
      }
    }
  }

  /**
   * Deduplication: the first receipt of a `(source, message_id)` inserts its row, that row is
   * the only one for the message ever after and keeps the first receipt's content, and every
   * later receipt of the message leaves the whole state as it was.
   */
  lemma FirstReceiptWins(run: seq<Event>, f: nat)
    requires Legal(run) && f < |run| && run[f].Receive?
    requires forall i :: 0 <= i < f && run[i].Receive? ==>
      || run[i].identity.source != run[f].identity.source
      || run[i].identity.envelope.metadata.messageId != run[f].identity.envelope.metadata.messageId
    ensures run[f].inserted
    ensures run[f].id in After(run).table && After(run).table[run[f].id].identity == run[f].identity
    ensures forall y :: y in After(run).table ==>
      var a, b := After(run).table[y].identity, run[f].identity;
      (a.source == b.source && a.envelope.metadata.messageId == b.envelope.metadata.messageId) ==> y == run[f].id
    ensures forall j :: f < j < |run| && run[j].Receive? ==>
      var a, b := run[j].identity, run[f].identity;
      (a.source == b.source && a.envelope.metadata.messageId == b.envelope.metadata.messageId) ==>
        !run[j].inserted && After(run[..j + 1]) == After(run[..j])
  {
    LegalAt(run, f);
    if Known(After(run[..f]).table, run[f].identity) {
      var y :| y in After(run[..f]).table && SameMessage(After(run[..f]).table[y].identity, run[f].identity);
      var k := RowHasReceipt(run[..f], y);
      assert false;
    }
    NothingLost(run, f + 1, run[f].id);
    OneRowPerMessage(run);
    forall j | f < j < |run| && run[j].Receive? && SameMessage(run[j].identity, run[f].identity)
      ensures !run[j].inserted && After(run[..j + 1]) == After(run[..j])
    {
      DuplicateChangesNothing(run, f, j);
    }
  }

  lemma DuplicateChangesNothing(run: seq<Event>, f: nat, j: nat)
    requires Legal(run) && f < j < |run| && Inserts(run[f]) && run[j].Receive? && SameMessage(run[j].identity, run[f].identity)
    ensures !run[j].inserted && After(run[..j + 1]) == After(run[..j])
  {
    LegalAt(run, f);
    LegalAt(run, j);
    assert run[..j][..f + 1] == run[..f + 1];
    NothingLost(run[..j], f + 1, run[f].id);
    assert Known(After(run[..j]).table, run[j].identity);
  }

  // ---- calls and marks ----

  /** The transaction that handed `x` to worker `w` with this lease and mode. */
  predicate GrantedBy(e: Event, w: WorkerId, x: Id, lease: Time, mode: Mode) {
    (e.Claim? || e.Commit?) && e.w == w && e.grab.lease == lease && e.grab.mode == mode && Holds(e.grab.picked, x)
  }

  lemma {:induction false} TodoWasGranted(run: seq<Event>, w: WorkerId, i: nat) returns (k: nat)
    requires Legal(run) && WorkerOf(After(run), w).Handling? && i < |WorkerOf(After(run), w).todo|
    ensures k < |run|
    ensures var worker := WorkerOf(After(run), w); GrantedBy(run[k], w, worker.todo[i].id, worker.lease, worker.mode)
  {
    var n := |run| - 1;
    var worker := WorkerOf(After(run), w);
    if (run[n].Claim? || run[n].Commit?) && run[n].w == w {
      k := n;
      assert run[n].grab.picked[i].id == worker.todo[i].id;
    } else {
      k := TodoWasGranted(run[..n], w, if run[n].MarkIt? && run[n].w == w then i + 1 else i);
    }
  }

  /** A worker with an open transaction has selected it. */
  lemma {:induction false} SelectedByGrab(run: seq<Event>, w: WorkerId) returns (k: nat)
    requires Legal(run) && WorkerOf(After(run), w).Selected?
    ensures k < |run| && run[k].Select? && run[k].w == w && run[k].grab == WorkerOf(After(run), w).grab
  {
    var n := |run| - 1;
    if run[n].Select? && run[n].w == w {
      k := n;
    } else {
      k := SelectedByGrab(run[..n], w);
    }
  }

  /** Every publisher or handler call is for a row its worker claimed before, with that claim's lease and mode. */
  lemma CallFollowsClaim(run: seq<Event>, k: nat) returns (i: nat)
    requires Legal(run) && k < |run| && run[k].Call?
    ensures i < k && (run[i].Claim? || run[i].Commit?) && run[i].w == run[k].w
    ensures run[i].grab.lease == run[k].lease && run[i].grab.mode == run[k].mode && Holds(run[i].grab.picked, run[k].id)
  {
    LegalAt(run, k);
    i := TodoWasGranted(run[..k], run[k].w, 0);
  }

  lemma {:induction false} VerdictWasGiven(run: seq<Event>, w: WorkerId) returns (k: nat)
    requires Legal(run) && WorkerOf(After(run), w).Handling? && WorkerOf(After(run), w).verdict.Some?
    ensures k < |run| && run[k].Call? && run[k].w == w
    ensures var worker := WorkerOf(After(run), w);
      worker.todo != [] && run[k].id == worker.todo[0].id && run[k].verdict == worker.verdict.value && run[k].mode == worker.mode
    ensures Permitted(run[k].mode, run[k].verdict)
  {
    var n := |run| - 1;
    if run[n].Call? && run[n].w == w {
      k := n;
      assert Enabled(After(run[..n]), run[n]);
    } else {
      k := VerdictWasGiven(run[..n], w);
    }
  }

  /**
   * Nothing is falsely done: a row that is `published`/`processed` was the subject of a call
   * that completed, or that the idempotency hook skipped (inbox only), or that the filter
   * found stale (unordered inbox only), by a worker that had claimed it in that very mode.
   */
  lemma {:induction false} DoneWasEarned(run: seq<Event>, x: Id) returns (k: nat, i: nat)
    requires Legal(run) && x in After(run).table && After(run).table[x].status == Done
    ensures i < k < |run| && run[k].Call? && run[k].id == x
    ensures run[k].verdict == Completed || run[k].verdict == Skipped || run[k].verdict == Stale
    ensures run[k].verdict == Skipped ==> run[k].mode != Outbox
    ensures run[k].verdict == Stale ==> run[k].mode == InboxUnordered
    ensures (run[i].Claim? || run[i].Commit?) && run[i].w == run[k].w
    ensures run[i].grab.lease == run[k].lease && run[i].grab.mode == run[k].mode && Holds(run[i].grab.picked, x)
  {
    var n := |run| - 1;
    var s, e := After(run[..n]), run[n];
    SoundAlways(run[..n]);
    if e.MarkIt? && e.id == x {
      k := VerdictWasGiven(run[..n], e.w);
      assert run[..n][k] == run[k];
      i := CallFollowsClaim(run, k);
    } else {
      if x in s.table {
        RowStep(s, e, x);
      }
      k, i := DoneWasEarned(run[..n], x);
    }
  }

  // ---- counts ----

  datatype Fact = RetryMark | FailedMark | ClaimTaken | LeaseReclaimed | CallMade

  predicate Shows(e: Event, fact: Fact, x: Id) {
    match fact
    case RetryMark => e.MarkIt? && e.id == x && e.mark.MarkRetry?
    case FailedMark => e.MarkIt? && e.id == x && e.mark.MarkFailed?
    case ClaimTaken => (e.Claim? || e.Commit?) && Holds(e.grab.picked, x)
    case LeaseReclaimed => (e.Claim? || e.Commit?) && x in e.grab.reclaimed
    case CallMade => e.Call? && e.id == x
  }

  function Count(run: seq<Event>, fact: Fact, x: Id): nat {
    if run == [] then 0
    else Count(run[..|run| - 1], fact, x) + (if Shows(run[|run| - 1], fact, x) then 1 else 0)
  }

  /** An event says something about row `x` only when the row exists. */
  lemma FactsNeedTheRow(s: State, e: Event, x: Id)
    requires Sound(s) && Enabled(s, e)
    ensures x !in s.table ==> forall fact :: !Shows(e, fact, x)
  {
    if e.Claim? || e.Commit? {
      GrabIsUndisturbed(s, e);
    }
  }

  /**
   * Attempt accounting, for every run: `attempts` is the number of retry and failed marks the
   * row received, and every claim but the first is paid for by a retry mark or a reclaim.
   */
  lemma {:induction false} AttemptsAreMarks(run: seq<Event>, x: Id)
    requires Legal(run)
    ensures x !in After(run).table ==> forall fact :: Count(run, fact, x) == 0
    ensures x in After(run).table ==>
      && After(run).table[x].attempts == Count(run, RetryMark, x) + Count(run, FailedMark, x)
      && Count(run, ClaimTaken, x) <= Count(run, RetryMark, x) + Count(run, LeaseReclaimed, x)
                                      + (if After(run).table[x].status == Pending then 0 else 1)
  {
    if run != [] {
      var n := |run| - 1;
      AttemptsAreMarks(run[..n], x);
      SoundAlways(run[..n]);
      var s, e := After(run[..n]), run[n];
      if x !in s.table {
        FactsNeedTheRow(s, e, x);
      } else {
        RowStep(s, e, x);
      }
    }
  }

  // ---- calls per claim ----

  /** The worker has claimed `x` and has not called the publisher or handler for it yet. */
  predicate Awaits(worker: Worker, x: Id) {
    worker.Handling? && exists i :: 0 <= i < |worker.todo| && worker.todo[i].id == x && (i == 0 ==> worker.verdict.None?)
  }

  ghost function Awaiting(s: State, x: Id): set<WorkerId> {
    set w | w in s.workers && Awaits(s.workers[w], x)
  }

  /** Only a claim makes a worker await a row, and a call ends it. */
  lemma AwaitsStep(s: State, e: Event, x: Id)
    requires Sound(s) && Enabled(s, e)
    ensures forall w :: w in Awaiting(Apply(s, e), x) && w !in Awaiting(s, x) ==> Shows(e, ClaimTaken, x) && e.w == w
    ensures Shows(e, CallMade, x) ==> e.w in Awaiting(s, x) && e.w !in Awaiting(Apply(s, e), x)
  {
    var s' := Apply(s, e);
    forall w | w in Awaiting(s', x) && w !in Awaiting(s, x)
      ensures Shows(e, ClaimTaken, x) && e.w == w
    {
      var i :| 0 <= i < |s'.workers[w].todo| && s'.workers[w].todo[i].id == x && (i == 0 ==> s'.workers[w].verdict.None?);
      if (e.Claim? || e.Commit?) && e.w == w {
        assert e.grab.picked[i].id == x;
      }
    }
    if Shows(e, CallMade, x) {
      assert s.workers[e.w].todo[0].id == x;
    }
  }

  lemma AwaitingSize(a: set<WorkerId>, b: set<WorkerId>, added: set<WorkerId>, gone: set<WorkerId>)
    requires b <= a + added && gone <= a && gone !! b
    ensures |b| + |gone| <= |a| + |added|
  {
    assert |b + gone| == |b| + |gone|;
    var all := a + added;
    assert all == (b + gone) + (all - (b + gone));
    assert |all| == |b + gone| + |all - (b + gone)|;
    assert all == a + (added - a) && |all| == |a| + |added - a|;
    assert added == (added - a) + (added * a) && |added| == |added - a| + |added * a|;
  }

  /** One call per claim: a row is handed to the publisher or handler at most once for each time it is claimed. */
  lemma {:induction false} OneCallPerClaim(run: seq<Event>, x: Id)
    requires Legal(run)
    ensures Count(run, CallMade, x) + |Awaiting(After(run), x)| <= Count(run, ClaimTaken, x)
  {
    if run == [] {
      assert Awaiting(Start, x) == {};
    } else {
      var n := |run| - 1;
      OneCallPerClaim(run[..n], x);
      SoundAlways(run[..n]);
      var s, e := After(run[..n]), run[n];
      AwaitsStep(s, e, x);
      AwaitingSize(Awaiting(s, x), Awaiting(Apply(s, e), x),
                   if Shows(e, ClaimTaken, x) then {e.w} else {}, if Shows(e, CallMade, x) then {e.w} else {});
    }
  }

  // ---- successive claims ----

  /** The row's lease of claim `i` ended at `k`: a retry mark, or a reclaim after it expired. */
  predicate EndsLease(e: Event, x: Id, lease: Time) {
    Shows(e, RetryMark, x) || (Shows(e, LeaseReclaimed, x) && lease < e.grab.now)
  }

  /** Neither claims the row nor ends this lease of it. */
  predicate LeavesLease(e: Event, x: Id, lease: Time) {
    !Shows(e, ClaimTaken, x) && !EndsLease(e, x, lease)
  }

  /** The row was finished, or is still being processed under this lease. */
  predicate StillLeased(t: Table, x: Id, lease: Time) {
    x in t && (Terminal(t[x]) || (t[x].status == Processing && t[x].leaseUntil == Some(lease)))
  }

  lemma LeaseStep(s: State, e: Event, x: Id, lease: Time)
    requires Sound(s) && Enabled(s, e) && StillLeased(s.table, x, lease)
    requires LeavesLease(e, x, lease)
    ensures StillLeased(Apply(s, e).table, x, lease)
  {
    RowStep(s, e, x);
  }

  lemma LeaseStarts(s: State, e: Event, x: Id)
    requires Sound(s) && Enabled(s, e) && Shows(e, ClaimTaken, x)
    ensures StillLeased(Apply(s, e).table, x, e.grab.lease)
  {
    FactsNeedTheRow(s, e, x);
    RowStep(s, e, x);
  }

  /** While no lease-ending event and no other claim happens, the row stays leased or is finished. */
  lemma {:induction false} LeaseLasts(run: seq<Event>, i: nat, n: nat, x: Id)
    requires Legal(run) && i < n <= |run| && Shows(run[i], ClaimTaken, x)
    requires forall k :: i < k < n ==> LeavesLease(run[k], x, run[i].grab.lease)
    ensures StillLeased(After(run[..n]).table, x, run[i].grab.lease)
    decreases n
  {
    var s, e := After(run[..n - 1]), run[n - 1];
    LegalAt(run, n - 1);
    SoundAlways(run[..n - 1]);
    if i == n - 1 {
      LeaseStarts(s, e, x);
    } else {
      LeaseLasts(run, i, n - 1, x);
      LeaseStep(s, e, x, run[i].grab.lease);
    }
  }

  /**
   * Lease discipline, for every run: between two successive claims of a row there is a retry
   * mark on it, or a reclaim of it at a `now` strictly after the first claim's lease.
   */
  lemma ClaimsAreSeparated(run: seq<Event>, i: nat, j: nat, x: Id) returns (k: nat)
    requires Legal(run) && i < j < |run|
    requires Shows(run[i], ClaimTaken, x) && Shows(run[j], ClaimTaken, x)
    requires forall k :: i < k < j ==> !Shows(run[k], ClaimTaken, x)
    ensures i < k <= j
    ensures || (run[k].MarkIt? && run[k].id == x && run[k].mark.MarkRetry?)
            || ((run[k].Claim? || run[k].Commit?) && x in run[k].grab.reclaimed && run[i].grab.lease < run[k].grab.now)
  {
    if k' :| i < k' < j && !LeavesLease(run[k'], x, run[i].grab.lease) {
      k := k';
    } else {
      LeaseLasts(run, i, j, x);
      k := j;
      var s, e := After(run[..j]), run[j];
      LegalAt(run, j);
      SoundAlways(run[..j]);
      RowStep(s, e, x);
    }
  }
}
