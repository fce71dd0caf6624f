/** What runs keep when no worker outlives its lease (hypothesis H1, `WithinLease`). */
module Leases {
  import opened Wrappers
  import opened MessageTable
  import opened Protocol
  import opened RunFacts
  import opened History

  /** Worker `w` holds row `x` at time `clock`: `x` is in its batch and its lease has not expired. */
  ghost predicate HoldsRow(s: State, w: WorkerId, x: Id, clock: Time) {
    var worker := WorkerOf(s, w);
    worker.Handling? && clock <= worker.lease && Holds(worker.todo, x)
  }

  /** A batch whose lease runs to `lease` is exactly what the table says, leased to that time. */
  ghost predicate Current(t: Table, lease: Time, todo: seq<Claimed>) {
    forall i :: 0 <= i < |todo| ==>
      && todo[i].id in t && t[todo[i].id] == todo[i].row
      && todo[i].row.status == Processing && todo[i].row.leaseUntil == Some(lease)
  }

  ghost predicate Exclusive(s: State, clock: Time) {
    && (forall w :: w in s.workers && s.workers[w].Handling? && clock <= s.workers[w].lease ==>
          Current(s.table, s.workers[w].lease, s.workers[w].todo))
    && (forall w :: w in s.workers && s.workers[w].Selected? ==> s.workers[w].grab.now <= clock)
    && (forall v, w, x :: v != w && HoldsRow(s, v, x, clock) ==> !HoldsRow(s, w, x, clock))
  }

  /** A row some worker holds is not written by anything but that worker's own mark. */
  lemma HeldRowIsSafe(s: State, e: Event, clock: Time, w: WorkerId, x: Id)
    requires Sound(s) && Exclusive(s, clock) && Enabled(s, e) && Timely(e) && clock <= e.at
    requires HoldsRow(s, w, x, e.at)
    ensures Writes(e, x) ==> e.MarkIt? && e.w == w
  {
    var worker := s.workers[w];
    assert Current(s.table, worker.lease, worker.todo);
    var i :| 0 <= i < |worker.todo| && worker.todo[i].id == x;
    assert s.table[x] == worker.todo[i].row;
    RowStep(s, e, x);
    if e.MarkIt? && e.id == x && e.w != w {
      assert HoldsRow(s, e.w, x, clock) by {
        assert s.workers[e.w].todo[0].id == x;
      }
      assert HoldsRow(s, w, x, clock);
    }
  }

  /** An unfinished batch that a step does not touch stays current. */
  lemma CurrentStep(s: State, e: Event, clock: Time, w: WorkerId)
    requires Sound(s) && Exclusive(s, clock) && Enabled(s, e) && Timely(e) && clock <= e.at
    requires w in s.workers && s.workers[w].Handling? && e.at <= s.workers[w].lease
    requires !(e.Claim? || e.Commit?) || e.w != w
    ensures var worker := WorkerOf(Apply(s, e), w); worker.Handling? ==> Current(Apply(s, e).table, worker.lease, worker.todo)
  {
    var worker, worker' := s.workers[w], WorkerOf(Apply(s, e), w);
    assert Current(s.table, worker.lease, worker.todo);
    if worker'.Handling? {
      var d := if e.MarkIt? && e.w == w then 1 else 0;
      assert worker'.todo == worker.todo[d..] && worker'.lease == worker.lease;
      forall i | 0 <= i < |worker'.todo|
        ensures worker'.todo[i].id in Apply(s, e).table
        ensures Apply(s, e).table[worker'.todo[i].id] == s.table[worker'.todo[i].id]
      {
        var x := worker'.todo[i].id;
        assert worker.todo[i + d].id == x;
        RowFrame(s, e, x);
        HeldRowIsSafe(s, e, clock, w, x);
        assert !Writes(e, x) by {
          if e.MarkIt? && e.w == w {
            assert worker.todo[0].id != x;
          }
        }
      }
    }
  }

  /** A claim makes the worker's batch current. */
  lemma CurrentStart(s: State, e: Event)
    requires Sound(s) && Enabled(s, e) && (e.Claim? || e.Commit?)
    ensures var worker := WorkerOf(Apply(s, e), e.w); Current(Apply(s, e).table, worker.lease, worker.todo)
  {
    GrabIsUndisturbed(s, e);
    var g := e.grab;
    forall i | 0 <= i < |g.picked|
      ensures g.picked[i].id in Apply(s, e).table
      ensures Apply(s, e).table[g.picked[i].id] == ClaimRow(g.picked[i].row, g.now, g.lease)
    {
      assert Holds(g.picked, g.picked[i].id);
    }
  }

  /** Rows handed out by a claim were held by nobody. */
  lemma NewBatchIsFree(s: State, e: Event, clock: Time, v: WorkerId, x: Id)
    requires Sound(s) && Exclusive(s, clock) && Enabled(s, e) && Timely(e) && clock <= e.at
    requires (e.Claim? || e.Commit?) && v != e.w && HoldsRow(s, v, x, e.at)
    ensures !Holds(e.grab.picked, x)
  {
    HeldRowIsSafe(s, e, clock, v, x);
  }

  /** After a step, whoever holds a row held it before or has just claimed it. */
  lemma HolderBefore(s: State, e: Event, clock: Time, w: WorkerId, x: Id)
    requires Enabled(s, e) && clock <= e.at && HoldsRow(Apply(s, e), w, x, e.at)
    ensures HoldsRow(s, w, x, e.at) || ((e.Claim? || e.Commit?) && e.w == w && Holds(e.grab.picked, x))
  {
    var worker' := WorkerOf(Apply(s, e), w);
    var i :| 0 <= i < |worker'.todo| && worker'.todo[i].id == x;
    if (e.Claim? || e.Commit?) && e.w == w {
      assert e.grab.picked[i].id == x;
    } else {
      var d := if e.MarkIt? && e.w == w then 1 else 0;
      assert WorkerOf(s, w).todo[i + d].id == x;
    }
  }

  lemma ExclusiveStep(s: State, e: Event, clock: Time)
    requires Sound(s) && Exclusive(s, clock) && Enabled(s, e) && Timely(e) && clock <= e.at
    ensures Exclusive(Apply(s, e), e.at)
  {
    var s' := Apply(s, e);
    forall w | w in s'.workers && s'.workers[w].Handling? && e.at <= s'.workers[w].lease
      ensures Current(s'.table, s'.workers[w].lease, s'.workers[w].todo)
    {
      if (e.Claim? || e.Commit?) && e.w == w {
        CurrentStart(s, e);
      } else {
        CurrentStep(s, e, clock, w);
      }
    }
    forall v, w, x | v != w && HoldsRow(s', v, x, e.at)
      ensures !HoldsRow(s', w, x, e.at)
    {
      if HoldsRow(s', w, x, e.at) {
        HolderBefore(s, e, clock, v, x);
        HolderBefore(s, e, clock, w, x);
        if HoldsRow(s, v, x, e.at) && HoldsRow(s, w, x, e.at) {
          assert HoldsRow(s, v, x, clock) && HoldsRow(s, w, x, clock);
        } else if HoldsRow(s, v, x, e.at) {
          NewBatchIsFree(s, e, clock, v, x);
        } else {
          NewBatchIsFree(s, e, clock, w, x);
        }
      }
    }
  }

  function Clock(run: seq<Event>): Time {
    if run == [] then 0 else run[|run| - 1].at
  }

  lemma {:induction false} ExclusiveAlways(run: seq<Event>)
    requires Legal(run) && WithinLease(run)
    ensures Exclusive(After(run), Clock(run))
  {
    if run != [] {
      var n := |run| - 1;
      var before, e := run[..n], run[n];
      PrefixWithinLease(run);
      ExclusiveAlways(before);
      SoundAlways(before);
      ExclusiveStep(After(before), e, if n == 0 then e.at else Clock(before));
    }
  }

  lemma PrefixWithinLease(run: seq<Event>)
    requires WithinLease(run) && run != []
    ensures var n := |run| - 1; WithinLease(run[..n]) && Timely(run[n]) && (n > 0 ==> Clock(run[..n]) <= run[n].at)
  {
  }

  /** The states before each event, with the facts the theorems below start from. */
  lemma Before(run: seq<Event>, k: nat)
    requires Legal(run) && WithinLease(run) && k < |run|
    ensures Sound(After(run[..k])) && Exclusive(After(run[..k]), Clock(run[..k]))
    ensures k > 0 ==> Clock(run[..k]) <= run[k].at
    ensures Enabled(After(run[..k]), run[k]) && Timely(run[k])
    ensures After(run[..k + 1]) == Apply(After(run[..k]), run[k])
  {
    LegalAt(run, k);
    SoundAlways(run[..k]);
    ExclusiveAlways(run[..k]);
  }

  /** At most one worker holds a row at any time. */
  lemma OneHolder(run: seq<Event>, v: WorkerId, w: WorkerId, x: Id)
    requires Legal(run) && WithinLease(run)
    requires v in After(run).workers && After(run).workers[v].Handling? && Holds(After(run).workers[v].todo, x)
    requires w in After(run).workers && After(run).workers[w].Handling? && Holds(After(run).workers[w].todo, x)
    requires run != [] ==> run[|run| - 1].at <= After(run).workers[v].lease && run[|run| - 1].at <= After(run).workers[w].lease
    ensures v == w
  {
    assert run != [];
    assert HoldsRow(After(run), v, x, Clock(run)) && HoldsRow(After(run), w, x, Clock(run));
    ExclusiveAlways(run);
  }

  /** Every call and every mark finds its row exactly as the worker claimed it, under its own lease. */
  lemma WorkFindsItsLease(run: seq<Event>, k: nat)
    requires Legal(run) && WithinLease(run) && k < |run| && (run[k].Call? || run[k].MarkIt?)
    ensures var s, e := After(run[..k]), run[k];
      && WorkerOf(s, e.w).Handling? && WorkerOf(s, e.w).todo != []
      && WorkerOf(s, e.w).todo[0].id == e.id && e.id in s.table
      && s.table[e.id] == WorkerOf(s, e.w).todo[0].row
      && s.table[e.id].status == Processing && s.table[e.id].leaseUntil == Some(e.lease)
  {
    Before(run, k);
    var s, e := After(run[..k]), run[k];
    assert Current(s.table, s.workers[e.w].lease, s.workers[e.w].todo);
  }

  lemma TerminalStep(run: seq<Event>, k: nat, x: Id)
    requires Legal(run) && WithinLease(run) && k < |run|
    requires x in After(run[..k]).table && Terminal(After(run[..k]).table[x])
    ensures x in After(run[..k + 1]).table && After(run[..k + 1]).table[x] == After(run[..k]).table[x]
  {
    Before(run, k);
    RowStep(After(run[..k]), run[k], x);
    if run[k].MarkIt? && run[k].id == x {
      WorkFindsItsLease(run, k);
    }
  }

  /** Published, processed and failed rows are final: nothing in them ever changes again. */
  lemma {:induction false} TerminalIsForever(run: seq<Event>, n: nat, m: nat, x: Id)
    requires Legal(run) && WithinLease(run) && n <= m <= |run|
    requires x in After(run[..n]).table && Terminal(After(run[..n]).table[x])
    ensures x in After(run[..m]).table && After(run[..m]).table[x] == After(run[..n]).table[x]
    decreases m
  {
    if n < m {
      TerminalIsForever(run, n, m - 1, x);
      TerminalStep(run, m - 1, x);
    }
  }

  /** No row is tried more often than its ceiling allows, and only failed rows reach it. */
  ghost predicate AttemptsBounded(t: Table) {
    forall x :: x in t ==>
      && t[x].attempts <= Ceiling(t[x].identity)
      && (t[x].status != Failed ==> t[x].attempts < Ceiling(t[x].identity))
  }

  lemma {:induction false} AttemptsStayBounded(run: seq<Event>)
    requires Legal(run) && WithinLease(run)
    ensures AttemptsBounded(After(run).table)
    ensures forall x :: x in After(run).table ==>
      var r := After(run).table[x];
      var ceiling := if r.identity.maxAttempts < 1 then 1 else r.identity.maxAttempts;
      r.attempts <= ceiling && (r.status != Failed ==> r.attempts < ceiling)
  {
    if run != [] {
      var n := |run| - 1;
      AttemptsStayBounded(run[..n]);
      var s, e := After(run[..n]), run[n];
      Before(run, n);
      forall x | x in Apply(s, e).table
        ensures var r := Apply(s, e).table[x];
          r.attempts <= Ceiling(r.identity) && (r.status != Failed ==> r.attempts < Ceiling(r.identity))
      {
        if x in s.table {
          RowStep(s, e, x);
          if e.MarkIt? && e.id == x {
            WorkFindsItsLease(run, n);
          }
        }
      }
    }
  }

  /** Within leases a row is claimed at most max(1, max_attempts) times plus once per reclaim. */
  lemma ClaimsBounded(run: seq<Event>, x: Id)
    requires Legal(run) && WithinLease(run) && x in After(run).table
    ensures Count(run, ClaimTaken, x) <= Ceiling(After(run).table[x].identity) + Count(run, LeaseReclaimed, x)
  {
    var claims, retries, reclaims := Count(run, ClaimTaken, x), Count(run, RetryMark, x), Count(run, LeaseReclaimed, x);
    var r := After(run).table[x];
    assert claims <= retries + reclaims + (if r.status == Pending then 0 else 1) && r.attempts == retries + Count(run, FailedMark, x) by {
      AttemptsAreMarks(run, x);
    }
    assert r.attempts <= Ceiling(r.identity) && (r.status != Failed ==> r.attempts < Ceiling(r.identity)) by {
      AttemptsStayBounded(run);
    }
    assert Count(run, FailedMark, x) == if r.status == Failed then 1 else 0 by {
      FailedMarksEnd(run, x);
    }
  }

  /** Within leases a row is delivered at most max(1, max_attempts) times plus once per reclaim. */
  lemma DeliveriesBounded(run: seq<Event>, x: Id)
    requires Legal(run) && WithinLease(run) && x in After(run).table
    ensures var max := After(run).table[x].identity.maxAttempts;
      Count(run, CallMade, x) <= (if max < 1 then 1 else max) + Count(run, LeaseReclaimed, x)
  {
    OneCallPerClaim(run, x);
    ClaimsBounded(run, x);
  }

  /** A failed mark is the last mark: at most one, and only on a failed row. */
  lemma {:induction false} FailedMarksEnd(run: seq<Event>, x: Id)
    requires Legal(run) && WithinLease(run) && x in After(run).table
    ensures Count(run, FailedMark, x) == if After(run).table[x].status == Failed then 1 else 0
  {
    var n := |run| - 1;
    var s, e := After(run[..n]), run[n];
    Before(run, n);
    if x in s.table {
      FailedMarksEnd(run[..n], x);
      RowStep(s, e, x);
      if e.MarkIt? && e.id == x {
        WorkFindsItsLease(run, n);
      }
    } else {
      AttemptsAreMarks(run[..n], x);
    }
  }

  // ---- verdicts and marks ----

  /**
   * Every mark says what the call before it decided: completed, skipped and stale records are
   * finished, rejected ones fail, and retryable ones are rescheduled while the row has an
   * attempt left after this one, and fail otherwise.
   */
  lemma MarkFollowsVerdict(run: seq<Event>, j: nat) returns (k: nat)
    requires Legal(run) && WithinLease(run) && j < |run| && run[j].MarkIt?
    ensures k < j && run[k].Call? && run[k].w == run[j].w && run[k].id == run[j].id
    ensures run[j].id in After(run[..j]).table
    ensures var r := After(run[..j]).table[run[j].id];
      match run[k].verdict
      case Completed => run[j].mark.MarkDone?
      case Skipped => run[j].mark.MarkDone?
      case Stale => run[j].mark.MarkDone?
      case Rejected(error) => run[j].mark.MarkFailed? && run[j].mark.error == error
      case Retryable(error) =>
        && (r.attempts + 1 < r.identity.maxAttempts ==> run[j].mark.MarkRetry? && run[j].mark.error == error)
        && (r.attempts + 1 >= r.identity.maxAttempts ==> run[j].mark.MarkFailed? && run[j].mark.error == error)
  {
    WorkFindsItsLease(run, j);
    LegalAt(run, j);
    k := VerdictWasGiven(run[..j], run[j].w);
  }

  /** A row fails early only if it was rejected: otherwise it has used up every attempt it was entitled to. */
  lemma {:induction false} FailedUsedItsAttempts(run: seq<Event>, x: Id)
    requires Legal(run) && WithinLease(run) && x in After(run).table && After(run).table[x].status == Failed
    requires forall k :: 0 <= k < |run| && run[k].Call? && run[k].id == x ==> !run[k].verdict.Rejected?
    ensures var r := After(run).table[x];
      r.attempts == if r.identity.maxAttempts < 1 then 1 else r.identity.maxAttempts
  {
    var n := |run| - 1;
    var s, e := After(run[..n]), run[n];
    AttemptsStayBounded(run);
    Before(run, n);
    if x in s.table {
      RowStep(s, e, x);
      if e.MarkIt? && e.id == x {
        var k := MarkFollowsVerdict(run, n);
      } else {
        FailedUsedItsAttempts(run[..n], x);
      }
    }
  }
}
