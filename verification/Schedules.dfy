/** When rows become due and what their columns remember, in every run. */
module Schedules {
  import opened Wrappers
  import opened MessageTable
  import opened Protocol
  import opened RunFacts
  import opened History
  import opened Leases

  /** The time the last retry mark on `x` asked for, or the stamp it was received with. */
  function DueAt(run: seq<Event>, x: Id): Time {
    if run == [] then 0
    else
      var e := run[|run| - 1];
      if Shows(e, RetryMark, x) then e.mark.availableAt
      else if Inserts(e) && e.id == x then e.identity.stampedAt
      else DueAt(run[..|run| - 1], x)
  }

  /** The error of the last retry or failed mark on `x`. */
  function LastErrorOf(run: seq<Event>, x: Id): Option<string> {
    if run == [] then None
    else
      var e := run[|run| - 1];
      if Shows(e, RetryMark, x) || Shows(e, FailedMark, x) then Some(e.mark.error) else LastErrorOf(run[..|run| - 1], x)
  }

  /** The columns tell the row's history: when it is due, and why it last failed. */
  lemma {:induction false} ColumnsTellHistory(run: seq<Event>, x: Id)
    requires Legal(run)
    ensures x !in After(run).table ==> LastErrorOf(run, x).None?
    ensures x in After(run).table ==>
      After(run).table[x].availableAt == DueAt(run, x) && After(run).table[x].lastError == LastErrorOf(run, x)
  {
    if run != [] {
      var n := |run| - 1;
      ColumnsTellHistory(run[..n], x);
      SoundAlways(run[..n]);
      var s, e := After(run[..n]), run[n];
      if x in s.table {
        RowStep(s, e, x);
      } else {
        FactsNeedTheRow(s, e, x);
      }
    }
  }

  /** What a query picked was due when it was picked. */
  lemma PickedIsDue(s: State, w: WorkerId, g: Grab, i: nat)
    requires CanGrab(s, w, g) && i < |g.picked|
    ensures g.picked[i].row.availableAt <= g.now
  {
    assert Eligible(View(s.table, g), g.picked[i].id, g.now, g.mode);
  }

  lemma GrantWasDue(run: seq<Event>, j: nat, i: nat)
    requires Legal(run) && j < |run| && (run[j].Claim? || run[j].Commit?) && i < |run[j].grab.picked|
    ensures run[j].grab.picked[i].row.availableAt <= run[j].grab.now
  {
    LegalAt(run, j);
    var k := j;
    if run[j].Commit? {
      k := SelectedByGrab(run[..j], run[j].w);
      LegalAt(run, k);
    }
    PickedIsDue(After(run[..k]), run[k].w, run[k].grab, i);
  }

  lemma GrantShowsRow(s: State, e: Event, i: nat)
    requires Sound(s) && Enabled(s, e) && (e.Claim? || e.Commit?) && i < |e.grab.picked|
    ensures e.grab.picked[i].id in s.table
    ensures e.grab.picked[i].row.availableAt == s.table[e.grab.picked[i].id].availableAt
  {
    GrabIsUndisturbed(s, e);
  }

  /**
   * No early retry: in every run, however late or duplicated its marks and whichever dialect
   * claims, no transaction takes a row at a `now` before the time its last retry mark asked for.
   */
  lemma RetriesAreNeverEarly(run: seq<Event>, j: nat, x: Id)
    requires Legal(run) && j < |run| && Shows(run[j], ClaimTaken, x)
    ensures DueAt(run[..j], x) <= run[j].grab.now
  {
    var i :| 0 <= i < |run[j].grab.picked| && run[j].grab.picked[i].id == x;
    GrantWasDue(run, j, i);
    LegalAt(run, j);
    SoundAlways(run[..j]);
    GrantShowsRow(After(run[..j]), run[j], i);
    ColumnsTellHistory(run[..j], x);
  }

  /** Within leases `published_at`/`processed_at` is set exactly on the rows that are done. */
  lemma {:induction false} FinishedMeansDone(run: seq<Event>, x: Id)
    requires Legal(run) && WithinLease(run) && x in After(run).table
    ensures After(run).table[x].finishedAt.Some? <==> After(run).table[x].status == Done
  {
    var n := |run| - 1;
    var s, e := After(run[..n]), run[n];
    if x in s.table {
      FinishedMeansDone(run[..n], x);
      Before(run, n);
      RowStep(s, e, x);
      if e.MarkIt? && e.id == x {
        WorkFindsItsLease(run, n);
      }
    }
  }
}
