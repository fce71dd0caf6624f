/** No starvation: how often claims can pass over a row that was ready to be claimed. */
module Starvation {
  import opened MessageTable
  import opened Protocol
  import opened RunFacts
  import opened History
  import opened Leases
  import opened ClaimBatches

  /** The claim could have taken row `r`, found it unlocked, and left it behind. */
  ghost predicate PassesOver(s: State, e: Event, r: Id) {
    e.Claim? && Eligible(View(s.table, e.grab), r, e.grab.now, e.grab.mode) && r !in e.grab.skipped && !Holds(e.grab.picked, r)
  }

  /** The batch limits of all claims of the run that pass over `r`, added up. */
  ghost function PassedOver(run: seq<Event>, r: Id): nat {
    if run == [] then 0 else
      var n := |run| - 1;
      PassedOver(run[..n], r) + if PassesOver(After(run[..n]), run[n], r) then run[n].grab.limit else 0
  }

  /** The rows received with a stamp of at most `stamp`, in order of receipt. */
  function UpTo(run: seq<Event>, stamp: Time): seq<Id> {
    if run == [] then [] else
      var n := |run| - 1;
      UpTo(run[..n], stamp) + if Inserts(run[n]) && run[n].identity.stampedAt <= stamp then [run[n].id] else []
  }

  lemma {:induction false} UpToIsComplete(run: seq<Event>, stamp: Time, x: Id)
    requires Legal(run) && x in After(run).table && After(run).table[x].identity.stampedAt <= stamp
    ensures x in UpTo(run, stamp)
  {
    var n := |run| - 1;
    if x in After(run[..n]).table {
      RowFrame(After(run[..n]), run[n], x);
      UpToIsComplete(run[..n], stamp, x);
    }
  }

  lemma {:induction false} UpToIsInTable(run: seq<Event>, stamp: Time, x: Id)
    requires Legal(run) && x in UpTo(run, stamp)
    ensures x in After(run).table && After(run).table[x].identity.stampedAt <= stamp
  {
    var n := |run| - 1;
    if x in UpTo(run[..n], stamp) {
      UpToIsInTable(run[..n], stamp, x);
      RowFrame(After(run[..n]), run[n], x);
    }
  }

  /** `UpTo` lists each row once, so sums over it are sums over rows. */
  lemma {:induction false} UpToListsOnce(run: seq<Event>, stamp: Time)
    requires Legal(run)
    ensures forall i, j :: 0 <= i < j < |UpTo(run, stamp)| ==> UpTo(run, stamp)[i] != UpTo(run, stamp)[j]
  {
    if run != [] {
      var n := |run| - 1;
      UpToListsOnce(run[..n], stamp);
      var ids := UpTo(run[..n], stamp);
      forall i | 0 <= i < |ids|
        ensures Inserts(run[n]) ==> ids[i] != run[n].id
      {
        UpToIsInTable(run[..n], stamp, ids[i]);
      }
    }
  }

  function TotalClaims(run: seq<Event>, ids: seq<Id>): nat {
    if ids == [] then 0 else TotalClaims(run, ids[..|ids| - 1]) + Count(run, ClaimTaken, ids[|ids| - 1])
  }

  function TakenAmong(ids: seq<Id>, taken: set<Id>): nat {
    if ids == [] then 0 else TakenAmong(ids[..|ids| - 1], taken) + if ids[|ids| - 1] in taken then 1 else 0
  }

  lemma {:induction false} AllAreTaken(ids: seq<Id>, taken: set<Id>)
    requires forall x :: x in taken ==> x in ids
    ensures |taken| <= TakenAmong(ids, taken)
  {
    if ids == [] {
      if taken != {} {
        var x := Member(taken);
      }
    } else {
      var n := |ids| - 1;
      var smaller := taken - {ids[n]};
      forall x | x in smaller ensures x in ids[..n] {
        assert x in ids;
      }
      AllAreTaken(ids[..n], smaller);
      FewerTaken(ids[..n], smaller, taken);
      if ids[n] in taken {
        assert taken == smaller + {ids[n]};
      } else {
        assert taken == smaller;
      }
    }
  }

  lemma {:induction false} FewerTaken(ids: seq<Id>, a: set<Id>, b: set<Id>)
    requires a <= b
    ensures TakenAmong(ids, a) <= TakenAmong(ids, b)
  {
    if ids != [] {
      FewerTaken(ids[..|ids| - 1], a, b);
    }
  }

  lemma {:induction false} TotalClaimsStep(run: seq<Event>, e: Event, ids: seq<Id>)
    ensures TotalClaims(run, ids) <= TotalClaims(run + [e], ids)
    ensures e.Claim? ==> TotalClaims(run + [e], ids) == TotalClaims(run, ids) + TakenAmong(ids, Ids(e.grab.picked))
  {
    if ids != [] {
      TotalClaimsStep(run, e, ids[..|ids| - 1]);
      assert (run + [e])[..|run|] == run;
    }
  }

  /** A claim that passes over `r` takes a full batch of rows no newer than `r`. */
  lemma PassTakesOlderRows(run: seq<Event>, r: Id)
    requires Legal(run) && run != [] && PassesOver(After(run[..|run| - 1]), run[|run| - 1], r)
    ensures r in After(run[..|run| - 1]).table
    ensures var n, g := |run| - 1, run[|run| - 1].grab;
      && |g.picked| == g.limit && |Ids(g.picked)| == g.limit
      && forall x :: x in Ids(g.picked) ==> x in UpTo(run[..n], After(run[..n]).table[r].identity.stampedAt)
  {
    var n := |run| - 1;
    var t, g := After(run[..n]).table, run[n].grab;
    DistinctSize(g.picked);
    forall x | x in Ids(g.picked)
      ensures x in UpTo(run[..n], t[r].identity.stampedAt)
    {
      var i :| 0 <= i < |g.picked| && g.picked[i].id == x;
      UpToIsComplete(run[..n], t[r].identity.stampedAt, x);
    }
  }

  lemma {:induction false} PassesAreClaims(run: seq<Event>, r: Id, stamp: Time)
    requires Legal(run) && (r in After(run).table ==> After(run).table[r].identity.stampedAt == stamp)
    ensures PassedOver(run, r) <= TotalClaims(run, UpTo(run, stamp))
  {
    if run != [] {
      var n := |run| - 1;
      var pre, e, ids := run[..n], run[n], UpTo(run[..n], stamp);
      assert run == pre + [e];
      if r in After(pre).table {
        RowFrame(After(pre), e, r);
      }
      PassesAreClaims(pre, r, stamp);
      TotalClaimsStep(pre, e, ids);
      if PassesOver(After(pre), e, r) {
        PassTakesOlderRows(run, r);
        AllAreTaken(ids, Ids(e.grab.picked));
        assert UpTo(run, stamp) == ids;
      } else if UpTo(run, stamp) != ids {
        assert UpTo(run, stamp)[..|ids|] == ids;
      }
    }
  }

  /** max(1, max_attempts) of the row plus the number of times its lease was reclaimed. */
  function Allowance(run: seq<Event>, x: Id): (a: nat)
    ensures x in After(run).table ==>
      var max := After(run).table[x].identity.maxAttempts;
      a == (if max < 1 then 1 else max) + Count(run, LeaseReclaimed, x)
  {
    (if x in After(run).table then Ceiling(After(run).table[x].identity) else 0) + Count(run, LeaseReclaimed, x)
  }

  function TotalAllowance(run: seq<Event>, ids: seq<Id>): nat {
    if ids == [] then 0 else TotalAllowance(run, ids[..|ids| - 1]) + Allowance(run, ids[|ids| - 1])
  }

  lemma {:induction false} ClaimsWithinAllowance(run: seq<Event>, ids: seq<Id>)
    requires Legal(run) && WithinLease(run) && forall x :: x in ids ==> x in After(run).table
    ensures TotalClaims(run, ids) <= TotalAllowance(run, ids)
    decreases ids
  {
    if ids != [] {
      ClaimsWithinAllowance(run, ids[..|ids| - 1]);
      ClaimsBounded(run, ids[|ids| - 1]);
    }
  }

  /**
   * No starvation: the claims that pass over a ready row, each counted with its batch limit,
   * never exceed what the rows of no later stamp may use up: max(1, max_attempts) claims each,
   * plus one for each time a lease on them ran out.
   */
  lemma NoStarvation(run: seq<Event>, r: Id)
    requires Legal(run) && WithinLease(run) && r in After(run).table
    ensures PassedOver(run, r) <= TotalAllowance(run, UpTo(run, After(run).table[r].identity.stampedAt))
  {
    var stamp := After(run).table[r].identity.stampedAt;
    PassesAreClaims(run, r, stamp);
    forall x | x in UpTo(run, stamp) ensures x in After(run).table {
      UpToIsInTable(run, stamp, x);
    }
    ClaimsWithinAllowance(run, UpTo(run, stamp));
  }

  /** With one batch size for all claims: the number of passes times the limit. */
  ghost function Passes(run: seq<Event>, r: Id): nat {
    if run == [] then 0 else
      var n := |run| - 1;
      Passes(run[..n], r) + if PassesOver(After(run[..n]), run[n], r) then 1 else 0
  }

  lemma {:induction false} PassesTimesLimit(run: seq<Event>, r: Id, limit: nat)
    requires forall i :: 0 <= i < |run| && run[i].Claim? ==> run[i].grab.limit == limit
    ensures PassedOver(run, r) == Passes(run, r) * limit
  {
    if run != [] {
      PassesTimesLimit(run[..|run| - 1], r, limit);
    }
  }
}
