/** The claim query's answer: it always exists, it is the exact oldest prefix, and it never starves the table. */
module ClaimBatches {
  import opened MessageTable

  function Candidates(t: Table, now: Time, mode: Mode, skipped: set<Id>): set<Id> {
    set x | x in t && Eligible(t, x, now, mode) && x !in skipped
  }

  lemma Member(ids: set<Id>) returns (x: Id)
    requires ids != {}
    ensures x in ids
  {
    if forall y :: y !in ids {
      assert false;
    }
    x :| x in ids;
  }

  lemma {:induction false} OldestExists(t: Table, ids: set<Id>) returns (oldest: Id)
    requires ids != {} && ids <= t.Keys
    ensures oldest in ids && forall x :: x in ids ==> t[oldest].identity.stampedAt <= t[x].identity.stampedAt
  {
    var y := Member(ids);
    if forall x :: x in ids ==> x == y {
      oldest := y;
    } else {
      var z :| z in ids && z != y;
      assert z in ids - {y};
      var rest := OldestExists(t, ids - {y});
      oldest := if t[y].identity.stampedAt <= t[rest].identity.stampedAt then y else rest;
    }
  }

  /** `picked` is a choice of the `limit` oldest of `ids`. */
  ghost predicate IsOldest(t: Table, ids: set<Id>, limit: nat, picked: seq<Claimed>)
    requires ids <= t.Keys
  {
    && Distinct(picked) && |picked| <= limit
    && (forall i :: 0 <= i < |picked| ==> picked[i].id in ids && picked[i].row == t[picked[i].id])
    && (forall x :: x in ids && !Holds(picked, x) ==>
          |picked| == limit && forall i :: 0 <= i < |picked| ==> picked[i].row.identity.stampedAt <= t[x].identity.stampedAt)
  }

  lemma OldestFirst(t: Table, ids: set<Id>, limit: nat, oldest: Id, rest: seq<Claimed>)
    requires ids <= t.Keys && oldest in ids && limit > 0
    requires forall x :: x in ids ==> t[oldest].identity.stampedAt <= t[x].identity.stampedAt
    requires IsOldest(t, ids - {oldest}, limit - 1, rest)
    ensures IsOldest(t, ids, limit, [Claimed(oldest, t[oldest])] + rest)
  {
    var picked := [Claimed(oldest, t[oldest])] + rest;
    assert picked[0].id == oldest;
    assert forall i :: 0 < i < |picked| ==> picked[i] == rest[i - 1];
    forall x | x in ids && !Holds(picked, x)
      ensures x != oldest && !Holds(rest, x)
    {
      assert forall i :: 0 <= i < |rest| ==> picked[i + 1] == rest[i];
    }
  }

  lemma {:induction false} OldestOf(t: Table, ids: set<Id>, limit: nat) returns (picked: seq<Claimed>)
    requires ids <= t.Keys
    ensures IsOldest(t, ids, limit, picked)
  {
    if limit == 0 || ids == {} {
      picked := [];
    } else {
      var oldest := OldestExists(t, ids);
      var rest := OldestOf(t, ids - {oldest}, limit - 1);
      picked := [Claimed(oldest, t[oldest])] + rest;
      OldestFirst(t, ids, limit, oldest, rest);
    }
  }

  /** The claim query can always be answered. */
  lemma BatchExists(t: Table, now: Time, mode: Mode, limit: nat, skipped: set<Id>) returns (picked: seq<Claimed>)
    ensures IsBatch(t, now, mode, limit, skipped, picked)
  {
    picked := OldestOf(t, Candidates(t, now, mode, skipped), limit);
  }

  function Ids(picked: seq<Claimed>): (ids: set<Id>)
    ensures forall x :: x in ids <==> Holds(picked, x)
  {
    set i | 0 <= i < |picked| :: picked[i].id
  }

  lemma {:induction false} DistinctSize(picked: seq<Claimed>)
    requires Distinct(picked)
    ensures |Ids(picked)| == |picked|
  {
    if picked != [] {
      var n := |picked| - 1;
      DistinctSize(picked[..n]);
      forall x | x in Ids(picked) ensures x in Ids(picked[..n]) + {picked[n].id} {
        var i :| 0 <= i < |picked| && picked[i].id == x;
        assert i < n ==> picked[..n][i].id == x;
      }
      forall x | x in Ids(picked[..n]) ensures x in Ids(picked) && x != picked[n].id {
        var i :| 0 <= i < n && picked[..n][i].id == x;
        assert picked[i].id == x;
      }
      assert Ids(picked) == Ids(picked[..n]) + {picked[n].id};
    }
  }

  lemma SubsetSize(a: set<Id>, b: set<Id>)
    requires a <= b
    ensures |a| <= |b| && (|a| == |b| ==> a == b)
  {
    assert b == a + (b - a);
    assert |b| == |a| + |b - a|;
  }

  /** A batch takes min(limit, eligible) rows, and none of them is newer than an eligible row left behind. */
  lemma BatchIsOldestPrefix(t: Table, now: Time, mode: Mode, limit: nat, skipped: set<Id>, picked: seq<Claimed>)
    requires IsBatch(t, now, mode, limit, skipped, picked)
    ensures Ids(picked) <= Candidates(t, now, mode, skipped)
    ensures |picked| == if |Candidates(t, now, mode, skipped)| < limit then |Candidates(t, now, mode, skipped)| else limit
    ensures forall x, y :: x in Ids(picked) && y in Candidates(t, now, mode, skipped) - Ids(picked) ==>
      t[x].identity.stampedAt <= t[y].identity.stampedAt
  {
    var all := Candidates(t, now, mode, skipped);
    DistinctSize(picked);
    forall x | x in Ids(picked) ensures x in all {
      var i :| 0 <= i < |picked| && picked[i].id == x;
    }
    SubsetSize(Ids(picked), all);
    if forall x :: x in all ==> x in Ids(picked) {
      SubsetSize(all, Ids(picked));
    } else {
      var x :| x in all && x !in Ids(picked);
      assert |picked| == limit;
    }
  }

  /** One batch holds a single stamp per key: a FIFO batch never mixes generations of a key. */
  lemma OneStampPerKey(t: Table, now: Time, mode: Mode, limit: nat, skipped: set<Id>, picked: seq<Claimed>, i: nat, j: nat)
    requires IsBatch(t, now, mode, limit, skipped, picked) && mode != InboxUnordered
    requires i < |picked| && j < |picked|
    requires var a, b := picked[i].row.identity.envelope.metadata, picked[j].row.identity.envelope.metadata;
      a.eventType == b.eventType && a.orderingKey.Some? && a.orderingKey == b.orderingKey
    ensures picked[i].row.identity.stampedAt == picked[j].row.identity.stampedAt
  {
    assert Eligible(t, picked[i].id, now, mode) && Eligible(t, picked[j].id, now, mode);
    assert !Precedes(t[picked[i].id].identity, t[picked[j].id].identity);
    assert !Precedes(t[picked[j].id].identity, t[picked[i].id].identity);
  }

  /**
   * The claim's WHERE clause, in columns: a row is eligible exactly when it is pending, due and,
   * unless the query is unordered or the row has no ordering key, no pending or processing row
   * of the same event type and ordering key has a smaller stamp.
   */
  lemma EligibleExactlyWhen(t: Table, x: Id, now: Time, mode: Mode)
    requires x in t
    ensures Eligible(t, x, now, mode) <==>
      && t[x].status == Pending && t[x].availableAt <= now
      && (|| mode == InboxUnordered
          || t[x].identity.envelope.metadata.orderingKey.None?
          || !exists y :: y in t
               && (t[y].status == Pending || t[y].status == Processing)
               && t[y].identity.envelope.metadata.eventType == t[x].identity.envelope.metadata.eventType
               && t[y].identity.envelope.metadata.orderingKey == t[x].identity.envelope.metadata.orderingKey
               && t[y].identity.stampedAt < t[x].identity.stampedAt)
  {
    assert mode != InboxUnordered ==> (Eligible(t, x, now, mode) <==>
      t[x].status == Pending && t[x].availableAt <= now && GateOpen(t, t[x].identity));
    forall y | y in t
      ensures Precedes(t[y].identity, t[x].identity) <==>
        && t[x].identity.envelope.metadata.orderingKey.Some?
        && t[y].identity.envelope.metadata.eventType == t[x].identity.envelope.metadata.eventType
        && t[y].identity.envelope.metadata.orderingKey == t[x].identity.envelope.metadata.orderingKey
        && t[y].identity.stampedAt < t[x].identity.stampedAt
    {
    }
  }

  /** No deadlock: with active rows, all available and none being processed, the gates let some row through. */
  lemma NeverDeadlocks(t: Table, now: Time, mode: Mode, x: Id) returns (oldest: Id)
    requires x in t && Active(t[x])
    requires forall y :: y in t && Active(t[y]) ==> t[y].status == Pending && t[y].availableAt <= now
    ensures Eligible(t, oldest, now, mode)
  {
    var active := set y | y in t && Active(t[y]);
    assert x in active;
    oldest := OldestExists(t, active);
    forall y | y in t && Precedes(t[y].identity, t[oldest].identity)
      ensures Terminal(t[y])
    {
      assert Active(t[y]) ==> y in active;
    }
  }
}
