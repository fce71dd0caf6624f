/** Concrete legal runs: each hypothesis of the ordering and exclusivity theorems is needed. */
module Witnesses {
  import opened Wrappers
  import opened MessageTable
  import opened Protocol
  import opened Refinement

  /** `run` is legal and leads to this table and these workers, none of them in a transaction. */
  ghost predicate Leads(run: seq<Event>, t: Table, workers: map<WorkerId, Worker>) {
    Legal(run) && After(run) == State(t, workers) && forall v :: v in workers ==> !workers[v].Selected?
  }

  lemma ReceiveNext(run: seq<Event>, t: Table, workers: map<WorkerId, Worker>, at: Time, x: Id, m: Identity)
    requires Leads(run, t, workers) && x !in t && !Known(t, m)
    ensures Leads(run + [Receive(at, x, m, true)], t[x := PendingRow(m)], workers)
  {
    Extend(run, Receive(at, x, m, true));
  }

  /** A claim by an idle worker while nothing is locked. */
  lemma ClaimNext(run: seq<Event>, t: Table, workers: map<WorkerId, Worker>, w: WorkerId, at: Time, g: Grab)
    requires Leads(run, t, workers) && WorkerOf(State(t, workers), w).Idle?
    requires g.reclaimed == ExpiredIds(t, g.now) && IsBatch(View(t, g), g.now, g.mode, g.limit, g.skipped, g.picked)
    ensures Leads(run + [Claim(w, at, g)], Grabbed(t, g), workers[w := Handling(g.lease, g.mode, Mirror(g.picked, g.now, g.lease), None)])
  {
    Extend(run, Claim(w, at, g));
  }

  lemma CallNext(run: seq<Event>, t: Table, workers: map<WorkerId, Worker>, w: WorkerId, at: Time, v: Verdict)
    requires Leads(run, t, workers) && w in workers && workers[w].Handling? && workers[w].todo != [] && workers[w].verdict.None?
    requires Permitted(workers[w].mode, v)
    ensures Leads(run + [Call(w, at, workers[w].mode, workers[w].todo[0].id, workers[w].lease, v)], t, workers[w := workers[w].(verdict := Some(v))])
  {
    Extend(run, Call(w, at, workers[w].mode, workers[w].todo[0].id, workers[w].lease, v));
  }

  lemma MarkNext(run: seq<Event>, t: Table, workers: map<WorkerId, Worker>, w: WorkerId, at: Time, m: Mark)
    requires Leads(run, t, workers) && w in workers && workers[w].Handling? && workers[w].todo != [] && workers[w].verdict.Some?
    requires MarkFits(workers[w].todo[0].row, workers[w].verdict.value, m)
    ensures Leads(run + [MarkIt(w, at, workers[w].todo[0].id, workers[w].lease, m)], MarkId(t, workers[w].todo[0].id, m),
                  workers[w := workers[w].(todo := workers[w].todo[1..], verdict := None)])
  {
    Extend(run, MarkIt(w, at, workers[w].todo[0].id, workers[w].lease, m));
  }

  /** The claim of the only row of a table, reclaimed first if its lease ran out. */
  function OnlyRow(r: Row, now: Time, lease: Time): Grab {
    var expired := Expired(r, now);
    Grab(now, lease, Outbox, 1, {}, if expired then {1} else {}, [Claimed(1, if expired then ReclaimRow(r, now) else r)])
  }

  lemma OnlyRowClaim(r: Row, now: Time, lease: Time)
    requires (r.status == Pending || Expired(r, now)) && r.availableAt <= now
    ensures var g := OnlyRow(r, now, lease);
      && g.reclaimed == ExpiredIds(map[1 := r], now)
      && IsBatch(View(map[1 := r], g), now, Outbox, 1, {}, g.picked)
      && Grabbed(map[1 := r], g) == map[1 := ClaimRow(g.picked[0].row, now, lease)]
      && Mirror(g.picked, now, lease) == [Claimed(1, ClaimRow(g.picked[0].row, now, lease))]
  {
    var g := OnlyRow(r, now, lease);
    assert g.picked[0].id == 1;
    assert Holds(g.picked, 1);
    var view := View(map[1 := r], g);
    assert view == map[1 := g.picked[0].row];
    assert GateOpen(view, view[1].identity);
  }

  ghost predicate Monotone(run: seq<Event>) {
    forall i, j :: 0 <= i < j < |run| ==> run[i].at <= run[j].at
  }

  lemma {:induction false} AdjacentIsEnough(run: seq<Event>, n: nat)
    requires n <= |run| && forall i :: 0 < i < n ==> run[i - 1].at <= run[i].at
    ensures forall i, j :: 0 <= i < j < n ==> run[i].at <= run[j].at
  {
    if n > 1 {
      AdjacentIsEnough(run, n - 1);
      assert run[n - 2].at <= run[n - 1].at;
    }
  }

  function Contention(m: Identity, g1: Grab, g2: Grab): seq<Event> {
    [Receive(0, 1, m, true), Claim(1, 0, g1), Claim(2, 20, g2)]
  }

  function LateWork(why: string): seq<Event> {
    [Call(1, 21, Outbox, 1, 10, Completed), MarkIt(1, 22, 1, 10, MarkDone(22)),
     Call(2, 23, Outbox, 1, 30, Retryable(why)), MarkIt(2, 24, 1, 30, MarkRetry(why, 25, 24))]
  }

  lemma LateRunHypotheses(m: Identity, g1: Grab, g2: Grab, why: string)
    requires g1.mode == Outbox && g2.mode == Outbox
    ensures var run := Contention(m, g1, g2) + LateWork(why); Monotone(run) && StampedInOrder(run) && FifoOnly(run) && !WithinLease(run)
  {
    var run := Contention(m, g1, g2) + LateWork(why);
    AdjacentIsEnough(run, 7);
    assert !Timely(run[3]);
  }

  /** A row received, claimed by worker 1, and claimed again by worker 2 once the lease has run out. */
  lemma TwoHolders(m: Identity, g1: Grab, g2: Grab, r1: Row, r2: Row)
    requires m.stampedAt == 0
    requires g1 == OnlyRow(PendingRow(m), 0, 10) && r1 == ClaimRow(PendingRow(m), 0, 10)
    requires g2 == OnlyRow(r1, 20, 30) && r2 == ClaimRow(ReclaimRow(r1, 20), 20, 30)
    ensures Leads(Contention(m, g1, g2), map[1 := r2],
                  map[1 := Handling(10, Outbox, [Claimed(1, r1)], None), 2 := Handling(30, Outbox, [Claimed(1, r2)], None)])
  {
    var r0 := PendingRow(m);
    ReceiveNext([], map[], map[], 0, 1, m);
    var a := [] + [Receive(0, 1, m, true)];
    OnlyRowClaim(r0, 0, 10);
    ClaimNext(a, map[1 := r0], map[], 1, 0, g1);
    var b := a + [Claim(1, 0, g1)];
    OnlyRowClaim(r1, 20, 30);
    ClaimNext(b, map[1 := r1], map[1 := Handling(10, Outbox, [Claimed(1, r1)], None)], 2, 20, g2);
    assert b + [Claim(2, 20, g2)] == Contention(m, g1, g2);
  }

  /**
   * Without H1: worker 2 reclaims the row after worker 1's lease expired; worker 1 then marks
   * it published, late; worker 2's retry mark revives the published row.  So two workers hold
   * one row at once, and a terminal row is not final.
   */
  lemma LateMarkRevivesPublishedRow(m: Identity, why: string) returns (run: seq<Event>)
    requires m.stampedAt == 0 && m.maxAttempts > 1
    ensures Legal(run) && Monotone(run) && StampedInOrder(run) && FifoOnly(run) && !WithinLease(run)
    ensures |run| == 7
    ensures var workers := After(run[..3]).workers;
      && 1 in workers && workers[1].Handling? && Holds(workers[1].todo, 1)
      && 2 in workers && workers[2].Handling? && Holds(workers[2].todo, 1)
    ensures 1 in After(run[..5]).table && After(run[..5]).table[1].status == Done
    ensures 1 in After(run).table && After(run).table[1].status == Pending
  {
    var r1 := ClaimRow(PendingRow(m), 0, 10);
    var r2 := ClaimRow(ReclaimRow(r1, 20), 20, 30);
    var g1, g2 := OnlyRow(PendingRow(m), 0, 10), OnlyRow(r1, 20, 30);
    var h1, h2 := Handling(10, Outbox, [Claimed(1, r1)], None), Handling(30, Outbox, [Claimed(1, r2)], None);
    TwoHolders(m, g1, g2, r1, r2);
    run := LateMarks(Contention(m, g1, g2), r2, h1, h2, why);
    LateRunHypotheses(m, g1, g2, why);
    assert h1.todo[0].id == 1 && h2.todo[0].id == 1;
  }

  lemma LateMarks(c: seq<Event>, r2: Row, h1: Worker, h2: Worker, why: string) returns (run: seq<Event>)
    requires Leads(c, map[1 := r2], map[1 := h1, 2 := h2])
    requires h1.Handling? && |h1.todo| == 1 && h1.todo[0].id == 1 && h1.verdict.None? && h1.mode == Outbox && h1.lease == 10
    requires h2.Handling? && h2.todo == [Claimed(1, r2)] && h2.verdict.None? && h2.mode == Outbox && h2.lease == 30 && !Exhausted(r2)
    ensures run == c + LateWork(why) && run[..|c|] == c
    ensures Legal(run) && 1 in After(run[..|c| + 2]).table && After(run[..|c| + 2]).table[1].status == Done
    ensures 1 in After(run).table && After(run).table[1].status == Pending
  {
    var ws := map[1 := h1, 2 := h2];
    CallNext(c, map[1 := r2], ws, 1, 21, Completed);
    var d := c + [Call(1, 21, Outbox, 1, 10, Completed)];
    var ws1 := ws[1 := h1.(verdict := Some(Completed))];
    MarkNext(d, map[1 := r2], ws1, 1, 22, MarkDone(22));
    var e := d + [MarkIt(1, 22, 1, 10, MarkDone(22))];
    var t, ws2 := MarkId(map[1 := r2], 1, MarkDone(22)), ws1[1 := h1.(todo := h1.todo[1..], verdict := None)];
    CallNext(e, t, ws2, 2, 23, Retryable(why));
    var f := e + [Call(2, 23, Outbox, 1, 30, Retryable(why))];
    MarkNext(f, t, ws2[2 := h2.(verdict := Some(Retryable(why)))], 2, 24, MarkRetry(why, 25, 24));
    run := f + [MarkIt(2, 24, 1, 30, MarkRetry(why, 25, 24))];
    assert run[..|c| + 2] == e;
  }

  function UnorderedRun(m1: Identity, m2: Identity, g: Grab): seq<Event> {
    [Receive(10, 1, m1, true), Receive(20, 2, m2, true), Claim(1, 30, g), Call(1, 40, InboxUnordered, 2, 90, Completed),
     MarkIt(1, 50, 2, 90, MarkDone(50)), Call(1, 60, InboxUnordered, 1, 90, Completed)]
  }

  lemma UnorderedRunHypotheses(m1: Identity, m2: Identity, g: Grab)
    requires m1.stampedAt <= m2.stampedAt && g.now == 30 && g.mode == InboxUnordered
    ensures var run := UnorderedRun(m1, m2, g); WithinLease(run) && StampedInOrder(run) && !FifoOnly(run)
  {
    var run := UnorderedRun(m1, m2, g);
    AdjacentIsEnough(run, 6);
    assert Grabs(run[2]);
  }

  /** Two rows of one key, received in order and claimed newest first. */
  lemma UnorderedBatch(m1: Identity, m2: Identity, g: Grab)
    requires !SameMessage(m1, m2) && m1.stampedAt == 10 && m2.stampedAt == 20
    requires g == Grab(30, 90, InboxUnordered, 2, {}, {}, [Claimed(2, PendingRow(m2)), Claimed(1, PendingRow(m1))])
    ensures var todo := [Claimed(2, ClaimRow(PendingRow(m2), 30, 90)), Claimed(1, ClaimRow(PendingRow(m1), 30, 90))];
      Leads([Receive(10, 1, m1, true), Receive(20, 2, m2, true), Claim(1, 30, g)],
            map[1 := todo[1].row, 2 := todo[0].row], map[1 := Handling(90, InboxUnordered, todo, None)])
  {
    var t := map[1 := PendingRow(m1), 2 := PendingRow(m2)];
    ReceiveNext([], map[], map[], 10, 1, m1);
    var a := [] + [Receive(10, 1, m1, true)];
    ReceiveNext(a, map[1 := PendingRow(m1)], map[], 20, 2, m2);
    var b := a + [Receive(20, 2, m2, true)];
    assert map[1 := PendingRow(m1)][2 := PendingRow(m2)] == t;
    assert View(t, g) == t;
    assert g.picked[0].id == 2 && g.picked[1].id == 1;
    ClaimNext(b, t, map[], 1, 30, g);
    assert b + [Claim(1, 30, g)] == [Receive(10, 1, m1, true), Receive(20, 2, m2, true), Claim(1, 30, g)];
    assert Mirror(g.picked, 30, 90) == [Claimed(2, ClaimRow(PendingRow(m2), 30, 90)), Claimed(1, ClaimRow(PendingRow(m1), 30, 90))];
    assert Grabbed(t, g) == map[1 := ClaimRow(PendingRow(m1), 30, 90), 2 := ClaimRow(PendingRow(m2), 30, 90)];
  }

  /** Both records of a two-row batch are handled, the first one marked in between. */
  lemma HandleBoth(c: seq<Event>, r1: Row, r2: Row) returns (run: seq<Event>)
    requires Leads(c, map[1 := r1, 2 := r2], map[1 := Handling(90, InboxUnordered, [Claimed(2, r2), Claimed(1, r1)], None)])
    ensures run == c + [Call(1, 40, InboxUnordered, 2, 90, Completed), MarkIt(1, 50, 2, 90, MarkDone(50)),
                        Call(1, 60, InboxUnordered, 1, 90, Completed)]
    ensures Legal(run) && var t := After(run).table; 1 in t && 2 in t && t[1].identity == r1.identity && t[2].identity == r2.identity
  {
    var t, h := map[1 := r1, 2 := r2], Handling(90, InboxUnordered, [Claimed(2, r2), Claimed(1, r1)], None);
    CallNext(c, t, map[1 := h], 1, 40, Completed);
    var d := c + [Call(1, 40, InboxUnordered, 2, 90, Completed)];
    var ws := map[1 := h][1 := h.(verdict := Some(Completed))];
    MarkNext(d, t, ws, 1, 50, MarkDone(50));
    var e := d + [MarkIt(1, 50, 2, 90, MarkDone(50))];
    CallNext(e, MarkId(t, 2, MarkDone(50)), ws[1 := h.(todo := h.todo[1..])], 1, 60, Completed);
    run := e + [Call(1, 60, InboxUnordered, 1, 90, Completed)];
  }

  /** Without H3: one unordered batch of a key, returned in any order, is handled newest first. */
  lemma UnorderedBreaksOrder(m1: Identity, m2: Identity) returns (run: seq<Event>)
    requires !SameMessage(m1, m2) && SameKey(m1, m2) && m1.stampedAt == 10 && m2.stampedAt == 20
    ensures Legal(run) && WithinLease(run) && StampedInOrder(run) && !FifoOnly(run)
    ensures |run| == 6 && run[3].Call? && run[5].Call? && run[3].id in After(run).table && run[5].id in After(run).table
    ensures After(run).table[run[3].id].identity == m2 && After(run).table[run[5].id].identity == m1
  {
    var r1, r2 := ClaimRow(PendingRow(m1), 30, 90), ClaimRow(PendingRow(m2), 30, 90);
    var g := Grab(30, 90, InboxUnordered, 2, {}, {}, [Claimed(2, PendingRow(m2)), Claimed(1, PendingRow(m1))]);
    UnorderedBatch(m1, m2, g);
    run := HandleBoth([Receive(10, 1, m1, true), Receive(20, 2, m2, true), Claim(1, 30, g)], r1, r2);
    assert run == UnorderedRun(m1, m2, g);
    UnorderedRunHypotheses(m1, m2, g);
  }

  function LateStampRun(m1: Identity, m2: Identity, g1: Grab, g2: Grab): seq<Event> {
    [Receive(20, 1, m1, true), Claim(1, 20, g1), Call(1, 30, Outbox, 1, 90, Completed),
     Receive(40, 2, m2, true), Claim(2, 50, g2), Call(2, 60, Outbox, 2, 90, Completed)]
  }

  lemma LateStampRunHypotheses(m1: Identity, m2: Identity, g1: Grab, g2: Grab)
    requires SameKey(m1, m2) && m2.stampedAt < m1.stampedAt
    requires g1.now == 20 && g2.now == 50 && g1.mode == Outbox && g2.mode == Outbox
    ensures var run := LateStampRun(m1, m2, g1, g2); WithinLease(run) && FifoOnly(run) && !StampedInOrder(run)
  {
    var run := LateStampRun(m1, m2, g1, g2);
    AdjacentIsEnough(run, 6);
    assert Inserts(run[0]) && Inserts(run[3]);
  }

  /** The first row is claimed and handed to the publisher. */
  lemma EarlyCall(m: Identity, g: Grab, r: Row)
    requires m.stampedAt == 20 && g == OnlyRow(PendingRow(m), 20, 90) && r == ClaimRow(PendingRow(m), 20, 90)
    ensures Leads([Receive(20, 1, m, true), Claim(1, 20, g), Call(1, 30, Outbox, 1, 90, Completed)],
                  map[1 := r], map[1 := Handling(90, Outbox, [Claimed(1, r)], Some(Completed))])
  {
    ReceiveNext([], map[], map[], 20, 1, m);
    var a := [] + [Receive(20, 1, m, true)];
    OnlyRowClaim(PendingRow(m), 20, 90);
    ClaimNext(a, map[1 := PendingRow(m)], map[], 1, 20, g);
    var b := a + [Claim(1, 20, g)];
    var h := Handling(90, Outbox, [Claimed(1, r)], None);
    CallNext(b, map[1 := r], map[1 := h], 1, 30, Completed);
    assert b + [Call(1, 30, Outbox, 1, 90, Completed)]
        == [Receive(20, 1, m, true), Claim(1, 20, g), Call(1, 30, Outbox, 1, 90, Completed)];
    assert map[1 := h][1 := h.(verdict := Some(Completed))] == map[1 := h.(verdict := Some(Completed))];
  }

  /** A second row appears, is claimed by another worker and handed to the publisher. */
  lemma LateCall(c: seq<Event>, r: Row, m: Identity, h: Worker, g: Grab) returns (run: seq<Event>)
    requires Leads(c, map[1 := r], map[1 := h])
    requires r.status == Processing && r.leaseUntil == Some(90) && !SameMessage(r.identity, m)
    requires m.stampedAt == 10 && r.identity.stampedAt == 20
    requires g == Grab(50, 90, Outbox, 1, {}, {}, [Claimed(2, PendingRow(m))])
    ensures run == c + [Receive(40, 2, m, true), Claim(2, 50, g), Call(2, 60, Outbox, 2, 90, Completed)]
    ensures Legal(run) && var t := After(run).table; 1 in t && 2 in t && t[1].identity == r.identity && t[2].identity == m
  {
    ReceiveNext(c, map[1 := r], map[1 := h], 40, 2, m);
    var d := c + [Receive(40, 2, m, true)];
    var t := map[1 := r][2 := PendingRow(m)];
    assert View(t, g) == t;
    assert g.picked[0].id == 2;
    ClaimNext(d, t, map[1 := h], 2, 50, g);
    var e := d + [Claim(2, 50, g)];
    CallNext(e, Grabbed(t, g), map[1 := h][2 := Handling(90, Outbox, Mirror(g.picked, 50, 90), None)], 2, 60, Completed);
    run := e + [Call(2, 60, Outbox, 2, 90, Completed)];
  }

  /** Without H2: a row that becomes visible late, with an earlier stamp, is published after its successor. */
  lemma LateStampBreaksOrder(m1: Identity, m2: Identity) returns (run: seq<Event>)
    requires !SameMessage(m1, m2) && SameKey(m1, m2) && m1.stampedAt == 20 && m2.stampedAt == 10
    ensures Legal(run) && WithinLease(run) && FifoOnly(run) && !StampedInOrder(run)
    ensures |run| == 6 && run[2].Call? && run[5].Call? && run[2].id in After(run).table && run[5].id in After(run).table
    ensures After(run).table[run[2].id].identity == m1 && After(run).table[run[5].id].identity == m2
  {
    var r := ClaimRow(PendingRow(m1), 20, 90);
    var g1 := OnlyRow(PendingRow(m1), 20, 90);
    var g2 := Grab(50, 90, Outbox, 1, {}, {}, [Claimed(2, PendingRow(m2))]);
    EarlyCall(m1, g1, r);
    run := LateCall([Receive(20, 1, m1, true), Claim(1, 20, g1), Call(1, 30, Outbox, 1, 90, Completed)],
                    r, m2, Handling(90, Outbox, [Claimed(1, r)], Some(Completed)), g2);
    assert run == LateStampRun(m1, m2, g1, g2);
    LateStampRunHypotheses(m1, m2, g1, g2);
  }

  // ---- a commit after the lease it grants ----

  /** Worker 1 has the only row selected and locked; worker 2 claims, finds it locked and takes nothing. */
  function EmptyHanded(): Grab {
    Grab(20, 30, Outbox, 1, {1}, {}, [])
  }

  lemma ClaimPastLock(run: seq<Event>, r: Row, g: Grab)
    requires Legal(run) && After(run) == State(map[1 := r], map[1 := Selected(g)]) && r.status == Pending
    requires LocksRow(Selected(g), 1)
    ensures Enabled(After(run), Claim(2, 20, EmptyHanded())) && Thorough(After(run), Claim(2, 20, EmptyHanded()))
    ensures Apply(After(run), Claim(2, 20, EmptyHanded())).workers[1] == Selected(g)
  {
    var h := EmptyHanded();
    assert ExpiredIds(map[1 := r], 20) == {};
    assert View(map[1 := r], h) == map[1 := r];
  }

  /**
   * `SelectCommitIsClaim` needs its hypothesis for the exact form: here the commit comes after the
   * lease, every transaction reclaims all it sees expired, and with the claim taken at the
   * SELECT the other worker would have found an expired row and left it.
   */
  lemma LateCommitHidesExpiredRow(m: Identity, g: Grab) returns (run: seq<Event>, claimed: seq<Event>)
    requires m.stampedAt == 0 && g == OnlyRow(PendingRow(m), 0, 10)
    ensures run == [Receive(0, 1, m, true), Select(1, 0, g), Claim(2, 20, EmptyHanded()), Commit(1, 30, g)]
    ensures claimed == [Receive(0, 1, m, true), Claim(1, 0, g), Claim(2, 20, EmptyHanded())]
    ensures Legal(run) && ThoroughRun(run) && !ThoroughRun(claimed)
  {
    var r, h := PendingRow(m), EmptyHanded();
    ReceiveNext([], map[], map[], 0, 1, m);
    var a := [] + [Receive(0, 1, m, true)];
    OnlyRowClaim(r, 0, 10);
    run := LateCommitRun(a, r, g);
    assert Leads(a + [Claim(1, 0, g)], map[1 := ClaimRow(r, 0, 10)], map[1 := Handling(10, Outbox, [Claimed(1, ClaimRow(r, 0, 10))], None)]) by {
      ClaimNext(a, map[1 := r], map[], 1, 0, g);
    }
    claimed := a + [Claim(1, 0, g)] + [Claim(2, 20, h)];
    ExpiredIsOverlooked(a + [Claim(1, 0, g)], ClaimRow(r, 0, 10), h);
  }

  lemma ExpiredIsOverlooked(b: seq<Event>, r: Row, h: Grab)
    requires After(b).table == map[1 := r] && Expired(r, h.now) && h.reclaimed == {}
    ensures !ThoroughRun(b + [Claim(2, h.now, h)])
  {
    assert (b + [Claim(2, h.now, h)])[..|b|] == b;
    assert 1 in ExpiredIds(After(b).table, h.now);
  }

  lemma LateCommitRun(a: seq<Event>, r: Row, g: Grab) returns (run: seq<Event>)
    requires |a| == 1 && a[0].Receive? && Leads(a, map[1 := r], map[]) && r.status == Pending
    requires g.now == 0 && g.reclaimed == {} && Holds(g.picked, 1) && IsBatch(View(map[1 := r], g), 0, g.mode, g.limit, g.skipped, g.picked)
    ensures run == a + [Select(1, 0, g), Claim(2, 20, EmptyHanded()), Commit(1, 30, g)] && Legal(run) && ThoroughRun(run)
  {
    var h := EmptyHanded();
    assert ThoroughRun(a) by {
      assert a[..|a| - 1] == [] && ThoroughRun([]);
    }
    var b := a + [Select(1, 0, g)];
    assert ExpiredIds(map[1 := r], 0) == {};
    ThoroughNext(a, Select(1, 0, g));
    var c := b + [Claim(2, 20, h)];
    ClaimPastLock(b, r, g);
    ThoroughNext(b, Claim(2, 20, h));
    ThoroughNext(c, Commit(1, 30, g));
    run := c + [Commit(1, 30, g)];
  }

  lemma ThoroughNext(run: seq<Event>, e: Event)
    requires Legal(run) && ThoroughRun(run) && Enabled(After(run), e) && Thorough(After(run), e)
    ensures Legal(run + [e]) && ThoroughRun(run + [e]) && After(run + [e]) == Apply(After(run), e)
  {
    Extend(run, e);
    assert (run + [e])[..|run|] == run;
  }
}
