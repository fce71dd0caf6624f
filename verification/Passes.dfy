/** One `run_once` pass of either runner, as a stretch of the protocol, and the attempts it spends. */
module Passes {
  import opened Wrappers
  import opened MessageTable
  import opened Protocol
  import opened RunFacts
  import opened Leases
  import opened ClaimBatches
  import opened Backoff

  // ---- the attempts a table has left ----

  /** One token for each attempt an active row has left: its size is the sum of max(1, max_attempts) - attempts. */
  ghost function Tokens(t: Table): set<(Id, int)> {
    set x, k | x in t && Active(t[x]) && t[x].attempts <= k < Ceiling(t[x].identity) :: (x, k)
  }

  ghost function ActiveIds(t: Table): (ids: set<Id>)
    ensures forall x :: x in ids <==> x in t && (t[x].status == Pending || t[x].status == Processing)
  {
    set x | x in t && Active(t[x])
  }

  lemma SmallerSet<T>(a: set<T>, b: set<T>)
    requires a <= b
    ensures |a| <= |b|
  {
    assert b == a + (b - a);
  }

  /** The tokens of one row. */
  ghost function Span(x: Id, lo: int, hi: int): set<(Id, int)> {
    set k | lo <= k < hi :: (x, k)
  }

  lemma {:induction false} SpanSize(x: Id, lo: int, hi: int)
    requires lo <= hi
    ensures |Span(x, lo, hi)| == hi - lo
    decreases hi - lo
  {
    if lo < hi {
      SpanSize(x, lo + 1, hi);
      assert Span(x, lo, hi) == {(x, lo)} + Span(x, lo + 1, hi);
    } else {
      assert Span(x, lo, hi) == {};
    }
  }

  /** The number of tokens is the sum over the active rows of max(1, max_attempts) - attempts. */
  lemma TokensAreTheSum(t: Table, x: Id)
    requires x in t && AttemptsBounded(t)
    ensures Tokens(map[]) == {}
    ensures |Tokens(t)| == |Tokens(t - {x})| + if Active(t[x]) then Ceiling(t[x].identity) - t[x].attempts else 0
  {
    var row := if Active(t[x]) then Span(x, t[x].attempts, Ceiling(t[x].identity)) else {};
    SpanSize(x, t[x].attempts, Ceiling(t[x].identity));
    assert Tokens(t) == Tokens(t - {x}) + row;
    assert Tokens(t - {x}) !! row;
  }

  /** Reclaiming and claiming leave every row as active, and with as many attempts left, as it was. */
  lemma GrabKeepsTokens(t: Table, g: Grab)
    requires forall x :: x in t && (x in g.reclaimed || Holds(g.picked, x)) ==> Active(t[x])
    ensures Tokens(Grabbed(t, g)) == Tokens(t) && ActiveIds(Grabbed(t, g)) == ActiveIds(t)
    ensures AttemptsBounded(t) ==> AttemptsBounded(Grabbed(t, g))
  {
    var t' := Grabbed(t, g);
    forall x | x in t
      ensures t'[x].identity == t[x].identity && t'[x].attempts == t[x].attempts && (Active(t'[x]) <==> Active(t[x]))
      ensures t[x].status != Failed ==> t'[x].status != Failed
      ensures t[x].status == Failed ==> t'[x] == t[x]
    {
    }
  }

  /** A mark on an active row spends at least one attempt; a completed or failed one ends the row. */
  lemma MarkSpendsToken(t: Table, x: Id, v: Verdict, m: Mark)
    requires x in t && Active(t[x]) && AttemptsBounded(t) && MarkFits(t[x], v, m)
    ensures AttemptsBounded(MarkId(t, x, m))
    ensures |Tokens(MarkId(t, x, m))| + 1 <= |Tokens(t)|
  {
    var t', spent := MarkId(t, x, m), (x, t[x].attempts as int);
    assert spent in Tokens(t);
    forall p | p in Tokens(t')
      ensures p in Tokens(t) - {spent}
    {
      assert p.0 in t' && t'[p.0].identity == t[p.0].identity;
    }
    SmallerSet(Tokens(t'), Tokens(t) - {spent});
    assert |Tokens(t) - {spent}| == |Tokens(t)| - 1;
  }

  // ---- one worker's events ----

  /** The run's state, seen by a worker alone on the table: no transaction is open anywhere. */
  ghost predicate Quiet(run: seq<Event>, t: Table) {
    Legal(run) && After(run).table == t && forall w :: !WorkerOf(After(run), w).Selected?
  }

  lemma QuietMeansUnlocked(run: seq<Event>, t: Table, w: WorkerId, x: Id)
    requires Quiet(run, t)
    ensures !Locked(After(run), w, x)
  {
    var s := After(run);
    forall v | v in s.workers
      ensures !LocksRow(s.workers[v], x)
    {
      assert !WorkerOf(s, v).Selected?;
    }
  }

  /** The reclaim-and-claim transaction of a pass is a legal claim event. */
  lemma ClaimEvent(run: seq<Event>, t: Table, w: WorkerId, g: Grab)
    requires Quiet(run, t) && WorkerOf(After(run), w).Idle?
    requires g.reclaimed == ExpiredIds(t, g.now) && IsBatch(View(t, g), g.now, g.mode, g.limit, g.skipped, g.picked)
    ensures Quiet(run + [Claim(w, g.now, g)], Grabbed(t, g))
    ensures WorkerOf(After(run + [Claim(w, g.now, g)]), w) == Handling(g.lease, g.mode, Mirror(g.picked, g.now, g.lease), None)
    ensures forall x :: x in t && (x in g.reclaimed || Holds(g.picked, x)) ==> Active(t[x])
    ensures Distinct(Mirror(g.picked, g.now, g.lease))
  {
    var s, e := After(run), Claim(w, g.now, g);
    forall x | x in s.table
      ensures !Locked(s, w, x)
    {
      QuietMeansUnlocked(run, t, w, x);
    }
    Extend(run, e);
    forall v
      ensures !WorkerOf(Apply(s, e), v).Selected?
    {
      assert !WorkerOf(s, v).Selected?;
    }
    FreshGrab(s, w, g);
  }

  ghost function Worked(run: seq<Event>, w: WorkerId, at: Time, at': Time, mode: Mode, lease: Time, x: Id, v: Verdict, m: Mark): seq<Event> {
    run + [Call(w, at, mode, x, lease, v)] + [MarkIt(w, at', x, lease, m)]
  }

  /** One call and its mark are two legal events. */
  lemma CallAndMark(run: seq<Event>, t: Table, w: WorkerId, at: Time, at': Time, mode: Mode, lease: Time, todo: seq<Claimed>, v: Verdict, m: Mark)
    requires Quiet(run, t) && WorkerOf(After(run), w) == Handling(lease, mode, todo, None) && todo != []
    requires Permitted(mode, v) && MarkFits(todo[0].row, v, m)
    ensures Quiet(Worked(run, w, at, at', mode, lease, todo[0].id, v, m), MarkId(t, todo[0].id, m))
    ensures WorkerOf(After(Worked(run, w, at, at', mode, lease, todo[0].id, v, m)), w) == Handling(lease, mode, todo[1..], None)
  {
    var s := After(run);
    var call, mark := Call(w, at, mode, todo[0].id, lease, v), MarkIt(w, at', todo[0].id, lease, m);
    Extend(run, call);
    var s' := Apply(s, call);
    forall x | Locked(s', w, x)
      ensures Locked(s, w, x)
    {
      var u :| u in s'.workers && u != w && LocksRow(s'.workers[u], x);
      assert s.workers[u] == s'.workers[u];
    }
    QuietMeansUnlocked(run, t, w, todo[0].id);
    Extend(run + [call], mark);
    forall u
      ensures !WorkerOf(Apply(s', mark), u).Selected?
    {
      assert !WorkerOf(s, u).Selected?;
    }
  }

  lemma LeaveEvent(run: seq<Event>, t: Table, w: WorkerId, at: Time)
    requires Quiet(run, t)
    ensures Quiet(run + [Leave(w, at)], t) && WorkerOf(After(run + [Leave(w, at)]), w).Idle?
  {
    Extend(run, Leave(w, at));
    forall u
      ensures !WorkerOf(After(run + [Leave(w, at)]), u).Selected?
    {
      assert !WorkerOf(After(run), u).Selected?;
    }
  }

  // ---- one pass ----

  /** What a pass did with one record: the verdict, the clock read after the call, and the mark. */
  datatype Deed = Deed(verdict: Verdict, called: Time, mark: Mark)

  /** The table after the first marks of a batch. */
  function MarkAll(t: Table, records: seq<Claimed>, deeds: seq<Deed>): Table
    requires |deeds| <= |records|
  {
    if deeds == [] then t
    else
      var n := |deeds| - 1;
      MarkId(MarkAll(t, records, deeds[..n]), records[n].id, deeds[n].mark)
  }

  /** The call and the mark of one record. */
  function DeedEvents(w: WorkerId, g: Grab, x: Id, d: Deed): seq<Event> {
    [Call(w, d.called, g.mode, x, g.lease, d.verdict)] + [MarkIt(w, d.mark.when, x, g.lease, d.mark)]
  }

  /** The events of a pass: its claim, then a call and a mark for each record dealt with. */
  ghost function PassEvents(w: WorkerId, g: Grab, deeds: seq<Deed>): seq<Event>
    requires |deeds| <= |g.picked|
  {
    if deeds == [] then [Claim(w, g.now, g)]
    else
      var n := |deeds| - 1;
      PassEvents(w, g, deeds[..n]) + DeedEvents(w, g, g.picked[n].id, deeds[n])
  }

  /** The time of a pass's last event. */
  function PassEnd(g: Grab, deeds: seq<Deed>): Time {
    if deeds == [] then g.now else deeds[|deeds| - 1].mark.when
  }

  /** The whole pass, up to the return of `run_once`. */
  ghost function PassLog(w: WorkerId, g: Grab, deeds: seq<Deed>): seq<Event>
    requires |deeds| <= |g.picked|
  {
    PassEvents(w, g, deeds) + [Leave(w, PassEnd(g, deeds))]
  }

  /** Each mark is one the runner may issue for its record after its verdict. */
  ghost predicate Fitting(mode: Mode, records: seq<Claimed>, deeds: seq<Deed>) {
    && |deeds| <= |records|
    && forall i :: 0 <= i < |deeds| ==> Permitted(mode, deeds[i].verdict) && MarkFits(records[i].row, deeds[i].verdict, deeds[i].mark)
  }

  /** The transaction of a pass, over the table it finds. */
  ghost predicate Takes(t: Table, g: Grab) {
    g.reclaimed == ExpiredIds(t, g.now) && IsBatch(View(t, g), g.now, g.mode, g.limit, g.skipped, g.picked)
  }

  /** A pass, from its claim to its last mark, is a legal stretch of the protocol. */
  lemma {:induction false} PassIsLegal(run: seq<Event>, t: Table, w: WorkerId, g: Grab, deeds: seq<Deed>)
    requires Quiet(run, t) && WorkerOf(After(run), w).Idle? && Takes(t, g)
    requires Fitting(g.mode, Mirror(g.picked, g.now, g.lease), deeds)
    ensures var records := Mirror(g.picked, g.now, g.lease);
      var run' := run + PassEvents(w, g, deeds);
      && Quiet(run', MarkAll(Grabbed(t, g), records, deeds))
      && WorkerOf(After(run'), w) == Handling(g.lease, g.mode, records[|deeds|..], None)
    decreases |deeds|
  {
    var records := Mirror(g.picked, g.now, g.lease);
    if deeds == [] {
      ClaimEvent(run, t, w, g);
      assert records[0..] == records;
    } else {
      var n := |deeds| - 1;
      PassIsLegal(run, t, w, g, deeds[..n]);
      DeedIsLegal(run + PassEvents(w, g, deeds[..n]), MarkAll(Grabbed(t, g), records, deeds[..n]), w, g, records, n, deeds[n]);
      assert run + PassEvents(w, g, deeds) == run + PassEvents(w, g, deeds[..n]) + DeedEvents(w, g, g.picked[n].id, deeds[n]);
    }
  }

  lemma DeedIsLegal(run: seq<Event>, t: Table, w: WorkerId, g: Grab, records: seq<Claimed>, n: nat, d: Deed)
    requires Quiet(run, t) && n < |records| && WorkerOf(After(run), w) == Handling(g.lease, g.mode, records[n..], None)
    requires Permitted(g.mode, d.verdict) && MarkFits(records[n].row, d.verdict, d.mark)
    ensures var run' := run + DeedEvents(w, g, records[n].id, d);
      Quiet(run', MarkId(t, records[n].id, d.mark)) && WorkerOf(After(run'), w) == Handling(g.lease, g.mode, records[n + 1..], None)
  {
    CallAndMark(run, t, w, d.called, d.mark.when, g.mode, g.lease, records[n..], d.verdict, d.mark);
    assert Worked(run, w, d.called, d.mark.when, g.mode, g.lease, records[n].id, d.verdict, d.mark) == run + DeedEvents(w, g, records[n].id, d);
    assert records[n..][1..] == records[n + 1..];
  }

  /** The whole pass leaves the worker idle again. */
  lemma PassReturns(run: seq<Event>, t: Table, w: WorkerId, g: Grab, deeds: seq<Deed>)
    requires Quiet(run, t) && WorkerOf(After(run), w).Idle? && Takes(t, g)
    requires Fitting(g.mode, Mirror(g.picked, g.now, g.lease), deeds)
    ensures var run' := run + PassLog(w, g, deeds);
      Quiet(run', MarkAll(Grabbed(t, g), Mirror(g.picked, g.now, g.lease), deeds)) && WorkerOf(After(run'), w).Idle?
  {
    PassIsLegal(run, t, w, g, deeds);
    var worked := run + PassEvents(w, g, deeds);
    LeaveEvent(worked, MarkAll(Grabbed(t, g), Mirror(g.picked, g.now, g.lease), deeds), w, PassEnd(g, deeds));
    assert run + PassLog(w, g, deeds) == worked + [Leave(w, PassEnd(g, deeds))];
  }

  // ---- the times of a pass ----

  /** From `at` on, each call is followed by its mark and each mark by the next call, up to `end`. */
  ghost predicate InOrder(at: Time, deeds: seq<Deed>, end: Time) {
    if deeds == [] then at <= end
    else
      var d := deeds[|deeds| - 1];
      d.called <= d.mark.when <= end && InOrder(at, deeds[..|deeds| - 1], d.called)
  }

  lemma {:induction false} InOrderLater(at: Time, deeds: seq<Deed>, end: Time, end': Time)
    requires InOrder(at, deeds, end) && end <= end'
    ensures InOrder(at, deeds, end')
  {
  }

  /** Every event from the k-th on is timely. */
  ghost predicate TimelyFrom(run: seq<Event>, k: nat) {
    forall i :: k <= i < |run| ==> Timely(run[i])
  }

  /** Nothing of the run is later than `at`. */
  ghost predicate EndsBy(run: seq<Event>, at: Time) {
    run == [] || Clock(run) <= at
  }

  ghost predicate Chronological(run: seq<Event>) {
    forall i, j :: 0 <= i < j < |run| ==> run[i].at <= run[j].at
  }

  lemma NextInOrder(run: seq<Event>, e: Event)
    requires Chronological(run) && EndsBy(run, e.at)
    ensures Chronological(run + [e]) && EndsBy(run + [e], e.at)
  {
  }

  lemma {:induction false} PassIsChronological(run: seq<Event>, w: WorkerId, g: Grab, deeds: seq<Deed>, end: Time)
    requires Chronological(run) && EndsBy(run, g.now) && InOrder(g.now, deeds, end) && |deeds| <= |g.picked|
    ensures Chronological(run + PassEvents(w, g, deeds)) && EndsBy(run + PassEvents(w, g, deeds), PassEnd(g, deeds))
    ensures PassEnd(g, deeds) <= end
    decreases |deeds|
  {
    if deeds == [] {
      NextInOrder(run, Claim(w, g.now, g));
    } else {
      var n := |deeds| - 1;
      var d, x := deeds[n], g.picked[n].id;
      PassIsChronological(run, w, g, deeds[..n], d.called);
      var before := run + PassEvents(w, g, deeds[..n]);
      var call, mark := Call(w, d.called, g.mode, x, g.lease, d.verdict), MarkIt(w, d.mark.when, x, g.lease, d.mark);
      NextInOrder(before, call);
      NextInOrder(before + [call], mark);
      assert before + [call] + [mark] == run + PassEvents(w, g, deeds);
    }
  }

  lemma {:induction false} PassIsPrompt(w: WorkerId, g: Grab, deeds: seq<Deed>, end: Time)
    requires InOrder(g.now, deeds, end) && end <= g.lease && |deeds| <= |g.picked|
    ensures forall i :: 0 <= i < |PassEvents(w, g, deeds)| ==> Timely(PassEvents(w, g, deeds)[i])
    decreases |deeds|
  {
    if deeds != [] {
      var n := |deeds| - 1;
      PassIsPrompt(w, g, deeds[..n], deeds[n].called);
    }
  }

  /**
   * A pass that reads a steady clock and is over before its lease satisfies H1: it extends a
   * run within its leases to a run within its leases, so the theorems about such runs apply.
   */
  lemma PassIsTimely(run: seq<Event>, w: WorkerId, g: Grab, deeds: seq<Deed>, end: Time)
    requires InOrder(g.now, deeds, end) && |deeds| <= |g.picked|
    ensures var run' := run + PassLog(w, g, deeds);
      && (WithinLease(run) && EndsBy(run, g.now) && TimelyFrom(run', |run|) ==> WithinLease(run') && EndsBy(run', end))
      && (end <= g.lease ==> TimelyFrom(run', |run|))
  {
    var run' := run + PassLog(w, g, deeds);
    if WithinLease(run) && EndsBy(run, g.now) && TimelyFrom(run', |run|) {
      PassIsChronological(run, w, g, deeds, end);
      NextInOrder(run + PassEvents(w, g, deeds), Leave(w, PassEnd(g, deeds)));
      assert run + PassEvents(w, g, deeds) + [Leave(w, PassEnd(g, deeds))] == run';
      assert forall i :: 0 <= i < |run| ==> run'[i] == run[i];
    }
    if end <= g.lease {
      PassIsPrompt(w, g, deeds, end);
    }
  }

  /** The readings `from` to `to - 1` of a clock do not go back. */
  ghost predicate Steady(clock: nat -> Time, from: nat, to: nat) {
    forall i, j :: from <= i <= j < to ==> clock(i) <= clock(j)
  }

  /** If the readings so far do not go back, the deeds so far are in order. */
  ghost predicate Ticking(clock: nat -> Time, from: nat, to: nat, deeds: seq<Deed>) {
    from < to && (Steady(clock, from, to) ==> InOrder(clock(from), deeds, clock(to - 1)))
  }

  lemma TickingStep(clock: nat -> Time, from: nat, k: nat, to: nat, deeds: seq<Deed>, d: Deed)
    requires Ticking(clock, from, k, deeds) && k < to && d.called == clock(k) && d.mark.when == clock(to - 1)
    ensures Ticking(clock, from, to, deeds + [d])
  {
    if Steady(clock, from, to) {
      assert clock(k - 1) <= clock(k) <= clock(to - 1);
      InOrderLater(clock(from), deeds, clock(k - 1), clock(k));
      assert (deeds + [d])[..|deeds|] == deeds;
    }
  }

  // ---- what a pass does to the rows ----

  /** Row by row: marked as decided inside the batch, untouched outside it. */
  lemma {:induction false} MarkAllRows(t: Table, records: seq<Claimed>, deeds: seq<Deed>)
    requires |deeds| <= |records| && Distinct(records) && forall i :: 0 <= i < |records| ==> records[i].id in t
    ensures MarkAll(t, records, deeds).Keys == t.Keys
    ensures forall i :: 0 <= i < |records| ==>
      MarkAll(t, records, deeds)[records[i].id] == if i < |deeds| then ApplyMark(t[records[i].id], deeds[i].mark) else t[records[i].id]
    ensures forall x :: x in t && !Holds(records, x) ==> MarkAll(t, records, deeds)[x] == t[x]
  {
    if deeds != [] {
      MarkAllRows(t, records, deeds[..|deeds| - 1]);
      assert Holds(records, records[|deeds| - 1].id);
    }
  }

  /** The batch as handed out is the batch as stored. */
  ghost predicate Stored(t: Table, records: seq<Claimed>) {
    && Distinct(records)
    && forall i :: 0 <= i < |records| ==> records[i].id in t && t[records[i].id] == records[i].row && records[i].row.status == Processing
  }

  lemma BatchIsStored(view: Table, picked: seq<Claimed>, now: Time, lease: Time)
    requires Distinct(picked) && forall i :: 0 <= i < |picked| ==> picked[i].id in view && picked[i].row == view[picked[i].id]
    ensures Stored(ClaimIds(view, picked, now, lease), Mirror(picked, now, lease))
  {
    assert forall i :: 0 <= i < |picked| ==> Holds(picked, picked[i].id);
  }

  /** Every record dealt with costs its row at least one of the attempts it had left. */
  lemma {:induction false} MarksSpendTokens(t: Table, mode: Mode, records: seq<Claimed>, deeds: seq<Deed>)
    requires AttemptsBounded(t) && Stored(t, records) && Fitting(mode, records, deeds)
    ensures AttemptsBounded(MarkAll(t, records, deeds))
    ensures |Tokens(MarkAll(t, records, deeds))| + |deeds| <= |Tokens(t)|
    decreases |deeds|
  {
    if deeds != [] {
      var n := |deeds| - 1;
      MarksSpendTokens(t, mode, records, deeds[..n]);
      MarkAllRows(t, records, deeds[..n]);
      MarkSpendsToken(MarkAll(t, records, deeds[..n]), records[n].id, deeds[n].verdict, deeds[n].mark);
    }
  }

  /** When every mark is a completion, exactly the rows of the batch stop being active. */
  lemma AllDone(t: Table, records: seq<Claimed>, deeds: seq<Deed>)
    requires Stored(t, records) && |deeds| == |records| && forall i :: 0 <= i < |deeds| ==> deeds[i].mark.MarkDone?
    ensures ActiveIds(MarkAll(t, records, deeds)) == ActiveIds(t) - Ids(records) && Ids(records) <= ActiveIds(t)
  {
    MarkAllRows(t, records, deeds);
    var t' := MarkAll(t, records, deeds);
    forall x | x in Ids(records)
      ensures x in t && Active(t[x]) && !Active(t'[x])
    {
      var i :| 0 <= i < |records| && records[i].id == x;
    }
    forall x | x in t && x !in Ids(records)
      ensures t'[x] == t[x]
    {
      assert !Holds(records, x);
    }
    assert forall x :: x in ActiveIds(t') <==> x in ActiveIds(t) - Ids(records);
  }

  /** Reclaim and claim, followed by the marks, in terms of attempts left. */
  lemma PassSpendsTokens(t: Table, g: Grab, deeds: seq<Deed>)
    requires AttemptsBounded(t) && Takes(t, g) && Fitting(g.mode, Mirror(g.picked, g.now, g.lease), deeds)
    ensures var t' := MarkAll(Grabbed(t, g), Mirror(g.picked, g.now, g.lease), deeds);
      AttemptsBounded(t') && |Tokens(t')| + |deeds| <= |Tokens(t)|
  {
    GrabKeepsTokens(t, g);
    BatchIsStored(View(t, g), g.picked, g.now, g.lease);
    MarksSpendTokens(Grabbed(t, g), g.mode, Mirror(g.picked, g.now, g.lease), deeds);
  }

  // ---- what a pass promises, for either runner ----

  /** Stands for the publisher, or for filter, hook and handler together: the answer to the k-th call. */
  type Oracle = (nat, Row) -> Verdict

  /** A rescheduled row is due when the backoff formula says, counting from the reading after its call. */
  ghost predicate ScheduledAt(policy: Policy, row: Row, mark: Mark, when: Time) {
    mark.MarkRetry? ==> mark.availableAt == NextRetryAt(policy, row.attempts, when)
  }

  /** The record was called as the k-th, and marked as the answer and the policy demand. */
  ghost predicate Duly(answer: Oracle, policy: Policy, mode: Mode, k: nat, record: Claimed, d: Deed) {
    && d.verdict == answer(k, record.row) && Permitted(mode, d.verdict)
    && MarkFits(record.row, d.verdict, d.mark) && ScheduledAt(policy, record.row, d.mark, d.called)
  }

  /** The first records have been dealt with, one deed each. */
  ghost predicate Dealt(answer: Oracle, policy: Policy, mode: Mode, t: Table, t': Table, first: nat, records: seq<Claimed>, deeds: seq<Deed>) {
    && |deeds| <= |records|
    && t' == MarkAll(t, records, deeds)
    && AllDuly(answer, policy, mode, first, records, deeds)
  }

  ghost predicate AllDuly(answer: Oracle, policy: Policy, mode: Mode, first: nat, records: seq<Claimed>, deeds: seq<Deed>)
    requires |deeds| <= |records|
  {
    deeds == [] ||
    var n := |deeds| - 1;
    AllDuly(answer, policy, mode, first, records, deeds[..n]) && Duly(answer, policy, mode, first + n, records[n], deeds[n])
  }

  lemma {:induction false} EachDuly(answer: Oracle, policy: Policy, mode: Mode, first: nat, records: seq<Claimed>, deeds: seq<Deed>)
    requires |deeds| <= |records| && AllDuly(answer, policy, mode, first, records, deeds)
    ensures forall i :: 0 <= i < |deeds| ==> Duly(answer, policy, mode, first + i, records[i], deeds[i])
    decreases |deeds|
  {
    if deeds != [] {
      EachDuly(answer, policy, mode, first, records, deeds[..|deeds| - 1]);
    }
  }

  lemma DealtStep(answer: Oracle, policy: Policy, mode: Mode, t: Table, t': Table, first: nat, records: seq<Claimed>, deeds: seq<Deed>, d: Deed)
    requires Dealt(answer, policy, mode, t, t', first, records, deeds) && |deeds| < |records|
    requires Duly(answer, policy, mode, first + |deeds|, records[|deeds|], d)
    ensures Dealt(answer, policy, mode, t, MarkId(t', records[|deeds|].id, d.mark), first, records, deeds + [d])
  {
    assert (deeds + [d])[..|deeds|] == deeds;
  }

  /** The kinds of result the summaries count. */
  datatype Fate = Finished | Rescheduled | GivenUp | FoundStale

  predicate Meets(d: Deed, fate: Fate) {
    match fate
    case Finished => d.mark.MarkDone?
    case Rescheduled => d.mark.MarkRetry?
    case GivenUp => d.mark.MarkFailed?
    case FoundStale => d.verdict == Stale
  }

  function Tally(deeds: seq<Deed>, fate: Fate): nat {
    if deeds == [] then 0
    else Tally(deeds[..|deeds| - 1], fate) + if Meets(deeds[|deeds| - 1], fate) then 1 else 0
  }

  lemma TallyStep(deeds: seq<Deed>, d: Deed, fate: Fate)
    ensures Tally(deeds + [d], fate) == Tally(deeds, fate) + if Meets(d, fate) then 1 else 0
  {
    assert (deeds + [d])[..|deeds|] == deeds;
  }

  /** A tally counts the records that meet the fate. */
  lemma {:induction false} TallyIsCount(deeds: seq<Deed>, fate: Fate, ids: set<int>)
    requires forall i :: i in ids <==> 0 <= i < |deeds| && Meets(deeds[i], fate)
    ensures Tally(deeds, fate) == |ids|
    decreases |deeds|
  {
    if deeds == [] {
      assert forall i :: i !in ids;
      assert ids == {};
    } else {
      var n := |deeds| - 1;
      TallyIsCount(deeds[..n], fate, ids - {n});
      assert n in ids ==> ids == (ids - {n}) + {n};
      assert n !in ids ==> ids == ids - {n};
    }
  }

  /** The row of a record with this fate: the record as claimed, and the row as the pass leaves it. */
  ghost predicate Settled(fate: Fate, error: string, r: Row, r': Row) {
    && r'.identity == r.identity && r'.leaseUntil.None?
    && match fate
       case Rescheduled => r'.status == Pending && r'.attempts == r.attempts + 1 && r'.lastError == Some(error)
       case GivenUp => r'.status == Failed && r'.attempts == r.attempts + 1 && r'.lastError == Some(error)
       case _ => r'.status == Done && r'.attempts == r.attempts && r'.lastError == r.lastError
  }

  /** The records with this fate. */
  ghost function WithFate(fateOf: (nat, Row) -> Fate, first: nat, records: seq<Claimed>, fate: Fate): set<int> {
    set i | 0 <= i < |records| && fateOf(first + i, records[i].row) == fate
  }

  /** `fateOf` and `errorOf` say what the answers mean. */
  ghost predicate Explains(answer: Oracle, fateOf: (nat, Row) -> Fate, errorOf: (nat, Row) -> string) {
    forall k, r :: Explained(answer(k, r), fateOf(k, r), errorOf(k, r), r)
  }

  predicate Explained(v: Verdict, fate: Fate, error: string, r: Row) {
    match v
    case Retryable(e) => error == e && fate == if r.attempts + 1 < r.identity.maxAttempts then Rescheduled else GivenUp
    case Rejected(e) => error == e && fate == GivenUp
    case _ => fate == Finished
  }

  /** Every claimed row is settled as the fate of its own call demands. */
  ghost predicate Settles(fateOf: (nat, Row) -> Fate, errorOf: (nat, Row) -> string, first: nat, g: Grab, t': Table) {
    forall i :: 0 <= i < |g.picked| ==>
      var r := ClaimRow(g.picked[i].row, g.now, g.lease);
      g.picked[i].id in t' && Settled(fateOf(first + i, r), errorOf(first + i, r), r, t'[g.picked[i].id])
  }

  /** The tallies are the numbers of records with each fate. */
  ghost predicate Counts(fateOf: (nat, Row) -> Fate, first: nat, records: seq<Claimed>, deeds: seq<Deed>) {
    && Tally(deeds, Finished) == |WithFate(fateOf, first, records, Finished)|
    && Tally(deeds, Rescheduled) == |WithFate(fateOf, first, records, Rescheduled)|
    && Tally(deeds, GivenUp) == |WithFate(fateOf, first, records, GivenUp)|
  }

  lemma CountFates(fateOf: (nat, Row) -> Fate, first: nat, records: seq<Claimed>, deeds: seq<Deed>)
    requires |deeds| == |records|
    requires forall i :: 0 <= i < |deeds| ==>
      forall fate :: fate != FoundStale ==> (Meets(deeds[i], fate) <==> fateOf(first + i, records[i].row) == fate)
    ensures Counts(fateOf, first, records, deeds)
  {
    TallyIsCount(deeds, Finished, WithFate(fateOf, first, records, Finished));
    TallyIsCount(deeds, Rescheduled, WithFate(fateOf, first, records, Rescheduled));
    TallyIsCount(deeds, GivenUp, WithFate(fateOf, first, records, GivenUp));
  }

  /** One record: its mark settles it as its fate demands, and the counters see it so. */
  lemma MarkSettles(r: Row, d: Deed, fate: Fate, error: string)
    requires Explained(d.verdict, fate, error, r) && MarkFits(r, d.verdict, d.mark)
    ensures Settled(fate, error, r, ApplyMark(r, d.mark))
    ensures forall f :: f != FoundStale ==> (Meets(d, f) <==> fate == f)
  {
  }

  /**
   * One pass claims a batch, calls each record once and marks it once, as the answer for it
   * demands, and touches no other row.
   */
  ghost predicate IsPass(answer: Oracle, policy: Policy, t: Table, t': Table, first: nat, g: Grab, deeds: seq<Deed>) {
    && Takes(t, g) && |deeds| == |g.picked|
    && Dealt(answer, policy, g.mode, Grabbed(t, g), t', first, Mirror(g.picked, g.now, g.lease), deeds)
  }

  /** The two statements of a pass's transaction, put together. */
  lemma TransactionPieces(t: Table, view: Table, t': Table, now: Time, lease: Time, mode: Mode, limit: nat, picked: seq<Claimed>)
    returns (g: Grab)
    requires view == ReclaimIds(t, ExpiredIds(t, now), now) && IsBatch(view, now, mode, limit, {}, picked)
    requires t' == ClaimIds(view, picked, now, lease)
    ensures g == Grab(now, lease, mode, limit, {}, ExpiredIds(t, now), picked)
    ensures Takes(t, g) && t' == Grabbed(t, g)
  {
    g := Grab(now, lease, mode, limit, {}, ExpiredIds(t, now), picked);
  }

  lemma PassFits(answer: Oracle, policy: Policy, t: Table, t': Table, first: nat, g: Grab, deeds: seq<Deed>)
    requires IsPass(answer, policy, t, t', first, g, deeds)
    ensures Fitting(g.mode, Mirror(g.picked, g.now, g.lease), deeds)
  {
    EachDuly(answer, policy, g.mode, first, Mirror(g.picked, g.now, g.lease), deeds);
  }

  /** Row by row: each claimed row carries its own mark, and rows the transaction did not touch are as they were. */
  lemma PassRows(answer: Oracle, policy: Policy, t: Table, t': Table, first: nat, g: Grab, deeds: seq<Deed>)
    requires IsPass(answer, policy, t, t', first, g, deeds)
    ensures t'.Keys == t.Keys
    ensures forall x :: x in t && !Holds(g.picked, x) ==> t'[x] == if Expired(t[x], g.now) then ReclaimRow(t[x], g.now) else t[x]
    ensures forall i :: 0 <= i < |g.picked| ==>
      && g.picked[i].id in t'
      && t'[g.picked[i].id] == ApplyMark(ClaimRow(g.picked[i].row, g.now, g.lease), deeds[i].mark)
      && Duly(answer, policy, g.mode, first + i, Mirror(g.picked, g.now, g.lease)[i], deeds[i])
  {
    var records := Mirror(g.picked, g.now, g.lease);
    BatchIsStored(View(t, g), g.picked, g.now, g.lease);
    MarkAllRows(Grabbed(t, g), records, deeds);
    EachDuly(answer, policy, g.mode, first, records, deeds);
    forall x | x in t && !Holds(g.picked, x)
      ensures !Holds(records, x)
    {
      assert forall i :: 0 <= i < |records| ==> records[i].id == g.picked[i].id;
    }
  }

  /** A pass settles every claimed row as the answer to its call demands, and counts the answers. */
  lemma PassSettles(answer: Oracle, fateOf: (nat, Row) -> Fate, errorOf: (nat, Row) -> string, policy: Policy,
                    t: Table, t': Table, first: nat, g: Grab, deeds: seq<Deed>)
    requires IsPass(answer, policy, t, t', first, g, deeds) && Explains(answer, fateOf, errorOf)
    ensures Settles(fateOf, errorOf, first, g, t') && Counts(fateOf, first, Mirror(g.picked, g.now, g.lease), deeds)
  {
    var records := Mirror(g.picked, g.now, g.lease);
    assert forall i :: 0 <= i < |g.picked| ==>
      && g.picked[i].id in t' && t'[g.picked[i].id] == ApplyMark(records[i].row, deeds[i].mark)
      && Duly(answer, policy, g.mode, first + i, records[i], deeds[i]) by {
      PassRows(answer, policy, t, t', first, g, deeds);
    }
    forall i | 0 <= i < |g.picked|
      ensures Settled(fateOf(first + i, records[i].row), errorOf(first + i, records[i].row), records[i].row, t'[g.picked[i].id])
      ensures forall f :: f != FoundStale ==> (Meets(deeds[i], f) <==> fateOf(first + i, records[i].row) == f)
    {
      var r := records[i].row;
      assert Duly(answer, policy, g.mode, first + i, records[i], deeds[i]);
      assert Explained(answer(first + i, r), fateOf(first + i, r), errorOf(first + i, r), r);
      MarkSettles(r, deeds[i], fateOf(first + i, r), errorOf(first + i, r));
    }
    CountFates(fateOf, first, records, deeds);
  }

  lemma CountStale(answer: Oracle, policy: Policy, t: Table, t': Table, first: nat, g: Grab, deeds: seq<Deed>, ids: set<int>)
    requires IsPass(answer, policy, t, t', first, g, deeds)
    requires forall i :: i in ids <==> 0 <= i < |g.picked| && answer(first + i, Mirror(g.picked, g.now, g.lease)[i].row) == Stale
    ensures Tally(deeds, FoundStale) == |ids|
  {
    EachDuly(answer, policy, g.mode, first, Mirror(g.picked, g.now, g.lease), deeds);
    TallyIsCount(deeds, FoundStale, ids);
  }

  /** Every pass deals with what it claims and spends at least one of the attempts left for each row. */
  lemma PassCounts(answer: Oracle, policy: Policy, t: Table, t': Table, first: nat, g: Grab, deeds: seq<Deed>)
    requires IsPass(answer, policy, t, t', first, g, deeds)
    ensures |g.picked| == Tally(deeds, Finished) + Tally(deeds, Rescheduled) + Tally(deeds, GivenUp)
    ensures AttemptsBounded(t) ==> AttemptsBounded(t') && |Tokens(t')| + |g.picked| <= |Tokens(t)|
    ensures (forall k, r :: answer(k, r) == Completed) ==>
      && Tally(deeds, Finished) == |g.picked|
      && ActiveIds(t') == ActiveIds(t) - Ids(g.picked) && Ids(g.picked) <= ActiveIds(t)
  {
    CountsAddUp(deeds);
    PassFits(answer, policy, t, t', first, g, deeds);
    if AttemptsBounded(t) {
      PassSpendsTokens(t, g, deeds);
    }
    if forall k, r :: answer(k, r) == Completed {
      PassCompletes(answer, policy, t, t', first, g, deeds);
    }
  }

  lemma PassCompletes(answer: Oracle, policy: Policy, t: Table, t': Table, first: nat, g: Grab, deeds: seq<Deed>)
    requires IsPass(answer, policy, t, t', first, g, deeds) && forall k, r :: answer(k, r) == Completed
    ensures Tally(deeds, Finished) == |g.picked|
    ensures ActiveIds(t') == ActiveIds(t) - Ids(g.picked) && Ids(g.picked) <= ActiveIds(t)
  {
    EachDuly(answer, policy, g.mode, first, Mirror(g.picked, g.now, g.lease), deeds);
    assert forall i :: 0 <= i < |deeds| ==> deeds[i].mark.MarkDone?;
    OnlyDone(deeds);
    SameIds(g.picked, g.now, g.lease);
    GrabKeepsTokens(t, g);
    BatchIsStored(View(t, g), g.picked, g.now, g.lease);
    AllDone(Grabbed(t, g), Mirror(g.picked, g.now, g.lease), deeds);
  }

  /** The run extended by the events of a pass leads to the table the pass leaves. */
  lemma PassExtendsRun(answer: Oracle, policy: Policy, run: seq<Event>, t: Table, t': Table, w: WorkerId, first: nat, g: Grab, deeds: seq<Deed>)
    requires Quiet(run, t) && WorkerOf(After(run), w).Idle? && IsPass(answer, policy, t, t', first, g, deeds)
    ensures Quiet(run + PassLog(w, g, deeds), t') && WorkerOf(After(run + PassLog(w, g, deeds)), w).Idle?
  {
    PassFits(answer, policy, t, t', first, g, deeds);
    PassReturns(run, t, w, g, deeds);
  }

  /** In a run within its leases no row is beyond its ceiling. */
  lemma QuietIsBounded(run: seq<Event>, t: Table)
    requires Quiet(run, t) && WithinLease(run)
    ensures AttemptsBounded(t)
  {
    AttemptsStayBounded(run);
  }

  /** If the clock is steady and no call or mark since `base` outlasts its lease, the run is still within its leases. */
  ghost predicate InTime(clock: nat -> Time, from: nat, to: nat, base: seq<Event>, run: seq<Event>) {
    && from <= to && base <= run
    && (WithinLease(base) && EndsBy(base, clock(from)) && Steady(clock, from, to) && TimelyFrom(run, |base|) ==>
          WithinLease(run) && EndsBy(run, clock(if from < to then to - 1 else from)))
  }

  /** `InTime`, written out. */
  lemma InTimeMeans(clock: nat -> Time, from: nat, to: nat, base: seq<Event>, run: seq<Event>)
    requires InTime(clock, from, to, base, run) && WithinLease(base)
    requires base != [] ==> base[|base| - 1].at <= clock(from)
    requires forall i, j :: from <= i <= j < to ==> clock(i) <= clock(j)
    requires forall i :: |base| <= i < |run| ==>
      && (run[i].Claim? || run[i].Select? ==> run[i].grab.now <= run[i].at)
      && (run[i].Call? || run[i].MarkIt? ==> run[i].at <= run[i].lease)
    ensures WithinLease(run)
  {
  }

  /** Everything `run_once` promises of a pass, whichever runner made it. */
  lemma PassPromises(answer: Oracle, policy: Policy, clock: nat -> Time, from: nat, to: nat,
                     run: seq<Event>, t: Table, t': Table, w: WorkerId, first: nat, g: Grab, deeds: seq<Deed>)
    requires Quiet(run, t) && WorkerOf(After(run), w).Idle? && IsPass(answer, policy, t, t', first, g, deeds)
    requires Ticking(clock, from, to, deeds) && g.now == clock(from)
    ensures var run' := run + PassLog(w, g, deeds);
      && Quiet(run', t') && WorkerOf(After(run'), w).Idle?
      && (Steady(clock, from, to) && clock(to - 1) <= g.lease ==> TimelyFrom(run', |run|))
      && InTime(clock, from, to, run, run')
    ensures |g.picked| == Tally(deeds, Finished) + Tally(deeds, Rescheduled) + Tally(deeds, GivenUp)
    ensures WithinLease(run) || AttemptsBounded(t) ==> AttemptsBounded(t') && |Tokens(t')| + |g.picked| <= |Tokens(t)|
  {
    PassExtendsRun(answer, policy, run, t, t', w, first, g, deeds);
    PassCounts(answer, policy, t, t', first, g, deeds);
    if WithinLease(run) {
      QuietIsBounded(run, t);
    }
    if Steady(clock, from, to) {
      PassIsTimely(run, w, g, deeds, clock(to - 1));
    }
  }

  lemma {:induction false} CountsAddUp(deeds: seq<Deed>)
    ensures Tally(deeds, Finished) + Tally(deeds, Rescheduled) + Tally(deeds, GivenUp) == |deeds|
  {
    if deeds != [] {
      CountsAddUp(deeds[..|deeds| - 1]);
    }
  }

  lemma {:induction false} OnlyDone(deeds: seq<Deed>)
    ensures (forall i :: 0 <= i < |deeds| ==> deeds[i].mark.MarkDone?) ==> Tally(deeds, Finished) == |deeds|
  {
    if deeds != [] {
      OnlyDone(deeds[..|deeds| - 1]);
    }
  }

  lemma SameIds(picked: seq<Claimed>, now: Time, lease: Time)
    ensures Ids(Mirror(picked, now, lease)) == Ids(picked)
  {
    var records := Mirror(picked, now, lease);
    assert forall i :: 0 <= i < |picked| ==> records[i].id == picked[i].id;
    forall x | x in Ids(picked) ensures x in Ids(records) {
      var i :| 0 <= i < |picked| && picked[i].id == x;
      assert records[i].id == x;
    }
    forall x | x in Ids(records) ensures x in Ids(picked) {
      var i :| 0 <= i < |records| && records[i].id == x;
      assert picked[i].id == x;
    }
  }
}
