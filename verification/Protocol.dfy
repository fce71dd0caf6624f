/**
 * Any number of workers running `run_once` against one shared table, as a state machine.
 * A run is a sequence of events; `Legal` says which runs the code allows and `After` gives
 * the state a run leads to.  Nothing about clocks or lease expiry restricts a step: those
 * are hypotheses on runs, stated at the end.
 */
module Protocol {
  import opened Wrappers
  import opened MessageTable

  type WorkerId = nat

  /**
   * One reclaim-and-claim transaction: the `now` it read, the lease it grants, the query it
   * runs, the rows it reclaims, the rows it finds locked and the rows it picks.
   */
  datatype Grab = Grab(
    now: Time, lease: Time, mode: Mode, limit: nat,
    skipped: set<Id>, reclaimed: set<Id>, picked: seq<Claimed>)

  /**
   * `Selected` is the MySQL worker between its SELECT ... FOR UPDATE and its commit: the rows
   * it reclaimed or picked are locked and none of its writes is visible yet.
   * `Handling` is a worker past its commit; `todo` starts with the record it is working on.
   */
  datatype Worker =
    | Idle
    | Selected(grab: Grab)
    | Handling(lease: Time, mode: Mode, todo: seq<Claimed>, verdict: Option<Verdict>)

  datatype State = State(table: Table, workers: map<WorkerId, Worker>)

  datatype Event =
    | Receive(at: Time, id: Id, identity: Identity, inserted: bool)
    | Claim(w: WorkerId, at: Time, grab: Grab)
    | Select(w: WorkerId, at: Time, grab: Grab)
    | Commit(w: WorkerId, at: Time, grab: Grab)
    | Call(w: WorkerId, at: Time, mode: Mode, id: Id, lease: Time, verdict: Verdict)
    | MarkIt(w: WorkerId, at: Time, id: Id, lease: Time, mark: Mark)
    | Leave(w: WorkerId, at: Time)

  function WorkerOf(s: State, w: WorkerId): Worker {
    if w in s.workers then s.workers[w] else Idle
  }

  predicate LocksRow(worker: Worker, x: Id) {
    worker.Selected? && (x in worker.grab.reclaimed || Holds(worker.grab.picked, x))
  }

  /** Some worker other than `w` has a row lock on `x`. */
  predicate Locked(s: State, w: WorkerId, x: Id) {
    exists v :: v in s.workers && v != w && LocksRow(s.workers[v], x)
  }

  /** The table as a transaction sees it after its own `reclaim_expired`. */
  function View(t: Table, g: Grab): Table {
    ReclaimIds(t, g.reclaimed, g.now)
  }

  /** The table once the transaction's two updates are visible. */
  function Grabbed(t: Table, g: Grab): Table {
    ClaimIds(View(t, g), g.picked, g.now, g.lease)
  }

  /**
   * `skipped` holds at least the rows other transactions keep locked; it may hold more, since
   * a mark or a duplicate insert also locks its row for an instant.  A reclaim that meets a
   * locked row waits, so it does not happen while the lock is held.  Reclaim and claim are two
   * statements of the transaction, taken here at the second one: a row that got an expired
   * lease between them is not in `reclaimed`.
   */
  predicate CanGrab(s: State, w: WorkerId, g: Grab) {
    && WorkerOf(s, w).Idle?
    && g.reclaimed <= ExpiredIds(s.table, g.now)
    && (forall x :: x in s.table && Locked(s, w, x) ==> x in g.skipped && x !in g.reclaimed)
    && IsBatch(View(s.table, g), g.now, g.mode, g.limit, g.skipped, g.picked)
  }

  predicate Busy(worker: Worker, x: Id, lease: Time) {
    worker.Handling? && worker.todo != [] && worker.todo[0].id == x && worker.lease == lease
  }

  predicate Enabled(s: State, e: Event) {
    match e
    case Receive(_, id, identity, inserted) =>
      inserted == !Known(s.table, identity) && (inserted ==> id !in s.table)
    case Claim(w, _, g) => CanGrab(s, w, g)
    case Select(w, _, g) => CanGrab(s, w, g)
    case Commit(w, _, g) => WorkerOf(s, w) == Selected(g)
    case Call(w, _, mode, id, lease, verdict) =>
      var worker := WorkerOf(s, w);
      Busy(worker, id, lease) && worker.verdict.None? && worker.mode == mode && Permitted(mode, verdict)
    case MarkIt(w, _, id, lease, mark) =>
      var worker := WorkerOf(s, w);
      && Busy(worker, id, lease) && worker.verdict.Some?
      && MarkFits(worker.todo[0].row, worker.verdict.value, mark)
      && !Locked(s, w, id)
    case Leave(w, _) => true
  }

  function Apply(s: State, e: Event): State {
    match e
    case Receive(_, id, identity, inserted) =>
      if inserted then s.(table := s.table[id := PendingRow(identity)]) else s
    case Claim(w, _, g) =>
      State(Grabbed(s.table, g), s.workers[w := Handling(g.lease, g.mode, Mirror(g.picked, g.now, g.lease), None)])
    case Select(w, _, g) =>
      s.(workers := s.workers[w := Selected(g)])
    case Commit(w, _, g) =>
      State(Grabbed(s.table, g), s.workers[w := Handling(g.lease, g.mode, Mirror(g.picked, g.now, g.lease), None)])
    case Call(w, _, _, _, _, verdict) =>
      var worker := WorkerOf(s, w);
      if worker.Handling? then s.(workers := s.workers[w := worker.(verdict := Some(verdict))]) else s
    case MarkIt(w, _, id, _, mark) =>
      var worker := WorkerOf(s, w);
      State(
        MarkId(s.table, id, mark),
        if worker.Handling? && worker.todo != []
        then s.workers[w := worker.(todo := worker.todo[1..], verdict := None)] else s.workers)
    case Leave(w, _) => s.(workers := s.workers[w := Idle])
  }

  const Start: State := State(map[], map[])

  function After(run: seq<Event>): State {
    if run == [] then Start else Apply(After(run[..|run| - 1]), run[|run| - 1])
  }

  /** Every event is enabled in the state the events before it lead to. */
  predicate Legal(run: seq<Event>) {
    run == [] || (Legal(run[..|run| - 1]) && Enabled(After(run[..|run| - 1]), run[|run| - 1]))
  }

  lemma AfterPrefix(run: seq<Event>, i: nat)
    requires i < |run|
    ensures After(run[..i + 1]) == Apply(After(run[..i]), run[i])
  {
    assert run[..i + 1][..i] == run[..i];
  }

  lemma {:induction false} LegalPrefix(run: seq<Event>, n: nat)
    requires Legal(run) && n <= |run|
    ensures Legal(run[..n])
    decreases |run|
  {
    if n == |run| {
      assert run[..n] == run;
    } else {
      var m := |run| - 1;
      LegalPrefix(run[..m], n);
      assert run[..m][..n] == run[..n];
    }
  }

  lemma LegalAt(run: seq<Event>, i: nat)
    requires Legal(run) && i < |run|
    ensures Legal(run[..i]) && Enabled(After(run[..i]), run[i])
    ensures After(run[..i + 1]) == Apply(After(run[..i]), run[i])
  {
    LegalPrefix(run, i + 1);
    assert run[..i + 1][..i] == run[..i];
  }

  lemma Extend(run: seq<Event>, e: Event)
    requires Legal(run) && Enabled(After(run), e)
    ensures Legal(run + [e]) && After(run + [e]) == Apply(After(run), e)
  {
    assert (run + [e])[..|run|] == run;
  }

  // ---- hypotheses on runs ----

  predicate Grabs(e: Event) {
    e.Claim? || e.Select?
  }

  /** `now` was read before the transaction; calls and marks happen within the lease. */
  predicate Timely(e: Event) {
    && (Grabs(e) ==> e.grab.now <= e.at)
    && (e.Call? || e.MarkIt? ==> e.at <= e.lease)
  }

  /** H1: one monotone clock, and no worker calls or marks after the lease it was granted. */
  predicate WithinLease(run: seq<Event>) {
    && (forall i, j :: 0 <= i < j < |run| ==> run[i].at <= run[j].at)
    && (forall i :: 0 <= i < |run| ==> Timely(run[i]))
  }

  predicate Inserts(e: Event) {
    e.Receive? && e.inserted
  }

  /** H2: within one key, rows become visible in non-decreasing stamp. */
  predicate StampedInOrder(run: seq<Event>) {
    forall i, j :: 0 <= i < j < |run| && Inserts(run[i]) && Inserts(run[j]) ==>
      var a, b := run[i].identity, run[j].identity;
      (&& a.envelope.metadata.eventType == b.envelope.metadata.eventType
       && a.envelope.metadata.orderingKey.Some? && a.envelope.metadata.orderingKey == b.envelope.metadata.orderingKey) ==> a.stampedAt <= b.stampedAt
  }

  /** H3: no worker uses the unordered query (always so for the outbox). */
  predicate FifoOnly(run: seq<Event>) {
    forall i :: 0 <= i < |run| && Grabs(run[i]) ==> run[i].grab.mode != InboxUnordered
  }
}
