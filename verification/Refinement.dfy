/**
 * Two dialects, one semantics: a run in which some workers claim the MySQL way (SELECT ...
 * FOR UPDATE SKIP LOCKED, then UPDATE, then commit, with other workers' steps in between)
 * acts as a run in which every claim is the single PostgreSQL statement.
 */
module Refinement {
  import opened Wrappers
  import opened MessageTable
  import opened Protocol
  import opened RunFacts
  import opened History

  predicate ByWorker(e: Event, w: WorkerId) {
    !e.Receive? && e.w == w
  }

  // ---- runs from an arbitrary state ----

  function Play(s: State, run: seq<Event>): State
    decreases |run|
  {
    if run == [] then s else Play(Apply(s, run[0]), run[1..])
  }

  /** The event's transaction, if it opens one, reclaims every expired row. */
  predicate Thorough(s: State, e: Event) {
    Grabs(e) ==> e.grab.reclaimed == ExpiredIds(s.table, e.grab.now)
  }

  /** No transaction of the run overlooks an expired row. */
  predicate ThoroughRun(run: seq<Event>) {
    run == [] || (ThoroughRun(run[..|run| - 1]) && Thorough(After(run[..|run| - 1]), run[|run| - 1]))
  }

  predicate Allowed(s: State, e: Event, exact: bool) {
    Enabled(s, e) && (exact ==> Thorough(s, e))
  }

  /** Every event is enabled and, if `exact`, thorough. */
  predicate Playable(s: State, run: seq<Event>, exact: bool)
    decreases |run|
  {
    run == [] || (Allowed(s, run[0], exact) && Playable(Apply(s, run[0]), run[1..], exact))
  }

  lemma {:induction false} PlayAppends(s: State, a: seq<Event>, b: seq<Event>, exact: bool)
    ensures Play(s, a + b) == Play(Play(s, a), b)
    ensures Playable(s, a + b, exact) <==> Playable(s, a, exact) && Playable(Play(s, a), b, exact)
    decreases |a|
  {
    if a == [] {
      assert a + b == b;
    } else {
      assert (a + b)[0] == a[0] && (a + b)[1..] == a[1..] + b;
      PlayAppends(Apply(s, a[0]), a[1..], b, exact);
    }
  }

  /** `Play` from the start is `After`, and playable from the start is legal and, if `exact`, thorough. */
  lemma {:induction false} PlayIsAfter(run: seq<Event>, exact: bool)
    ensures Play(Start, run) == After(run)
    ensures Playable(Start, run, exact) <==> LegalAs(run, exact)
  {
    if run != [] {
      var n := |run| - 1;
      PlayIsAfter(run[..n], exact);
      assert run == run[..n] + [run[n]];
      PlayAppends(Start, run[..n], [run[n]], exact);
      assert Playable(After(run[..n]), [run[n]], exact) <==> Allowed(After(run[..n]), run[n], exact);
    }
  }

  predicate LegalAs(run: seq<Event>, exact: bool) {
    Legal(run) && (exact ==> ThoroughRun(run))
  }

  // ---- a commit can be moved to just after its select ----

  /** The state with `w`'s open transaction already committed. */
  function Early(s: State, w: WorkerId, g: Grab): State {
    State(Grabbed(s.table, g), s.workers[w := Handling(g.lease, g.mode, Mirror(g.picked, g.now, g.lease), None)])
  }

  lemma UpdatesCommute(workers: map<WorkerId, Worker>, v: WorkerId, a: Worker, w: WorkerId, b: Worker)
    requires v != w
    ensures workers[v := a][w := b] == workers[w := b][v := a]
  {
  }

  /** Two transactions over disjoint rows can commit in either order. */
  lemma GrabsCommute(t: Table, g: Grab, h: Grab)
    requires forall x :: x in t && (x in g.reclaimed || Holds(g.picked, x)) ==> !(x in h.reclaimed || Holds(h.picked, x))
    ensures Grabbed(Grabbed(t, g), h) == Grabbed(Grabbed(t, h), g)
  {
    var a, b := Grabbed(Grabbed(t, g), h), Grabbed(Grabbed(t, h), g);
    assert a.Keys == t.Keys && b.Keys == t.Keys;
    forall x | x in t
      ensures a[x] == b[x]
    {
    }
  }

  /** What another worker's query sees once `g` is committed: the same, except for rows `g` locked. */
  lemma ViewBeyond(s: State, w: WorkerId, g: Grab, v: WorkerId, h: Grab)
    requires Sound(s) && WorkerOf(s, w) == Selected(g) && v != w && CanGrab(s, v, h)
    ensures h.reclaimed <= ExpiredIds(Grabbed(s.table, g), h.now)
    ensures h.reclaimed == ExpiredIds(s.table, h.now) && h.now <= g.lease ==> h.reclaimed == ExpiredIds(Grabbed(s.table, g), h.now)
    ensures forall x :: x in s.table && LocksRow(Selected(g), x) ==> x in h.skipped && x !in h.reclaimed && !Holds(h.picked, x)
    ensures IsBatch(View(Grabbed(s.table, g), h), h.now, h.mode, h.limit, h.skipped, h.picked)
  {
    var t, t2 := s.table, Grabbed(s.table, g);
    forall x | x in t && LocksRow(Selected(g), x)
      ensures x in h.skipped && x !in h.reclaimed && !Holds(h.picked, x)
    {
      assert Locked(s, v, x);
    }
    forall x | x in t
      ensures !LocksRow(Selected(g), x) ==> t2[x] == t[x]
      ensures LocksRow(Selected(g), x) && h.now <= g.lease ==> !Expired(t2[x], h.now)
    {
      assert Undisturbed(t, g);
    }
    assert h.now <= g.lease && h.reclaimed == ExpiredIds(t, h.now) ==> h.reclaimed == ExpiredIds(t2, h.now);
    ViewsAgree(t, g, h);
    BatchBeyond(View(t, h), View(t2, h), h);
  }

  /** Two tables that agree on every row outside `skipped` and on identity and activity within it. */
  ghost predicate SameOutside(a: Table, b: Table, skipped: set<Id>) {
    && a.Keys == b.Keys
    && (forall x :: x in a && x !in skipped ==> a[x] == b[x])
    && (forall x :: x in a ==> a[x].identity == b[x].identity && (Active(a[x]) <==> Active(b[x])))
  }

  lemma ViewsAgree(t: Table, g: Grab, h: Grab)
    requires Undisturbed(t, g)
    requires forall x :: x in t && LocksRow(Selected(g), x) ==> x in h.skipped && x !in h.reclaimed
    ensures SameOutside(View(t, h), View(Grabbed(t, g), h), h.skipped)
  {
    var a, b := View(t, h), View(Grabbed(t, g), h);
    assert a.Keys == t.Keys && b.Keys == t.Keys;
    forall x | x in t
      ensures x !in h.skipped ==> a[x] == b[x]
      ensures a[x].identity == b[x].identity && (Active(a[x]) <==> Active(b[x]))
    {
      assert x !in h.skipped ==> !LocksRow(Selected(g), x);
      if LocksRow(Selected(g), x) {
        assert Active(t[x]);
      }
    }
  }

  lemma BatchBeyond(a: Table, b: Table, h: Grab)
    requires SameOutside(a, b, h.skipped) && IsBatch(a, h.now, h.mode, h.limit, h.skipped, h.picked)
    ensures IsBatch(b, h.now, h.mode, h.limit, h.skipped, h.picked)
  {
    forall x | x in a
      ensures GateOpen(a, a[x].identity) <==> GateOpen(b, b[x].identity)
    {
      GatesAgree(a, b, a[x].identity, h.skipped);
    }
    assert forall x :: x in a && x !in h.skipped ==> (Eligible(a, x, h.now, h.mode) <==> Eligible(b, x, h.now, h.mode));
    forall x | x in b && Eligible(b, x, h.now, h.mode) && x !in h.skipped && !Holds(h.picked, x)
      ensures |h.picked| == h.limit
      ensures forall i :: 0 <= i < |h.picked| ==> h.picked[i].row.identity.stampedAt <= b[x].identity.stampedAt
    {
      assert Eligible(a, x, h.now, h.mode);
    }
  }

  lemma GatesAgree(a: Table, b: Table, candidate: Identity, skipped: set<Id>)
    requires SameOutside(a, b, skipped)
    ensures GateOpen(a, candidate) <==> GateOpen(b, candidate)
  {
    if GateOpen(a, candidate) {
      forall x | x in b && Precedes(b[x].identity, candidate)
        ensures Terminal(b[x])
      {
        assert x in a && Precedes(a[x].identity, candidate);
      }
    }
    if GateOpen(b, candidate) {
      forall x | x in a && Precedes(a[x].identity, candidate)
        ensures Terminal(a[x])
      {
        assert x in b && Precedes(b[x].identity, candidate);
      }
    }
  }

  /** The commit of `w` moves left past one step of anybody else. */
  lemma CommitMovesLeft(s: State, e: Event, w: WorkerId, g: Grab, exact: bool)
    requires Sound(s) && WorkerOf(s, w) == Selected(g) && Allowed(s, e, exact) && !ByWorker(e, w)
    requires exact && Grabs(e) ==> e.grab.now <= g.lease
    ensures WorkerOf(Apply(s, e), w) == Selected(g)
    ensures Allowed(Early(s, w, g), e, exact) && Apply(Early(s, w, g), e) == Early(Apply(s, e), w, g)
  {
    assert Undisturbed(s.table, g);
    var early := Early(s, w, g);
    assert forall v :: v != w ==> WorkerOf(early, v) == WorkerOf(s, v);
    match e
    case Receive(_, id, identity, inserted) => ReceiveCommutes(s, e, w, g);
    case Claim(v, _, h) => GrabCommutes(s, e, w, g, exact);
    case Select(v, _, h) => GrabCommutes(s, e, w, g, exact);
    case Commit(v, _, h) =>
      forall x | x in s.table && (x in g.reclaimed || Holds(g.picked, x))
        ensures !(x in h.reclaimed || Holds(h.picked, x))
      {
        assert LocksRow(s.workers[w], x);
      }
      GrabsCommute(s.table, g, h);
    case Call(_, _, _, _, _, _) =>
    case MarkIt(v, _, id, _, mark) => MarkCommutes(s, e, w, g);
    case Leave(_, _) =>
  }

  lemma ReceiveCommutes(s: State, e: Event, w: WorkerId, g: Grab)
    requires Undisturbed(s.table, g) && e.Receive? && Enabled(s, e)
    ensures Enabled(Early(s, w, g), e) && Apply(Early(s, w, g), e) == Early(Apply(s, e), w, g)
  {
    var t, t2 := s.table, Grabbed(s.table, g);
    assert t2.Keys == t.Keys;
    assert Known(t, e.identity) <==> Known(t2, e.identity) by {
      assert forall x :: x in t ==> t[x].identity == t2[x].identity;
    }
    if e.inserted {
      assert !LocksRow(Selected(g), e.id);
      assert Grabbed(t[e.id := PendingRow(e.identity)], g) == t2[e.id := PendingRow(e.identity)];
    }
  }

  lemma GrabCommutes(s: State, e: Event, w: WorkerId, g: Grab, exact: bool)
    requires Sound(s) && WorkerOf(s, w) == Selected(g) && Grabs(e) && Allowed(s, e, exact) && e.w != w
    requires exact ==> e.grab.now <= g.lease
    ensures Allowed(Early(s, w, g), e, exact) && Apply(Early(s, w, g), e) == Early(Apply(s, e), w, g)
  {
    CanGrabBeyond(s, w, g, e.w, e.grab);
    ViewBeyond(s, w, g, e.w, e.grab);
    forall x | x in s.table && (x in g.reclaimed || Holds(g.picked, x))
      ensures !(x in e.grab.reclaimed || Holds(e.grab.picked, x))
    {
      assert Locked(s, e.w, x);
    }
    GrabsCommute(s.table, g, e.grab);
    UpdatesCommute(s.workers, w, WorkerOf(Early(s, w, g), w), e.w, WorkerOf(Apply(s, e), e.w));
  }

  lemma CanGrabBeyond(s: State, w: WorkerId, g: Grab, v: WorkerId, h: Grab)
    requires Sound(s) && WorkerOf(s, w) == Selected(g) && v != w && CanGrab(s, v, h)
    ensures CanGrab(Early(s, w, g), v, h)
  {
    var early := Early(s, w, g);
    ViewBeyond(s, w, g, v, h);
    forall x | x in early.table && Locked(early, v, x)
      ensures x in h.skipped && x !in h.reclaimed
    {
      var u :| u in early.workers && u != v && LocksRow(early.workers[u], x);
      assert u != w && early.workers[u] == s.workers[u];
      assert Locked(s, v, x);
    }
  }

  lemma MarkCommutes(s: State, e: Event, w: WorkerId, g: Grab)
    requires Sound(s) && WorkerOf(s, w) == Selected(g) && e.MarkIt? && Enabled(s, e) && e.w != w
    ensures Enabled(Early(s, w, g), e) && Apply(Early(s, w, g), e) == Early(Apply(s, e), w, g)
  {
    var t, early := s.table, Early(s, w, g);
    assert e.id in t;
    assert !LocksRow(s.workers[w], e.id);
    assert !Locked(early, e.w, e.id);
    var row := ApplyMark(t[e.id], e.mark);
    assert early.table[e.id] == t[e.id];
    assert Grabbed(t[e.id := row], g) == early.table[e.id := row];
  }

  /** What other workers do while the transaction is open: if `exact`, they read no `now` beyond its lease. */
  ghost predicate Meanwhile(mid: seq<Event>, w: WorkerId, g: Grab, exact: bool) {
    forall i :: 0 <= i < |mid| ==> !ByWorker(mid[i], w) && (exact && Grabs(mid[i]) ==> mid[i].grab.now <= g.lease)
  }

  lemma {:induction false} CommitMovesToSelect(s: State, mid: seq<Event>, w: WorkerId, g: Grab, exact: bool)
    requires Sound(s) && WorkerOf(s, w) == Selected(g) && Playable(s, mid, exact) && Meanwhile(mid, w, g, exact)
    ensures WorkerOf(Play(s, mid), w) == Selected(g)
    ensures Playable(Early(s, w, g), mid, exact) && Play(Early(s, w, g), mid) == Early(Play(s, mid), w, g)
    decreases |mid|
  {
    if mid != [] {
      CommitMovesLeft(s, mid[0], w, g, exact);
      SoundStep(s, mid[0]);
      CommitMovesToSelect(Apply(s, mid[0]), mid[1..], w, g, exact);
    }
  }

  lemma RunSplit(pre: seq<Event>, tail: seq<Event>, exact: bool)
    ensures LegalAs(pre + tail, exact) <==> LegalAs(pre, exact) && Playable(After(pre), tail, exact)
    ensures After(pre + tail) == Play(After(pre), tail)
  {
    PlayIsAfter(pre + tail, exact);
    PlayIsAfter(pre, exact);
    PlayAppends(Start, pre, tail, exact);
  }

  lemma PlayCons(s: State, e: Event, rest: seq<Event>, exact: bool)
    ensures Play(s, [e] + rest) == Play(Apply(s, e), rest)
    ensures Playable(s, [e] + rest, exact) <==> Allowed(s, e, exact) && Playable(Apply(s, e), rest, exact)
  {
    assert ([e] + rest)[1..] == rest;
  }

  lemma SelectCommitSwap(s: State, w: WorkerId, at: Time, at': Time, g: Grab, mid: seq<Event>, post: seq<Event>, exact: bool)
    requires Sound(s) && Playable(s, [Select(w, at, g)] + (mid + ([Commit(w, at', g)] + post)), exact) && Meanwhile(mid, w, g, exact)
    ensures Playable(s, [Claim(w, at, g)] + (mid + post), exact)
    ensures Play(s, [Claim(w, at, g)] + (mid + post)) == Play(s, [Select(w, at, g)] + (mid + ([Commit(w, at', g)] + post)))
  {
    PlayCons(s, Select(w, at, g), mid + ([Commit(w, at', g)] + post), exact);
    PlayCons(s, Claim(w, at, g), mid + post, exact);
    var begun := Apply(s, Select(w, at, g));
    SoundStep(s, Select(w, at, g));
    PlayAppends(begun, mid, [Commit(w, at', g)] + post, exact);
    CommitMovesToSelect(begun, mid, w, g, exact);
    PlayCons(Play(begun, mid), Commit(w, at', g), post, exact);
    assert Early(begun, w, g) == Apply(s, Claim(w, at, g));
    PlayAppends(Early(begun, w, g), mid, post, exact);
  }

  /**
   * The records the MySQL branch returns, built from the rows as read before the UPDATE, equal
   * the stored rows read back after it.
   */
  lemma RecordsMatchStoredRows(run: seq<Event>, k: nat, i: nat)
    requires Legal(run) && k < |run| && run[k].Commit? && i < |run[k].grab.picked|
    ensures var s' := After(run[..k + 1]); var worker := WorkerOf(s', run[k].w);
      && worker.Handling? && |worker.todo| == |run[k].grab.picked|
      && worker.todo[i].id in s'.table && worker.todo[i].row == s'.table[worker.todo[i].id]
  {
    LegalAt(run, k);
    SoundAlways(run[..k]);
    var g := run[k].grab;
    GrabIsUndisturbed(After(run[..k]), run[k]);
    assert Holds(g.picked, g.picked[i].id);
  }

  // ---- a rolled-back transaction can be moved to nowhere ----

  function Dropped(s: State, w: WorkerId): State {
    s.(workers := s.workers[w := Idle])
  }

  lemma OthersKeep(s: State, e: Event, w: WorkerId)
    requires Enabled(s, e) && !ByWorker(e, w)
    ensures WorkerOf(Apply(s, e), w) == WorkerOf(s, w)
  {
  }

  lemma DroppedLocks(s: State, w: WorkerId, v: WorkerId, x: Id)
    requires Locked(Dropped(s, w), v, x)
    ensures Locked(s, v, x)
  {
    var d := Dropped(s, w);
    var u :| u in d.workers && u != v && LocksRow(d.workers[u], x);
    assert s.workers[u] == d.workers[u];
  }

  lemma RollbackMovesLeft(s: State, e: Event, w: WorkerId)
    requires Enabled(s, e) && !ByWorker(e, w)
    ensures Enabled(Dropped(s, w), e) && Apply(Dropped(s, w), e) == Dropped(Apply(s, e), w)
    ensures WorkerOf(Apply(s, e), w) == WorkerOf(s, w)
    ensures Thorough(s, e) <==> Thorough(Dropped(s, w), e)
  {
    var d := Dropped(s, w);
    if !e.Receive? {
      assert WorkerOf(d, e.w) == WorkerOf(s, e.w);
      UpdatesCommute(s.workers, w, Idle, e.w, WorkerOf(Apply(s, e), e.w));
      forall x | Locked(d, e.w, x)
        ensures Locked(s, e.w, x)
      {
        DroppedLocks(s, w, e.w, x);
      }
    }
  }

  lemma {:induction false} RollbackMovesToSelect(s: State, mid: seq<Event>, w: WorkerId, exact: bool)
    requires Playable(s, mid, exact) && forall i :: 0 <= i < |mid| ==> !ByWorker(mid[i], w)
    ensures Playable(Dropped(s, w), mid, exact) && Play(Dropped(s, w), mid) == Dropped(Play(s, mid), w)
    ensures WorkerOf(Play(s, mid), w) == WorkerOf(s, w)
    decreases |mid|
  {
    if mid != [] {
      RollbackMovesLeft(s, mid[0], w);
      RollbackMovesToSelect(Apply(s, mid[0]), mid[1..], w, exact);
    }
  }

  lemma SelectLeaveSwap(s: State, w: WorkerId, at: Time, at': Time, g: Grab, mid: seq<Event>, post: seq<Event>, exact: bool)
    requires Playable(s, [Select(w, at, g)] + (mid + ([Leave(w, at')] + post)), exact)
    requires forall i :: 0 <= i < |mid| ==> !ByWorker(mid[i], w)
    ensures Playable(s, [Leave(w, at)] + (mid + post), exact)
    ensures Play(s, [Leave(w, at)] + (mid + post)) == Play(s, [Select(w, at, g)] + (mid + ([Leave(w, at')] + post)))
  {
    PlayCons(s, Select(w, at, g), mid + ([Leave(w, at')] + post), exact);
    PlayCons(s, Leave(w, at), mid + post, exact);
    var begun := Apply(s, Select(w, at, g));
    PlayAppends(begun, mid, [Leave(w, at')] + post, exact);
    RollbackMovesToSelect(begun, mid, w, exact);
    PlayCons(Play(begun, mid), Leave(w, at'), post, exact);
    assert Dropped(begun, w) == Apply(s, Leave(w, at));
    PlayAppends(Dropped(begun, w), mid, post, exact);
  }

  // ---- whole runs ----

  /** One monotone clock, `now` read before use, and every commit before the lease it grants expires. */
  ghost predicate Prompt(run: seq<Event>) {
    && (forall i, j :: NoLater(run, i, j))
    && (forall i :: 0 <= i < |run| ==> PromptEvent(run[i]))
  }

  predicate NoLater(run: seq<Event>, i: int, j: int) {
    0 <= i < j < |run| ==> run[i].at <= run[j].at
  }

  predicate PromptEvent(e: Event) {
    (Grabs(e) ==> e.grab.now <= e.at) && (e.Commit? ==> e.at <= e.grab.lease)
  }

  predicate Visible(e: Event) {
    e.Receive? || e.Call? || e.MarkIt?
  }

  /** The receipts, calls and marks of a run, in order: all that anyone outside can see of it. */
  function Seen(run: seq<Event>): seq<Event> {
    if run == [] then [] else (if Visible(run[0]) then [run[0]] else []) + Seen(run[1..])
  }

  /** With `SeenAppends` this says what is seen of every run. */
  lemma SeenOfOne(e: Event)
    ensures Seen([e]) == match e
      case Receive(_, _, _, _) => [e]
      case Call(_, _, _, _, _, _) => [e]
      case MarkIt(_, _, _, _, _) => [e]
      case _ => []
  {
  }

  lemma {:induction false} SeenAppends(a: seq<Event>, b: seq<Event>)
    ensures Seen(a + b) == Seen(a) + Seen(b)
    decreases |a|
  {
    if a == [] {
      assert a + b == b;
    } else {
      var head := if Visible(a[0]) then [a[0]] else [];
      assert (a + b)[0] == a[0] && (a + b)[1..] == a[1..] + b;
      SeenAppends(a[1..], b);
      assert head + (Seen(a[1..]) + Seen(b)) == (head + Seen(a[1..])) + Seen(b);
    }
  }

  /** Replaces the select at `i` by `e` and drops the event at `j`. */
  function Splice(run: seq<Event>, i: nat, j: nat, e: Event): seq<Event>
    requires i < j < |run|
  {
    run[..i] + ([e] + (run[i + 1..j] + run[j + 1..]))
  }

  lemma SpliceIsPrompt(run: seq<Event>, i: nat, j: nat, e: Event)
    requires i < j < |run| && Prompt(run) && e.at == run[i].at && PromptEvent(e)
    ensures Prompt(Splice(run, i, j, e))
  {
    var out := Splice(run, i, j, e);
    forall k | 0 <= k < |out|
      ensures out[k].at == run[if k < j then k else k + 1].at
      ensures PromptEvent(out[k])
    {
      assert k != i ==> out[k] == run[if k < j then k else k + 1];
    }
    forall k, l
      ensures NoLater(out, k, l)
    {
      assert NoLater(run, if k < j then k else k + 1, if l < j then l else l + 1);
    }
  }

  lemma SeenWithout(run: seq<Event>, k: nat)
    requires k < |run| && !Visible(run[k])
    ensures Seen(run) == Seen(run[..k] + run[k + 1..])
  {
    assert run == run[..k] + run[k..] && run[k..][1..] == run[k + 1..];
    SeenAppends(run[..k], run[k..]);
    SeenAppends(run[..k], run[k + 1..]);
  }

  lemma SpliceIsSeen(run: seq<Event>, i: nat, j: nat, e: Event)
    requires i < j < |run| && !Visible(e) && !Visible(run[i]) && !Visible(run[j])
    ensures Seen(Splice(run, i, j, e)) == Seen(run)
  {
    var shorter, out := run[..j] + run[j + 1..], Splice(run, i, j, e);
    SeenWithout(run, j);
    SeenWithout(shorter, i);
    SeenWithout(out, i);
    assert shorter[..i] + shorter[i + 1..] == out[..i] + out[i + 1..];
  }

  lemma OthersKeepWorker(run: seq<Event>, j: nat, w: WorkerId)
    requires Legal(run) && j < |run| && !ByWorker(run[j], w)
    ensures WorkerOf(After(run[..j + 1]), w) == WorkerOf(After(run[..j]), w)
  {
    LegalAt(run, j);
    OthersKeep(After(run[..j]), run[j], w);
  }

  lemma {:induction false} StaysSelected(run: seq<Event>, i: nat, j: nat)
    requires Legal(run) && i < j <= |run| && run[i].Select?
    requires forall k :: i < k < j ==> !ByWorker(run[k], run[i].w)
    ensures WorkerOf(After(run[..j]), run[i].w) == Selected(run[i].grab)
    decreases j
  {
    if j == i + 1 {
      AfterPrefix(run, i);
    } else {
      StaysSelected(run, i, j - 1);
      OthersKeepWorker(run, j - 1, run[i].w);
    }
  }

  /** The next event of a worker after `i`, if it has one. */
  lemma NextOfWorker(run: seq<Event>, i: nat, w: WorkerId) returns (j: nat)
    requires i < |run|
    ensures i < j <= |run| && (j < |run| ==> ByWorker(run[j], w))
    ensures forall k :: i < k < j ==> !ByWorker(run[k], w)
  {
    j := i + 1;
    while j < |run| && !ByWorker(run[j], w)
      invariant i < j <= |run|
      invariant forall k :: i < k < j ==> !ByWorker(run[k], w)
    {
      j := j + 1;
    }
  }

  lemma MeanwhileInRun(run: seq<Event>, i: nat, j: nat, exact: bool)
    requires (exact ==> Prompt(run)) && i < j < |run| && run[i].Select? && run[j].Commit? && run[j].grab == run[i].grab
    requires forall k :: i < k < j ==> !ByWorker(run[k], run[i].w)
    ensures Meanwhile(run[i + 1..j], run[i].w, run[i].grab, exact)
  {
    var mid := run[i + 1..j];
    forall k | 0 <= k < |mid|
      ensures !ByWorker(mid[k], run[i].w) && (exact && Grabs(mid[k]) ==> mid[k].grab.now <= run[i].grab.lease)
    {
      assert mid[k] == run[i + 1 + k];
      assert exact ==> PromptEvent(run[i + 1 + k]) && PromptEvent(run[j]) && NoLater(run, i + 1 + k, j);
    }
  }

  /** The single event that does the work of the transaction from `i` to `j`. */
  function InOneStep(run: seq<Event>, i: nat, j: nat): Event
    requires i < j < |run| && run[i].Select?
  {
    if run[j].Commit? then Claim(run[i].w, run[i].at, run[i].grab) else Leave(run[i].w, run[i].at)
  }

  /** The event that ends an open transaction. */
  lemma EndOfTransaction(run: seq<Event>, i: nat, j: nat)
    requires Legal(run) && i < j < |run| && run[i].Select? && ByWorker(run[j], run[i].w)
    requires forall k :: i < k < j ==> !ByWorker(run[k], run[i].w)
    ensures run[j] == if run[j].Commit? then Commit(run[i].w, run[j].at, run[i].grab) else Leave(run[i].w, run[j].at)
  {
    StaysSelected(run, i, j);
    LegalAt(run, j);
  }

  lemma SwapCommit(pre: seq<Event>, w: WorkerId, at: Time, at': Time, g: Grab, mid: seq<Event>, post: seq<Event>, exact: bool)
    requires LegalAs(pre + ([Select(w, at, g)] + (mid + ([Commit(w, at', g)] + post))), exact) && Meanwhile(mid, w, g, exact)
    ensures LegalAs(pre + ([Claim(w, at, g)] + (mid + post)), exact)
    ensures After(pre + ([Claim(w, at, g)] + (mid + post))) == After(pre + ([Select(w, at, g)] + (mid + ([Commit(w, at', g)] + post))))
  {
    RunSplit(pre, [Select(w, at, g)] + (mid + ([Commit(w, at', g)] + post)), exact);
    RunSplit(pre, [Claim(w, at, g)] + (mid + post), exact);
    SoundAlways(pre);
    SelectCommitSwap(After(pre), w, at, at', g, mid, post, exact);
  }

  /**
   * Dialect refinement, one transaction: a SELECT ... FOR UPDATE at one point and its UPDATE
   * and commit at another, with any steps of other workers between them, lead where the single
   * PostgreSQL statement taken at the SELECT leads.  If nobody reads a `now` beyond the lease
   * before the commit, every transaction that reclaimed all expired rows still does.
   */
  lemma SelectCommitIsClaim(pre: seq<Event>, w: WorkerId, at: Time, at': Time, g: Grab, mid: seq<Event>, post: seq<Event>, exact: bool)
    requires LegalAs(pre + [Select(w, at, g)] + mid + [Commit(w, at', g)] + post, exact) && Meanwhile(mid, w, g, exact)
    ensures LegalAs(pre + [Claim(w, at, g)] + mid + post, exact)
    ensures After(pre + [Claim(w, at, g)] + mid + post) == After(pre + [Select(w, at, g)] + mid + [Commit(w, at', g)] + post)
  {
    assert pre + [Select(w, at, g)] + mid + [Commit(w, at', g)] + post == pre + ([Select(w, at, g)] + (mid + ([Commit(w, at', g)] + post)));
    assert pre + [Claim(w, at, g)] + mid + post == pre + ([Claim(w, at, g)] + (mid + post));
    SwapCommit(pre, w, at, at', g, mid, post, exact);
  }

  lemma SwapLeave(pre: seq<Event>, w: WorkerId, at: Time, at': Time, g: Grab, mid: seq<Event>, post: seq<Event>, exact: bool)
    requires LegalAs(pre + ([Select(w, at, g)] + (mid + ([Leave(w, at')] + post))), exact)
    requires forall i :: 0 <= i < |mid| ==> !ByWorker(mid[i], w)
    ensures LegalAs(pre + ([Leave(w, at)] + (mid + post)), exact)
    ensures After(pre + ([Leave(w, at)] + (mid + post))) == After(pre + ([Select(w, at, g)] + (mid + ([Leave(w, at')] + post))))
  {
    RunSplit(pre, [Select(w, at, g)] + (mid + ([Leave(w, at')] + post)), exact);
    RunSplit(pre, [Leave(w, at)] + (mid + post), exact);
    SelectLeaveSwap(After(pre), w, at, at', g, mid, post, exact);
  }

  lemma Pieces(run: seq<Event>, i: nat, j: nat, mid: seq<Event>)
    requires i < j < |run| && mid == run[i + 1..j]
    ensures run == run[..i] + ([run[i]] + (mid + ([run[j]] + run[j + 1..])))
  {
  }

  lemma SwapCommitAt(run: seq<Event>, i: nat, j: nat, w: WorkerId, g: Grab, exact: bool)
    requires LegalAs(run, exact) && i < j < |run| && run[i] == Select(w, run[i].at, g) && run[j] == Commit(w, run[j].at, g)
    requires Meanwhile(run[i + 1..j], w, g, exact)
    ensures var out := Splice(run, i, j, Claim(w, run[i].at, g)); LegalAs(out, exact) && After(out) == After(run)
  {
    var pre, mid, post, at, at' := run[..i], run[i + 1..j], run[j + 1..], run[i].at, run[j].at;
    assert run == pre + ([Select(w, at, g)] + (mid + ([Commit(w, at', g)] + post))) by {
      Pieces(run, i, j, mid);
    }
    SwapCommit(pre, w, at, at', g, mid, post, exact);
  }

  lemma SwapLeaveAt(run: seq<Event>, i: nat, j: nat, w: WorkerId, g: Grab, exact: bool)
    requires LegalAs(run, exact) && i < j < |run| && run[i] == Select(w, run[i].at, g) && run[j] == Leave(w, run[j].at)
    requires forall k :: i < k < j ==> !ByWorker(run[k], w)
    ensures var out := Splice(run, i, j, Leave(w, run[i].at)); LegalAs(out, exact) && After(out) == After(run)
  {
    var pre, mid, post, at, at' := run[..i], run[i + 1..j], run[j + 1..], run[i].at, run[j].at;
    assert run == pre + ([Select(w, at, g)] + (mid + ([Leave(w, at')] + post))) by {
      Pieces(run, i, j, mid);
    }
    SwapLeave(pre, w, at, at', g, mid, post, exact);
  }

  /** Swapping one transaction, inside a run. */
  lemma SwapInRun(run: seq<Event>, i: nat, j: nat, exact: bool)
    requires LegalAs(run, exact) && (exact ==> Prompt(run)) && i < j < |run| && run[i].Select? && ByWorker(run[j], run[i].w)
    requires forall k :: i < k < j ==> !ByWorker(run[k], run[i].w)
    ensures !Visible(run[j])
    ensures LegalAs(Splice(run, i, j, InOneStep(run, i, j)), exact) && After(Splice(run, i, j, InOneStep(run, i, j))) == After(run)
  {
    EndOfTransaction(run, i, j);
    if run[j].Commit? {
      MeanwhileInRun(run, i, j, exact);
      SwapCommitAt(run, i, j, run[i].w, run[i].grab, exact);
    } else {
      SwapLeaveAt(run, i, j, run[i].w, run[i].grab, exact);
    }
  }

  lemma CommitNeedsSelect(run: seq<Event>, k: nat)
    requires Legal(run) && k < |run| && forall i :: 0 <= i < |run| ==> !run[i].Select?
    ensures !run[k].Commit?
  {
    if run[k].Commit? {
      LegalAt(run, k);
      var i := SelectedByGrab(run[..k], run[k].w);
      assert false;
    }
  }

  /** A run whose transactions are all closed. */
  lemma {:induction false} ClosedRunIsAPostgresRun(run: seq<Event>, exact: bool) returns (pg: seq<Event>)
    requires LegalAs(run, exact) && (exact ==> Prompt(run))
    requires forall w :: !WorkerOf(After(run), w).Selected?
    ensures LegalAs(pg, exact) && After(pg) == After(run) && Seen(pg) == Seen(run)
    ensures forall i :: 0 <= i < |pg| ==> !pg[i].Select? && !pg[i].Commit?
    decreases |run|
  {
    if i :| 0 <= i < |run| && run[i].Select? {
      var j := NextOfWorker(run, i, run[i].w);
      assert run[..|run|] == run;
      assert j < |run| by {
        if j == |run| {
          StaysSelected(run, i, j);
        }
      }
      var e := InOneStep(run, i, j);
      SwapInRun(run, i, j, exact);
      if exact {
        SpliceIsPrompt(run, i, j, e);
      }
      SpliceIsSeen(run, i, j, e);
      pg := ClosedRunIsAPostgresRun(Splice(run, i, j, e), exact);
    } else {
      pg := run;
      forall k | 0 <= k < |run|
        ensures !run[k].Commit?
      {
        CommitNeedsSelect(run, k);
      }
    }
  }

  /** What is left of a worker when transactions that never committed are rolled back. */
  function RolledBack(worker: Worker): Worker {
    if worker.Selected? then Idle else worker
  }

  function Open(s: State): set<WorkerId> {
    set w | w in s.workers && s.workers[w].Selected?
  }

  lemma LeaveIsPrompt(run: seq<Event>, w: WorkerId)
    requires run != []
    ensures Prompt(run) ==> Prompt(run + [Leave(w, run[|run| - 1].at)])
  {
    var out := run + [Leave(w, run[|run| - 1].at)];
    if Prompt(run) {
      forall i, j
        ensures NoLater(out, i, j)
      {
        assert NoLater(run, i, j) && NoLater(run, i, |run| - 1);
      }
    }
  }

  /** Rolling back one open transaction at the end of the run. */
  lemma CloseOne(run: seq<Event>, exact: bool, w: WorkerId) returns (run': seq<Event>)
    requires LegalAs(run, exact) && (exact ==> Prompt(run)) && w in Open(After(run))
    ensures LegalAs(run', exact) && (exact ==> Prompt(run')) && Seen(run') == Seen(run)
    ensures After(run') == Dropped(After(run), w)
  {
    var e := Leave(w, run[|run| - 1].at);
    run' := run + [e];
    assert Legal(run') && After(run') == Dropped(After(run), w) by {
      Extend(run, e);
    }
    assert exact ==> ThoroughRun(run') by {
      assert run'[..|run|] == run;
    }
    assert Seen(run') == Seen(run) by {
      SeenAppends(run, [e]);
    }
    LeaveIsPrompt(run, w);
  }

  lemma {:induction false} CloseAll(run: seq<Event>, exact: bool) returns (run': seq<Event>)
    requires LegalAs(run, exact) && (exact ==> Prompt(run))
    ensures LegalAs(run', exact) && (exact ==> Prompt(run')) && Seen(run') == Seen(run)
    ensures After(run').table == After(run).table
    ensures forall w :: WorkerOf(After(run'), w) == RolledBack(WorkerOf(After(run), w))
    decreases |Open(After(run))|
  {
    var s := After(run);
    if w :| w in Open(s) {
      var shorter := CloseOne(run, exact, w);
      assert Open(After(shorter)) == Open(s) - {w};
      run' := CloseAll(shorter, exact);
    } else {
      run' := run;
      assert forall w :: w in s.workers && s.workers[w].Selected? ==> w in Open(s);
    }
  }

  /**
   * Dialect refinement, whole runs: whatever mix of MySQL and PostgreSQL claims a run makes,
   * however their transactions overlap, whichever of them roll back and whichever are still
   * open at the end, there is a run of single-statement claims alone with the same receipts,
   * calls and marks in the same order and at the same times, the same table, and the same
   * workers, less the transactions that never committed.  If every commit comes before the
   * lease it grants expires and no transaction overlooks an expired row, none of that run does.
   */
  lemma EveryRunIsAPostgresRun(run: seq<Event>, exact: bool) returns (pg: seq<Event>)
    requires Legal(run) && (exact ==> ThoroughRun(run) && Prompt(run))
    ensures Legal(pg) && (exact ==> ThoroughRun(pg)) && Seen(pg) == Seen(run)
    ensures forall i :: 0 <= i < |pg| ==> !pg[i].Select? && !pg[i].Commit?
    ensures After(pg).table == After(run).table
    ensures forall w :: WorkerOf(After(pg), w) == RolledBack(WorkerOf(After(run), w))
  {
    var closed := CloseAll(run, exact);
    pg := ClosedRunIsAPostgresRun(closed, exact);
  }
}
