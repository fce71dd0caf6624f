/** What every run keeps, whatever its clocks do: no hypothesis is used in this module. */
module RunFacts {
  import opened Wrappers
  import opened MessageTable
  import opened Protocol

  /** A lease is recorded exactly on the rows being processed. */
  ghost predicate LeaseDiscipline(t: Table) {
    forall x :: x in t ==> (t[x].leaseUntil.Some? <==> t[x].status == Processing)
  }

  /** The rows an open transaction locked are still as it found them. */
  ghost predicate Undisturbed(t: Table, g: Grab) {
    && Distinct(g.picked)
    && (forall x :: x in g.reclaimed ==> x in t && Expired(t[x], g.now))
    && (forall i :: 0 <= i < |g.picked| ==>
          g.picked[i].id in t && g.picked[i].row == View(t, g)[g.picked[i].id] && g.picked[i].row.status == Pending)
  }

  ghost predicate OpenTransactions(s: State) {
    && (forall w :: w in s.workers && s.workers[w].Selected? ==> Undisturbed(s.table, s.workers[w].grab))
    && (forall v, w, x :: v in s.workers && w in s.workers && v != w && LocksRow(s.workers[v], x)
          ==> !LocksRow(s.workers[w], x))
  }

  ghost predicate Batches(s: State) {
    forall w :: w in s.workers && s.workers[w].Handling? ==>
      && Distinct(s.workers[w].todo)
      && forall i :: 0 <= i < |s.workers[w].todo| ==> s.workers[w].todo[i].id in s.table
  }

  ghost predicate Sound(s: State) {
    LeaseDiscipline(s.table) && OpenTransactions(s) && Batches(s)
  }

  /** Writes row `x`: the only ways a step changes an existing row. */
  ghost predicate Writes(e: Event, x: Id) {
    || ((e.Claim? || e.Commit?) && (x in e.grab.reclaimed || Holds(e.grab.picked, x)))
    || (e.MarkIt? && e.id == x)
  }

  lemma RowFrame(s: State, e: Event, x: Id)
    requires Enabled(s, e) && x in s.table
    ensures x in Apply(s, e).table
    ensures Apply(s, e).table[x].identity == s.table[x].identity
    ensures !Writes(e, x) ==> Apply(s, e).table[x] == s.table[x]
  {
  }

  /** A batch picked from the view is undisturbed when it is picked. */
  lemma FreshGrab(s: State, w: WorkerId, g: Grab)
    requires CanGrab(s, w, g)
    ensures Undisturbed(s.table, g)
  {
  }

  lemma LockFrame(s: State, e: Event, w: WorkerId, x: Id)
    requires OpenTransactions(s) && Enabled(s, e) && w in s.workers && LocksRow(s.workers[w], x)
    requires w in Apply(s, e).workers && Apply(s, e).workers[w] == s.workers[w]
    ensures !Writes(e, x)
  {
    assert x in s.table;
    if (e.Claim? || e.MarkIt?) && e.w != w {
      assert Locked(s, e.w, x);
    } else if e.Commit? {
      assert !LocksRow(s.workers[e.w], x);
    }
  }

  lemma UndisturbedFrame(s: State, e: Event, w: WorkerId)
    requires OpenTransactions(s) && Enabled(s, e) && w in s.workers && s.workers[w].Selected?
    requires w in Apply(s, e).workers && Apply(s, e).workers[w] == s.workers[w]
    ensures Undisturbed(Apply(s, e).table, s.workers[w].grab)
  {
    var g := s.workers[w].grab;
    forall x | x in s.table && LocksRow(s.workers[w], x)
      ensures x in Apply(s, e).table && Apply(s, e).table[x] == s.table[x]
    {
      LockFrame(s, e, w, x);
      RowFrame(s, e, x);
    }
    forall i | 0 <= i < |g.picked|
      ensures LocksRow(s.workers[w], g.picked[i].id)
    {
    }
  }

  lemma OpenTransactionsStep(s: State, e: Event)
    requires OpenTransactions(s) && Enabled(s, e)
    ensures OpenTransactions(Apply(s, e))
  {
    var s' := Apply(s, e);
    forall w | w in s'.workers && s'.workers[w].Selected?
      ensures Undisturbed(s'.table, s'.workers[w].grab)
    {
      if w in s.workers && s'.workers[w] == s.workers[w] {
        UndisturbedFrame(s, e, w);
      } else {
        FreshGrab(s, w, e.grab);
      }
    }
    forall v, w, x | v in s'.workers && w in s'.workers && v != w && LocksRow(s'.workers[v], x)
      ensures !LocksRow(s'.workers[w], x)
    {
      if e.Select? && (w == e.w || v == e.w) {
        var other := if w == e.w then v else w;
        assert s'.workers[other] == s.workers[other];
        if LocksRow(s.workers[other], x) {
          assert Locked(s, e.w, x);
          assert x in s.table;
        }
      }
    }
  }

  lemma BatchesStep(s: State, e: Event)
    requires Sound(s) && Enabled(s, e)
    ensures Batches(Apply(s, e))
  {
    var s' := Apply(s, e);
    if e.Claim? {
      FreshGrab(s, e.w, e.grab);
    }
    forall w | w in s'.workers && s'.workers[w].Handling?
      ensures Distinct(s'.workers[w].todo)
      ensures forall i :: 0 <= i < |s'.workers[w].todo| ==> s'.workers[w].todo[i].id in s'.table
    {
      if (e.Claim? || e.Commit?) && e.w == w {
        assert Undisturbed(s.table, e.grab);
      } else {
        assert w in s.workers && s.workers[w].Handling?;
      }
    }
  }

  lemma LeaseDisciplineStep(s: State, e: Event)
    requires Sound(s) && Enabled(s, e)
    ensures LeaseDiscipline(Apply(s, e).table)
  {
  }

  lemma SoundStep(s: State, e: Event)
    requires Sound(s) && Enabled(s, e)
    ensures Sound(Apply(s, e))
  {
    LeaseDisciplineStep(s, e);
    OpenTransactionsStep(s, e);
    BatchesStep(s, e);
  }

  lemma {:induction false} SoundAlways(run: seq<Event>)
    requires Legal(run)
    ensures Sound(After(run))
  {
    if run != [] {
      var n := |run| - 1;
      SoundAlways(run[..n]);
      SoundStep(After(run[..n]), run[n]);
    }
  }

  /** The transaction of a claim is undisturbed at the moment its updates become visible. */
  lemma GrabIsUndisturbed(s: State, e: Event)
    requires Sound(s) && Enabled(s, e) && (e.Claim? || e.Commit?)
    ensures Undisturbed(s.table, e.grab)
  {
    if e.Claim? {
      FreshGrab(s, e.w, e.grab);
    }
  }

  /** What a step does to one existing row. */
  lemma RowStep(s: State, e: Event, x: Id)
    requires Sound(s) && Enabled(s, e) && x in s.table
    ensures x in Apply(s, e).table
    ensures var r, r' := s.table[x], Apply(s, e).table[x];
      && r'.identity == r.identity
      && (e.MarkIt? && e.id == x ==> r' == ApplyMark(r, e.mark))
      && ((e.Claim? || e.Commit?) && x in e.grab.reclaimed ==> Expired(r, e.grab.now))
      && ((e.Claim? || e.Commit?) && Holds(e.grab.picked, x) ==>
            (r.status == Pending || x in e.grab.reclaimed) && r' == ClaimRow(r, e.grab.now, e.grab.lease))
      && ((e.Claim? || e.Commit?) && !Holds(e.grab.picked, x) && x in e.grab.reclaimed ==> r' == ReclaimRow(r, e.grab.now))
      && (!Writes(e, x) ==> r' == r)
  {
    RowFrame(s, e, x);
    if e.Claim? || e.Commit? {
      GrabIsUndisturbed(s, e);
    }
  }

  /** Committed rows never vanish and their identity columns never change. */
  lemma {:induction false} NothingLost(run: seq<Event>, n: nat, x: Id)
    requires Legal(run) && n <= |run| && x in After(run[..n]).table
    ensures x in After(run).table
    ensures After(run).table[x].identity == After(run[..n]).table[x].identity
    decreases |run|
  {
    var m := |run| - 1;
    if n == |run| {
      assert run[..n] == run;
    } else {
      assert run[..m][..n] == run[..n];
      NothingLost(run[..m], n, x);
      RowFrame(After(run[..m]), run[m], x);
    }
  }
}
