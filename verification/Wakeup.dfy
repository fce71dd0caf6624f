/** Wakeup-driven scheduling: the drain loop, the wake flags and the debounced notifier. */
module Wakeup {
  import opened Wrappers
  import opened MessageTable
  import opened Protocol
  import opened Leases
  import opened ClaimBatches
  import opened Passes
  import opened Runners
  import opened Backoff

  const MAX_PASSES_PER_WAKE: nat := 100

  // ---- WakeupRunner._drain ----

  /** Nothing is being processed and every active row is due. */
  ghost predicate AllDue(t: Table, now: Time) {
    forall x :: x in t && Active(t[x]) ==> t[x].status == Pending && t[x].availableAt <= now
  }

  lemma NothingClaimable(answer: Oracle, policy: Policy, t: Table, t': Table, first: nat, g: Grab, deeds: seq<Deed>)
    requires IsPass(answer, policy, t, t', first, g, deeds) && g.picked == [] && g.limit >= 1 && g.skipped == {}
    ensures forall x :: !Eligible(t', x, g.now, g.mode)
  {
    assert t' == Grabbed(t, g);
    assert t' == View(t, g);
  }

  /** While all active rows are due, a pass that completes everything claims something, and they stay due. */
  lemma DuePass(answer: Oracle, policy: Policy, t: Table, t': Table, first: nat, g: Grab, deeds: seq<Deed>)
    requires IsPass(answer, policy, t, t', first, g, deeds) && AllDue(t, g.now) && g.limit >= 1 && g.skipped == {}
    requires ActiveIds(t') == ActiveIds(t) - Ids(g.picked)
    ensures AllDue(t', g.now)
    ensures g.picked == [] ==> ActiveIds(t) == {}
  {
    var view, records := View(t, g), Mirror(g.picked, g.now, g.lease);
    assert forall x :: x in t ==> x !in g.reclaimed by {
      assert forall x :: x in t && t[x].status == Processing ==> Active(t[x]);
    }
    assert view == t by {
      assert view.Keys == t.Keys;
      assert forall x :: x in t ==> view[x] == t[x];
    }
    BatchIsStored(view, g.picked, g.now, g.lease);
    MarkAllRows(Grabbed(t, g), records, deeds);
    forall x | x in t' && Active(t'[x])
      ensures x in t && t'[x] == t[x]
    {
      assert x in ActiveIds(t');
      assert x !in Ids(g.picked) && !Holds(g.picked, x);
      SameIds(g.picked, g.now, g.lease);
      assert x !in Ids(records);
    }
    if g.picked == [] && ActiveIds(t) != {} {
      var x := Member(ActiveIds(t));
      var y := NeverDeadlocks(t, g.now, g.mode, x);
      assert false;
    }
  }

  lemma CountAfterPass(t: Table, t': Table, picked: seq<Claimed>)
    requires Distinct(picked) && ActiveIds(t') == ActiveIds(t) - Ids(picked) && Ids(picked) <= ActiveIds(t)
    ensures |ActiveIds(t')| + |picked| == |ActiveIds(t)|
  {
    DistinctSize(picked);
    assert ActiveIds(t) == ActiveIds(t') + Ids(picked);
  }

  /** One pass of a smooth drain: it takes its rows off the active ones, and the rest is due whenever the next pass looks. */
  lemma SmoothPass(answer: Oracle, policy: Policy, t: Table, t': Table, first: nat, g: Grab, deeds: seq<Deed>, next: Time)
    requires IsPass(answer, policy, t, t', first, g, deeds) && AllDue(t, g.now) && g.limit >= 1 && g.skipped == {} && g.now <= next
    requires ActiveIds(t') == ActiveIds(t) - Ids(g.picked) && Ids(g.picked) <= ActiveIds(t)
    ensures AllDue(t', next) && |ActiveIds(t')| + |g.picked| == |ActiveIds(t)|
    ensures g.picked == [] ==> |ActiveIds(t)| == 0
  {
    DuePass(answer, policy, t, t', first, g, deeds);
    CountAfterPass(t, t', g.picked);
  }

  lemma InTimeThen(clock: nat -> Time, from: nat, k: nat, to: nat, base: seq<Event>, run: seq<Event>, run': seq<Event>)
    requires InTime(clock, from, k, base, run) && k < to && InTime(clock, k, to, run, run')
    ensures InTime(clock, from, to, base, run')
  {
    if WithinLease(base) && EndsBy(base, clock(from)) && Steady(clock, from, to) && TimelyFrom(run', |base|) {
      assert TimelyFrom(run, |base|) by {
        assert forall i :: |base| <= i < |run| ==> run[i] == run'[i];
      }
      assert clock(if from < k then k - 1 else from) <= clock(k);
    }
  }

  /** All active rows are due, every publish succeeds, and the clock never goes back. */
  ghost predicate Ready(runner: OutboxRunner, t: Table, tick: nat) {
    Smooth(runner, tick) && AllDue(t, runner.clock(tick))
  }

  /** One pass of the drain, in the terms the drain needs. */
  method DrainPass(runner: OutboxRunner) returns (claimed: nat, ghost published: nat, ghost now: Time)
    requires runner.Valid()
    modifies runner`run, runner`calls, runner`ticks, runner.store`table
    ensures runner.Valid() && runner.ticks > old(runner.ticks)
    ensures InTime(runner.clock, old(runner.ticks), runner.ticks, old(runner.run), runner.run)
    ensures AttemptsBounded(old(runner.store.table)) ==>
      AttemptsBounded(runner.store.table) && |Tokens(runner.store.table)| + claimed <= |Tokens(old(runner.store.table))|
    ensures claimed == 0 && runner.store.batchSize >= 1 ==> forall x :: !Eligible(runner.store.table, x, now, Outbox)
    ensures Ready(runner, old(runner.store.table), old(runner.ticks)) ==>
      && Ready(runner, runner.store.table, runner.ticks) && published == claimed
      && |ActiveIds(runner.store.table)| + claimed == |ActiveIds(old(runner.store.table))|
      && (claimed == 0 ==> |ActiveIds(runner.store.table)| == 0)
  {
    ghost var t, first, run := runner.store.table, runner.calls, runner.run;
    var summary;
    ghost var g, deeds;
    summary, g, deeds := runner.RunOnce();
    claimed, published, now := summary.claimed, summary.published, g.now;
    assert run <= runner.run;
    if Ready(runner, t, old(runner.ticks)) {
      SmoothPass(runner.Answer, runner.store.policy, t, runner.store.table, first, g, deeds, runner.clock(runner.ticks));
    }
    if claimed == 0 && runner.store.batchSize >= 1 {
      NothingClaimable(runner.Answer, runner.store.policy, t, runner.store.table, first, g, deeds);
    }
  }

  /**
   * Runs passes until one claims nothing or the cap is reached.  The rows claimed over the
   * whole drain never exceed the attempts the table had left; a drain that ends in an empty
   * pass leaves nothing claimable at that pass's time; when everything is due and every
   * publish succeeds, it publishes at least min(active rows, 100) rows; and a drain whose calls
   * and marks stay within their leases keeps the whole run within its leases.
   */
  method Drain(runner: OutboxRunner) returns (foundWork: bool, ghost claimed: nat, ghost published: nat, ghost emptyAt: Option<Time>, ghost passes: nat)
    requires runner.Valid()
    modifies runner`run, runner`calls, runner`ticks, runner.store`table
    ensures runner.Valid() && InTime(runner.clock, old(runner.ticks), runner.ticks, old(runner.run), runner.run)
    ensures foundWork <==> claimed > 0
    ensures WithinLease(old(runner.run)) || AttemptsBounded(old(runner.store.table)) ==>
      AttemptsBounded(runner.store.table) && |Tokens(runner.store.table)| + claimed <= |Tokens(old(runner.store.table))|
    ensures emptyAt.Some? && runner.store.batchSize >= 1 ==> forall x :: !Eligible(runner.store.table, x, emptyAt.value, Outbox)
    ensures emptyAt.None? ==> passes == 100 && claimed >= 100
    ensures var t, now, active := old(runner.store.table), runner.clock(old(runner.ticks)), |ActiveIds(old(runner.store.table))|;
      (&& runner.store.batchSize >= 1 && (forall k, r :: runner.publish(k, r) == Published)
       && (forall i, j :: old(runner.ticks) <= i <= j ==> runner.clock(i) <= runner.clock(j))
       && (forall x :: x in t ==> t[x].status != Processing && (t[x].status == Pending ==> t[x].availableAt <= now))) ==>
        && published == claimed && published + |ActiveIds(runner.store.table)| == active
        && published >= (if active < 100 then active else 100)
  {
    foundWork, claimed, published, emptyAt, passes := false, 0, 0, None, 0;
    ghost var bounded, ready := AttemptsBounded(runner.store.table), Ready(runner, runner.store.table, runner.ticks);
    if WithinLease(runner.run) {
      QuietIsBounded(runner.run, runner.store.table);
    }
    for i := 0 to MAX_PASSES_PER_WAKE
      invariant runner.Valid() && InTime(runner.clock, old(runner.ticks), runner.ticks, old(runner.run), runner.run)
      invariant passes == i && claimed >= i && emptyAt.None? && (foundWork <==> claimed > 0)
      invariant bounded ==>
        AttemptsBounded(runner.store.table) && |Tokens(runner.store.table)| + claimed <= |Tokens(old(runner.store.table))|
      invariant ready ==> Ready(runner, runner.store.table, runner.ticks) && published == claimed
                          && published + |ActiveIds(runner.store.table)| == |ActiveIds(old(runner.store.table))|
    {
      ghost var k, run := runner.ticks, runner.run;
      var taken;
      ghost var sent, now;
      taken, sent, now := DrainPass(runner);
      InTimeThen(runner.clock, old(runner.ticks), k, runner.ticks, old(runner.run), run, runner.run);
      claimed, published, passes := claimed + taken, published + sent, passes + 1;
      if taken == 0 {
        emptyAt := Some(now);
        break;
      }
      foundWork := true;
    }
  }

  /** Every publish succeeds, batches are not empty by configuration, and the clock never goes back. */
  ghost predicate Smooth(runner: OutboxRunner, from: nat) {
    runner.AllPublished() && runner.store.batchSize >= 1 && forall i, j :: from <= i <= j ==> runner.clock(i) <= runner.clock(j)
  }

  // ---- WakeupRunner.run ----

  /** The two events a worker waits for: `LocalWakeup` and the listener's. */
  datatype Source = Local | Notify

  /** `Waiting` for a signal or the timeout; `Draining` after `passes` passes that all claimed rows. */
  datatype Phase = Waiting(timeout: real) | Draining(passes: nat)

  datatype Loop = Loop(flags: set<Source>, phase: Phase, current: real)

  datatype Step =
    | Signal(source: Source)
    | Wake(consumed: set<Source>, timedOut: bool)
    | Pass(claimed: nat)

  function Begin(p: Policy): Loop {
    Loop({}, Waiting(p.initial), p.initial)
  }

  /** A waiter finishes only when its flag is set; waiters still pending when the wait ends are cancelled and clear nothing. */
  predicate CanStep(s: Loop, e: Step) {
    match e
    case Signal(_) => true
    case Wake(consumed, timedOut) => s.phase.Waiting? && consumed <= s.flags && (consumed != {} || timedOut)
    case Pass(_) => s.phase.Draining?
  }

  /** How a drain ends: the fallback schedule is reset if any pass claimed rows and backed off otherwise. */
  function Ended(p: Policy, s: Loop, found: bool): Loop {
    var next := if found then p.initial else Idled(p, s.current);
    s.(current := next, phase := Waiting(next))
  }

  function TakeStep(p: Policy, s: Loop, e: Step): Loop {
    match e
    case Signal(source) => s.(flags := s.flags + {source})
    case Wake(consumed, _) => s.(flags := s.flags - consumed, phase := Draining(0))
    case Pass(claimed) =>
      if !s.phase.Draining? then s
      else if claimed == 0 then Ended(p, s, s.phase.passes > 0)
      else if s.phase.passes + 1 == MAX_PASSES_PER_WAKE then Ended(p, s, true)
      else s.(phase := Draining(s.phase.passes + 1))
  }

  function Looped(p: Policy, steps: seq<Step>): Loop {
    if steps == [] then Begin(p) else TakeStep(p, Looped(p, steps[..|steps| - 1]), steps[|steps| - 1])
  }

  predicate Happens(p: Policy, steps: seq<Step>) {
    steps == [] || (Happens(p, steps[..|steps| - 1]) && CanStep(Looped(p, steps[..|steps| - 1]), steps[|steps| - 1]))
  }

  /** A flag that is set can end the wait at once: a drain starts, and flags it did not consume stay set. */
  lemma SignalEndsWait(p: Policy, s: Loop, source: Source, other: Source)
    requires s.phase.Waiting? && source in s.flags && other != source
    ensures CanStep(s, Wake({source}, false))
    ensures var s' := TakeStep(p, s, Wake({source}, false));
      s'.phase == Draining(0) && source !in s'.flags && (other in s'.flags <==> other in s.flags)
  {
  }

  /** No lost wake: in every interleaving, each signal is followed by the start of a drain or its flag is still set. */
  lemma {:induction false} NoLostWake(p: Policy, steps: seq<Step>, i: nat)
    requires Happens(p, steps) && i < |steps| && steps[i].Signal?
    ensures steps[i].source in Looped(p, steps).flags || exists j :: i < j < |steps| && steps[j].Wake?
  {
    var n := |steps| - 1;
    if i < n {
      NoLostWake(p, steps[..n], i);
      if j :| i < j < n && steps[..n][j].Wake? {
        assert steps[j].Wake?;
      } else if steps[n].Wake? {
        assert i < n;
      }
    }
  }

  /** Passes made since the loop last woke. */
  function PassesSinceWake(steps: seq<Step>): nat {
    if steps == [] then 0
    else
      var before := steps[..|steps| - 1];
      match steps[|steps| - 1]
      case Signal(_) => PassesSinceWake(before)
      case Wake(_, _) => 0
      case Pass(_) => PassesSinceWake(before) + 1
  }

  /**
   * How many drains in a row, up to the end of the run, claimed nothing.  A drain is over with
   * an empty pass or with its hundredth; it was idle if its first pass was empty.
   */
  function IdleDrains(steps: seq<Step>): nat {
    if steps == [] then 0
    else
      var before := steps[..|steps| - 1];
      match steps[|steps| - 1]
      case Pass(claimed) =>
        if claimed == 0 then if PassesSinceWake(before) == 0 then IdleDrains(before) + 1 else 0
        else if PassesSinceWake(before) == 99 then 0 else IdleDrains(before)
      case _ => IdleDrains(before)
  }

  /** The fallback schedule is at its k-th step exactly when the last k drains were idle. */
  lemma {:induction false} ScheduleCountsIdleDrains(p: Policy, steps: seq<Step>)
    requires Happens(p, steps)
    ensures Looped(p, steps).current == IdleSteps(p, IdleDrains(steps))
    ensures Looped(p, steps).phase.Waiting? ==> Looped(p, steps).phase.timeout == Looped(p, steps).current
    ensures Looped(p, steps).phase.Draining? ==> Looped(p, steps).phase.passes == PassesSinceWake(steps) < 100
  {
    if steps != [] {
      ScheduleCountsIdleDrains(p, steps[..|steps| - 1]);
    }
  }

  /** Every wait lasts at most min(initial * m^k, max) after k idle drains. */
  lemma WaitIsBackoff(p: Policy, steps: seq<Step>)
    requires Happens(p, steps) && Looped(p, steps).phase.Waiting? && p.multiplier >= 0.0 && 0.0 <= p.initial <= p.max
    ensures Looped(p, steps).phase.timeout == ExactDelay(p, IdleDrains(steps))
  {
    ScheduleCountsIdleDrains(p, steps);
    IteratedIsClosedForm(p, IdleDrains(steps));
  }

  /** The last drain, if any, ended in a pass that claimed nothing. */
  predicate LastPassEmpty(steps: seq<Step>) {
    if steps == [] then true
    else if steps[|steps| - 1].Pass? then steps[|steps| - 1].claimed == 0
    else LastPassEmpty(steps[..|steps| - 1])
  }

  /** The loop never sleeps on known work: at a wait the last drain ended empty, or none ran yet, or the wait is the initial interval. */
  lemma {:induction false} NeverSleepsOnWork(p: Policy, steps: seq<Step>)
    requires Happens(p, steps) && Looped(p, steps).phase.Waiting?
    ensures LastPassEmpty(steps) || Looped(p, steps).phase.timeout == p.initial
  {
    if steps != [] {
      var n := |steps| - 1;
      if !steps[n].Pass? {
        NeverSleepsOnWork(p, steps[..n]);
      }
    }
  }

  // ---- CoalescedNotifier ----

  /** The debounced `pg_notify`, called one call at a time. */
  class CoalescedNotifier {
    const interval: real
    var lastNotified: Option<real>
    ghost var emitted: seq<real>

    ghost predicate Valid()
      reads this
    {
      && lastNotified == (if emitted == [] then None else Some(emitted[|emitted| - 1]))
      && forall i, j :: 0 <= i < j < |emitted| ==> emitted[i] <= emitted[j] && emitted[j] - emitted[i] >= interval
    }

    constructor (interval: real)
      ensures Valid() && this.interval == interval && emitted == []
    {
      this.interval, lastNotified, emitted := interval, None, [];
    }

    /**
     * Emits unless the last emission is too recent.  Emissions stay at least `interval` apart,
     * and unless the database call fails, every call has an emission less than `interval` before it.
     */
    method Notify(now: real, succeeds: bool) returns (raised: bool)
      requires Valid() && (lastNotified.Some? ==> lastNotified.value <= now)
      modifies this
      ensures Valid() && old(emitted) <= emitted
      ensures emitted == old(emitted) || (succeeds && emitted == old(emitted) + [now])
      ensures !raised ==> emitted != [] && emitted[|emitted| - 1] <= now && (emitted[|emitted| - 1] == now || now - emitted[|emitted| - 1] < interval)
      ensures raised ==> !succeeds && emitted == old(emitted)
    {
      raised := false;
      if lastNotified.Some? && now - lastNotified.value < interval {
        return;
      }
      if !succeeds {
        return true;
      }
      lastNotified := Some(now);
      emitted := emitted + [now];
    }
  }
}
