/** `OutboxRunner.run_once` and `InboxRunner.run_once`. */
module Runners {
  import opened Wrappers
  import opened MessageTable
  import opened Protocol
  import opened Leases
  import opened ClaimBatches
  import opened Backoff
  import opened Store
  import opened Passes

  /** `outcome.message or ''` */
  function OrEmpty(message: Option<string>): string {
    if message.Some? then message.value else ""
  }

  // ---- outbox ----

  datatype PublishOutcome = Published | RetryablePublish(message: Option<string>) | TerminalPublish(message: Option<string>)

  datatype RunSummary = RunSummary(reclaimed: nat, claimed: nat, published: nat, retryScheduled: nat, failed: nat)

  function AsVerdict(o: PublishOutcome): Verdict {
    match o
    case Published => Completed
    case RetryablePublish(m) => Retryable(OrEmpty(m))
    case TerminalPublish(m) => Rejected(OrEmpty(m))
  }

  /** The counters of a pass with these deeds. */
  function Summarized(reclaimed: nat, claimed: nat, deeds: seq<Deed>): RunSummary {
    RunSummary(reclaimed, claimed, Tally(deeds, Finished), Tally(deeds, Rescheduled), Tally(deeds, GivenUp))
  }

  /** One more record dealt with. */
  function AddOne(summary: RunSummary, mark: Mark): RunSummary {
    match mark
    case MarkDone(_) => summary.(published := summary.published + 1)
    case MarkRetry(_, _, _) => summary.(retryScheduled := summary.retryScheduled + 1)
    case MarkFailed(_, _) => summary.(failed := summary.failed + 1)
  }

  lemma SummaryStep(reclaimed: nat, claimed: nat, deeds: seq<Deed>, d: Deed)
    ensures Summarized(reclaimed, claimed, deeds + [d]) == AddOne(Summarized(reclaimed, claimed, deeds), d.mark)
  {
    TallyStep(deeds, d, Finished);
    TallyStep(deeds, d, Rescheduled);
    TallyStep(deeds, d, GivenUp);
  }

  class OutboxRunner {
    const store: MessageStore
    const me: WorkerId
    /** The publisher's answer to its k-th call. */
    const publish: (nat, Row) -> PublishOutcome
    /** The k-th reading of the clock. */
    const clock: nat -> Time
    var calls: nat
    var ticks: nat
    /** The events of the table so far, those of this runner included. */
    ghost var run: seq<Event>

    ghost predicate Valid()
      reads this, store
    {
      Quiet(run, store.table) && WorkerOf(After(run), me).Idle?
    }

    function Answer(k: nat, r: Row): Verdict {
      AsVerdict(publish(k, r))
    }

    /** What the publisher's k-th outcome means for a record. */
    function FateOf(k: nat, r: Row): Fate {
      match publish(k, r)
      case Published => Finished
      case RetryablePublish(_) => if r.attempts + 1 < r.identity.maxAttempts then Rescheduled else GivenUp
      case TerminalPublish(_) => GivenUp
    }

    function ErrorOf(k: nat, r: Row): string {
      match publish(k, r)
      case Published => ""
      case RetryablePublish(message) => OrEmpty(message)
      case TerminalPublish(message) => OrEmpty(message)
    }

    constructor (store: MessageStore, me: WorkerId, publish: (nat, Row) -> PublishOutcome, clock: nat -> Time, ghost run: seq<Event>)
      requires Quiet(run, store.table) && WorkerOf(After(run), me).Idle?
      ensures Valid() && this.store == store && this.me == me && this.publish == publish && this.clock == clock
      ensures this.run == run && calls == 0 && ticks == 0
    {
      this.store, this.me, this.publish, this.clock := store, me, publish, clock;
      calls, ticks, this.run := 0, 0, run;
    }

    method ReadClock() returns (now: Time)
      modifies this`ticks
      ensures ticks == old(ticks) + 1 && now == clock(old(ticks))
    {
      now := clock(ticks);
      ticks := ticks + 1;
    }

    /** The body of the loop: one call of the publisher and the transaction that records its outcome. */
    method PublishOne(record: Claimed, summary: RunSummary) returns (summary': RunSummary, ghost deed: Deed)
      modifies this`calls, this`ticks, store`table
      ensures calls == old(calls) + 1 && ticks > old(ticks)
      ensures store.table == MarkId(old(store.table), record.id, deed.mark)
      ensures Duly(Answer, store.policy, Outbox, old(calls), record, deed)
      ensures deed.called == clock(old(ticks)) && deed.mark.when == clock(ticks - 1)
      ensures summary' == AddOne(summary, deed.mark)
      ensures store.table.Keys == old(store.table).Keys
      ensures forall x :: x in store.table && x != record.id ==> store.table[x] == old(store.table)[x]
      ensures record.id in store.table ==>
        var r, r' := old(store.table)[record.id], store.table[record.id];
        match publish(old(calls), record.row)
        case Published =>
          && r'.status == Done && r'.attempts == r.attempts && r'.lastError == r.lastError && r'.finishedAt == Some(clock(old(ticks)))
          && summary' == summary.(published := summary.published + 1)
        case RetryablePublish(message) =>
          && r'.attempts == r.attempts + 1 && r'.lastError == Some(if message.Some? then message.value else "")
          && if record.row.attempts + 1 < record.row.identity.maxAttempts
             then
               && r'.status == Pending && r'.availableAt == NextRetryAt(store.policy, record.row.attempts, clock(old(ticks)))
               && summary' == summary.(retryScheduled := summary.retryScheduled + 1)
             else r'.status == Failed && summary' == summary.(failed := summary.failed + 1)
        case TerminalPublish(message) =>
          && r'.status == Failed && r'.attempts == r.attempts + 1 && r'.lastError == Some(if message.Some? then message.value else "")
          && summary' == summary.(failed := summary.failed + 1)
    {
      ghost var mark;
      var outcome := publish(calls, record.row);
      calls := calls + 1;
      var now := ReadClock();
      match outcome {
        case Published =>
          store.MarkDone(record.id, now);
          mark := MarkDone(now);
          summary' := summary.(published := summary.published + 1);
        case RetryablePublish(message) =>
          var updated := ReadClock();
          var action;
          action, mark := store.HandleRetryableFailure(record, OrEmpty(message), now, updated);
          if action == RetryScheduled {
            summary' := summary.(retryScheduled := summary.retryScheduled + 1);
          } else {
            summary' := summary.(failed := summary.failed + 1);
          }
        case TerminalPublish(message) =>
          store.MarkFailed(record.id, OrEmpty(message), now);
          mark := MarkFailed(OrEmpty(message), now);
          summary' := summary.(failed := summary.failed + 1);
      }
      deed := Deed(AsVerdict(outcome), now, mark);
    }

    /** The loop over the claimed rows: one call and one mark each, in order. */
    method PublishAll(records: seq<Claimed>, reclaimed: nat, ghost from: nat) returns (summary: RunSummary, ghost deeds: seq<Deed>)
      requires Ticking(clock, from, ticks, [])
      modifies this`calls, this`ticks, store`table
      ensures Dealt(Answer, store.policy, Outbox, old(store.table), store.table, old(calls), records, deeds) && |deeds| == |records|
      ensures summary == Summarized(reclaimed, |records|, deeds)
      ensures ticks >= old(ticks) && Ticking(clock, from, ticks, deeds)
    {
      summary := RunSummary(reclaimed, |records|, 0, 0, 0);
      deeds := [];
      for i := 0 to |records|
        invariant calls == old(calls) + i && |deeds| == i
        invariant Dealt(Answer, store.policy, Outbox, old(store.table), store.table, old(calls), records, deeds)
        invariant summary == Summarized(reclaimed, |records|, deeds)
        invariant ticks >= old(ticks) && Ticking(clock, from, ticks, deeds)
      {
        ghost var t, k := store.table, ticks;
        ghost var deed;
        summary, deed := PublishOne(records[i], summary);
        DealtStep(Answer, store.policy, Outbox, old(store.table), t, old(calls), records, deeds, deed);
        SummaryStep(reclaimed, |records|, deeds, deed);
        TickingStep(clock, from, k, ticks, deeds, deed);
        deeds := deeds + [deed];
      }
    }

    /** The transaction of a pass: reclaim, then claim. */
    method TakeBatch(now: Time) returns (batch: seq<Claimed>, reclaimed: nat, ghost g: Grab)
      modifies store`table
      ensures g == Grab(now, now + store.leaseDuration, Outbox, store.batchSize, {}, g.reclaimed, g.picked)
      ensures Takes(old(store.table), g) && store.table == Grabbed(old(store.table), g)
      ensures batch == Mirror(g.picked, g.now, g.lease) && reclaimed == |g.reclaimed|
    {
      reclaimed := store.ReclaimExpired(now);
      ghost var view := store.table;
      ghost var picked;
      batch, picked := store.ClaimReady(now, Outbox, {});
      g := TransactionPieces(old(store.table), view, store.table, now, now + store.leaseDuration, Outbox, store.batchSize, picked);
    }

    /** The statements of `run_once`. */
    method Pass() returns (summary: RunSummary, ghost g: Grab, ghost deeds: seq<Deed>)
      modifies this`calls, this`ticks, store`table
      ensures g.now == clock(old(ticks)) && g.lease == g.now + store.leaseDuration
      ensures g.mode == Outbox && g.limit == store.batchSize && g.skipped == {}
      ensures IsPass(Answer, store.policy, old(store.table), store.table, old(calls), g, deeds)
      ensures summary == Summarized(|g.reclaimed|, |g.picked|, deeds)
      ensures Ticking(clock, old(ticks), ticks, deeds)
      ensures Settles(FateOf, ErrorOf, old(calls), g, store.table)
      ensures var records := Mirror(g.picked, g.now, g.lease);
        && summary.published == |WithFate(FateOf, old(calls), records, Finished)|
        && summary.retryScheduled == |WithFate(FateOf, old(calls), records, Rescheduled)|
        && summary.failed == |WithFate(FateOf, old(calls), records, GivenUp)|
      ensures AllPublished() ==>
        && summary.published == summary.claimed
        && ActiveIds(store.table) == ActiveIds(old(store.table)) - Ids(g.picked) && Ids(g.picked) <= ActiveIds(old(store.table))
    {
      var now := ReadClock();
      var records, reclaimed;
      records, reclaimed, g := TakeBatch(now);
      summary, deeds := PublishAll(records, reclaimed, old(ticks));
      RowsSettled(old(store.table), store.table, old(calls), g, deeds);
      if AllPublished() {
        PassCompletes(Answer, store.policy, old(store.table), store.table, old(calls), g, deeds);
      }
    }

    /** The pass settles the claimed rows as the publisher demands. */
    lemma RowsSettled(t: Table, t': Table, first: nat, g: Grab, deeds: seq<Deed>)
      requires IsPass(Answer, store.policy, t, t', first, g, deeds)
      ensures Settles(FateOf, ErrorOf, first, g, t') && Counts(FateOf, first, Mirror(g.picked, g.now, g.lease), deeds)
    {
      forall k, r
        ensures Explained(Answer(k, r), FateOf(k, r), ErrorOf(k, r), r)
      {
      }
      PassSettles(Answer, FateOf, ErrorOf, store.policy, t, t', first, g, deeds);
    }

    /** What a settled batch looks like, in terms of the publisher's outcome for each row and of its columns. */
    lemma OutcomeOfRow(first: nat, g: Grab, t': Table, i: nat)
      requires Settles(FateOf, ErrorOf, first, g, t') && i < |g.picked|
      ensures g.picked[i].id in t'
      ensures var r, r' := ClaimRow(g.picked[i].row, g.now, g.lease), t'[g.picked[i].id];
        match publish(first + i, r)
        case Published => r'.status == Done && r'.attempts == r.attempts
        case RetryablePublish(message) =>
          && r'.status == (if r.attempts + 1 < r.identity.maxAttempts then Pending else Failed)
          && r'.attempts == r.attempts + 1 && r'.lastError == Some(if message.Some? then message.value else "")
        case TerminalPublish(message) =>
          r'.status == Failed && r'.attempts == r.attempts + 1 && r'.lastError == Some(if message.Some? then message.value else "")
    {
    }

    /**
     * One pass: reclaim and claim in one transaction, then publish and mark each record.  The
     * run grows by exactly this pass's claim, calls and marks; the counters add up; at least
     * one of the attempts left is spent per claimed row; and a pass that reads a steady clock
     * and is over before its lease keeps the run within its leases.
     */
    method RunOnce() returns (summary: RunSummary, ghost g: Grab, ghost deeds: seq<Deed>)
      requires Valid()
      modifies this`run, this`calls, this`ticks, store`table
      ensures Valid() && ticks > old(ticks)
      ensures g.now == clock(old(ticks)) && g.lease == g.now + store.leaseDuration
      ensures g.mode == Outbox && g.limit == store.batchSize && g.skipped == {}
      ensures IsPass(Answer, store.policy, old(store.table), store.table, old(calls), g, deeds)
      ensures run == old(run) + PassLog(me, g, deeds)
      ensures summary.reclaimed == |g.reclaimed|
      ensures summary.claimed == |g.picked| == summary.published + summary.retryScheduled + summary.failed
      ensures Settles(FateOf, ErrorOf, old(calls), g, store.table)
      ensures var records := Mirror(g.picked, g.now, g.lease);
        && summary.published == |WithFate(FateOf, old(calls), records, Finished)|
        && summary.retryScheduled == |WithFate(FateOf, old(calls), records, Rescheduled)|
        && summary.failed == |WithFate(FateOf, old(calls), records, GivenUp)|
      ensures WithinLease(old(run)) || AttemptsBounded(old(store.table)) ==>
        AttemptsBounded(store.table) && |Tokens(store.table)| + summary.claimed <= |Tokens(old(store.table))|
      ensures Steady(clock, old(ticks), ticks) && clock(ticks - 1) <= g.lease ==> TimelyFrom(run, |old(run)|)
      ensures InTime(clock, old(ticks), ticks, old(run), run)
      ensures AllPublished() ==>
        && summary.published == summary.claimed
        && ActiveIds(store.table) == ActiveIds(old(store.table)) - Ids(g.picked) && Ids(g.picked) <= ActiveIds(old(store.table))
    {
      ghost var t, first := store.table, calls;
      summary, g, deeds := Pass();
      PassPromises(Answer, store.policy, clock, old(ticks), ticks, run, t, store.table, me, first, g, deeds);
      run := run + PassLog(me, g, deeds);
    }

    ghost predicate AllPublished() {
      forall k, r :: publish(k, r) == Published
    }
  }

  // ---- inbox ----

  datatype HandleOutcome = Processed | RetryableHandle(message: Option<string>) | TerminalHandle(message: Option<string>)

  datatype IdempotencyDecision = Process | Skip | AlreadyApplied

  datatype InboxSummary = InboxSummary(reclaimed: nat, claimed: nat, processed: nat, staleSkipped: nat, retryScheduled: nat, failed: nat)

  /** The counters of an inbox pass with these deeds. */
  function InboxSummarized(reclaimed: nat, claimed: nat, deeds: seq<Deed>): InboxSummary {
    InboxSummary(reclaimed, claimed, Tally(deeds, Finished), Tally(deeds, FoundStale), Tally(deeds, Rescheduled), Tally(deeds, GivenUp))
  }

  function InboxAddOne(summary: InboxSummary, d: Deed): InboxSummary {
    var counted := if d.verdict == Stale then summary.(staleSkipped := summary.staleSkipped + 1) else summary;
    match d.mark
    case MarkDone(_) => counted.(processed := counted.processed + 1)
    case MarkRetry(_, _, _) => counted.(retryScheduled := counted.retryScheduled + 1)
    case MarkFailed(_, _) => counted.(failed := counted.failed + 1)
  }

  lemma InboxSummaryStep(reclaimed: nat, claimed: nat, deeds: seq<Deed>, d: Deed)
    ensures InboxSummarized(reclaimed, claimed, deeds + [d]) == InboxAddOne(InboxSummarized(reclaimed, claimed, deeds), d)
  {
    TallyStep(deeds, d, Finished);
    TallyStep(deeds, d, FoundStale);
    TallyStep(deeds, d, Rescheduled);
    TallyStep(deeds, d, GivenUp);
  }

  class InboxRunner {
    const store: MessageStore
    const me: WorkerId
    const unordered: bool
    /** The stale filter, the idempotency hook and the handler, as asked for the k-th record. */
    const stale: (nat, Row) -> bool
    const hook: (nat, Row) -> IdempotencyDecision
    const handle: (nat, Row) -> HandleOutcome
    const clock: nat -> Time
    var records: nat
    var ticks: nat
    ghost var run: seq<Event>

    ghost predicate Valid()
      reads this, store
    {
      Quiet(run, store.table) && WorkerOf(After(run), me).Idle?
    }

    function QueryMode(): Mode {
      if unordered then InboxUnordered else InboxFifo
    }

    function Answer(k: nat, r: Row): Verdict {
      if unordered && stale(k, r) then Stale
      else if hook(k, r) == Process then
        match handle(k, r)
        case Processed => Completed
        case RetryableHandle(m) => Retryable(OrEmpty(m))
        case TerminalHandle(m) => Rejected(OrEmpty(m))
      else Skipped
    }

    /** What filter, hook and handler mean for the k-th record. */
    function FateOf(k: nat, r: Row): Fate {
      if (unordered && stale(k, r)) || hook(k, r) != Process then Finished
      else
        match handle(k, r)
        case Processed => Finished
        case RetryableHandle(_) => if r.attempts + 1 < r.identity.maxAttempts then Rescheduled else GivenUp
        case TerminalHandle(_) => GivenUp
    }

    function ErrorOf(k: nat, r: Row): string {
      match handle(k, r)
      case Processed => ""
      case RetryableHandle(message) => OrEmpty(message)
      case TerminalHandle(message) => OrEmpty(message)
    }

    /** The records the filter found stale; it is asked in unordered mode only. */
    ghost function StaleRecords(first: nat, batch: seq<Claimed>): set<int> {
      set i | 0 <= i < |batch| && unordered && stale(first + i, batch[i].row)
    }

    constructor (store: MessageStore, me: WorkerId, unordered: bool, stale: (nat, Row) -> bool, hook: (nat, Row) -> IdempotencyDecision,
                 handle: (nat, Row) -> HandleOutcome, clock: nat -> Time, ghost run: seq<Event>)
      requires Quiet(run, store.table) && WorkerOf(After(run), me).Idle?
      ensures Valid() && this.store == store && this.me == me && this.unordered == unordered && this.stale == stale
      ensures this.hook == hook && this.handle == handle && this.clock == clock && this.run == run && records == 0 && ticks == 0
    {
      this.store, this.me, this.unordered, this.stale, this.hook, this.handle, this.clock := store, me, unordered, stale, hook, handle, clock;
      records, ticks, this.run := 0, 0, run;
    }

    method ReadClock() returns (now: Time)
      modifies this`ticks
      ensures ticks == old(ticks) + 1 && now == clock(old(ticks))
    {
      now := clock(ticks);
      ticks := ticks + 1;
    }

    /** The body of the loop: filter, hook and handler, then the transaction that records the result. */
    method HandleOne(record: Claimed, summary: InboxSummary) returns (summary': InboxSummary, ghost deed: Deed)
      modifies this`records, this`ticks, store`table
      ensures records == old(records) + 1 && ticks > old(ticks)
      ensures store.table == MarkId(old(store.table), record.id, deed.mark)
      ensures Duly(Answer, store.policy, QueryMode(), old(records), record, deed)
      ensures deed.called == clock(old(ticks)) && deed.mark.when == clock(ticks - 1)
      ensures summary' == InboxAddOne(summary, deed)
      ensures store.table.Keys == old(store.table).Keys
      ensures forall x :: x in store.table && x != record.id ==> store.table[x] == old(store.table)[x]
      ensures record.id in store.table ==>
        var k, r, r' := old(records), old(store.table)[record.id], store.table[record.id];
        if unordered && stale(k, record.row) then
          && r'.status == Done && r'.attempts == r.attempts && r'.lastError == r.lastError
          && summary' == summary.(processed := summary.processed + 1, staleSkipped := summary.staleSkipped + 1)
        else if hook(k, record.row) != Process then
          && r'.status == Done && r'.attempts == r.attempts && r'.lastError == r.lastError
          && summary' == summary.(processed := summary.processed + 1)
        else
          match handle(k, record.row)
          case Processed =>
            && r'.status == Done && r'.attempts == r.attempts && r'.lastError == r.lastError
            && summary' == summary.(processed := summary.processed + 1)
          case RetryableHandle(message) =>
            && r'.attempts == r.attempts + 1 && r'.lastError == Some(if message.Some? then message.value else "")
            && if record.row.attempts + 1 < record.row.identity.maxAttempts
               then
                 && r'.status == Pending && r'.availableAt == NextRetryAt(store.policy, record.row.attempts, clock(old(ticks)))
                 && summary' == summary.(retryScheduled := summary.retryScheduled + 1)
               else r'.status == Failed && summary' == summary.(failed := summary.failed + 1)
          case TerminalHandle(message) =>
            && r'.status == Failed && r'.attempts == r.attempts + 1 && r'.lastError == Some(if message.Some? then message.value else "")
            && summary' == summary.(failed := summary.failed + 1)
    {
      var k := records;
      records := records + 1;
      summary' := summary;
      if unordered {
        var decision := stale(k, record.row);
        if decision {
          var now := ReadClock();
          store.MarkDone(record.id, now);
          deed := Deed(Stale, now, MarkDone(now));
          summary' := summary.(processed := summary.processed + 1, staleSkipped := summary.staleSkipped + 1);
          return;
        }
      }
      var idem := hook(k, record.row);
      if idem == Process {
        var outcome := handle(k, record.row);
        var now := ReadClock();
        ghost var mark;
        match outcome {
          case Processed =>
            store.MarkDone(record.id, now);
            mark := MarkDone(now);
            summary' := summary.(processed := summary.processed + 1);
          case RetryableHandle(message) =>
            var updated := ReadClock();
            var action;
            action, mark := store.HandleRetryableFailure(record, OrEmpty(message), now, updated);
            if action == RetryScheduled {
              summary' := summary.(retryScheduled := summary.retryScheduled + 1);
            } else {
              summary' := summary.(failed := summary.failed + 1);
            }
          case TerminalHandle(message) =>
            store.MarkFailed(record.id, OrEmpty(message), now);
            mark := MarkFailed(OrEmpty(message), now);
            summary' := summary.(failed := summary.failed + 1);
        }
        deed := Deed(Answer(k, record.row), now, mark);
      } else {
        var now := ReadClock();
        store.MarkDone(record.id, now);
        deed := Deed(Skipped, now, MarkDone(now));
        summary' := summary.(processed := summary.processed + 1);
      }
    }

    method HandleAll(batch: seq<Claimed>, reclaimed: nat, ghost from: nat) returns (summary: InboxSummary, ghost deeds: seq<Deed>)
      requires Ticking(clock, from, ticks, [])
      modifies this`records, this`ticks, store`table
      ensures Dealt(Answer, store.policy, QueryMode(), old(store.table), store.table, old(records), batch, deeds) && |deeds| == |batch|
      ensures summary == InboxSummarized(reclaimed, |batch|, deeds)
      ensures ticks >= old(ticks) && Ticking(clock, from, ticks, deeds)
    {
      summary := InboxSummary(reclaimed, |batch|, 0, 0, 0, 0);
      deeds := [];
      for i := 0 to |batch|
        invariant records == old(records) + i && |deeds| == i
        invariant Dealt(Answer, store.policy, QueryMode(), old(store.table), store.table, old(records), batch, deeds)
        invariant summary == InboxSummarized(reclaimed, |batch|, deeds)
        invariant ticks >= old(ticks) && Ticking(clock, from, ticks, deeds)
      {
        ghost var t, k := store.table, ticks;
        ghost var deed;
        summary, deed := HandleOne(batch[i], summary);
        DealtStep(Answer, store.policy, QueryMode(), old(store.table), t, old(records), batch, deeds, deed);
        InboxSummaryStep(reclaimed, |batch|, deeds, deed);
        TickingStep(clock, from, k, ticks, deeds, deed);
        deeds := deeds + [deed];
      }
    }

    /** The query of the runner's mode. */
    method ClaimBatch(now: Time) returns (batch: seq<Claimed>, ghost picked: seq<Claimed>)
      modifies store`table
      ensures IsBatch(old(store.table), now, QueryMode(), store.batchSize, {}, picked)
      ensures store.table == ClaimIds(old(store.table), picked, now, now + store.leaseDuration)
      ensures batch == Mirror(picked, now, now + store.leaseDuration)
    {
      if unordered {
        batch, picked := store.ClaimReady(now, InboxUnordered, {});
      } else {
        batch, picked := store.ClaimReady(now, InboxFifo, {});
      }
    }

    /** The transaction of a pass: reclaim, then claim. */
    method TakeBatch(now: Time) returns (batch: seq<Claimed>, reclaimed: nat, ghost g: Grab)
      modifies store`table
      ensures g == Grab(now, now + store.leaseDuration, QueryMode(), store.batchSize, {}, g.reclaimed, g.picked)
      ensures Takes(old(store.table), g) && store.table == Grabbed(old(store.table), g)
      ensures batch == Mirror(g.picked, g.now, g.lease) && reclaimed == |g.reclaimed|
    {
      reclaimed := store.ReclaimExpired(now);
      ghost var view := store.table;
      ghost var picked;
      batch, picked := ClaimBatch(now);
      g := TransactionPieces(old(store.table), view, store.table, now, now + store.leaseDuration, QueryMode(), store.batchSize, picked);
    }

    method Pass() returns (summary: InboxSummary, ghost g: Grab, ghost deeds: seq<Deed>)
      modifies this`records, this`ticks, store`table
      ensures g.now == clock(old(ticks)) && g.lease == g.now + store.leaseDuration
      ensures g.mode == QueryMode() && g.limit == store.batchSize && g.skipped == {}
      ensures IsPass(Answer, store.policy, old(store.table), store.table, old(records), g, deeds)
      ensures summary == InboxSummarized(|g.reclaimed|, |g.picked|, deeds)
      ensures Ticking(clock, old(ticks), ticks, deeds)
      ensures Settles(FateOf, ErrorOf, old(records), g, store.table)
      ensures var batch := Mirror(g.picked, g.now, g.lease);
        && summary.processed == |WithFate(FateOf, old(records), batch, Finished)|
        && summary.retryScheduled == |WithFate(FateOf, old(records), batch, Rescheduled)|
        && summary.failed == |WithFate(FateOf, old(records), batch, GivenUp)|
        && summary.staleSkipped == |StaleRecords(old(records), batch)|
    {
      var now := ReadClock();
      var batch, reclaimed;
      batch, reclaimed, g := TakeBatch(now);
      summary, deeds := HandleAll(batch, reclaimed, old(ticks));
      StaleCounted(old(store.table), store.table, old(records), g, deeds);
      RowsSettled(old(store.table), store.table, old(records), g, deeds);
    }

    /** The pass settles the claimed rows as filter, hook and handler demands. */
    lemma RowsSettled(t: Table, t': Table, first: nat, g: Grab, deeds: seq<Deed>)
      requires IsPass(Answer, store.policy, t, t', first, g, deeds)
      ensures Settles(FateOf, ErrorOf, first, g, t') && Counts(FateOf, first, Mirror(g.picked, g.now, g.lease), deeds)
    {
      forall k, r
        ensures Explained(Answer(k, r), FateOf(k, r), ErrorOf(k, r), r)
      {
      }
      PassSettles(Answer, FateOf, ErrorOf, store.policy, t, t', first, g, deeds);
    }

    /** What a settled batch looks like, in terms of filter, hook and handler and of its columns. */
    lemma OutcomeOfRow(first: nat, g: Grab, t': Table, i: nat)
      requires Settles(FateOf, ErrorOf, first, g, t') && i < |g.picked|
      ensures g.picked[i].id in t'
      ensures var r, r' := ClaimRow(g.picked[i].row, g.now, g.lease), t'[g.picked[i].id];
        if (unordered && stale(first + i, r)) || hook(first + i, r) != Process then r'.status == Done && r'.attempts == r.attempts
        else
          match handle(first + i, r)
          case Processed => r'.status == Done && r'.attempts == r.attempts
          case RetryableHandle(message) =>
            && r'.status == (if r.attempts + 1 < r.identity.maxAttempts then Pending else Failed)
            && r'.attempts == r.attempts + 1 && r'.lastError == Some(if message.Some? then message.value else "")
          case TerminalHandle(message) =>
            r'.status == Failed && r'.attempts == r.attempts + 1 && r'.lastError == Some(if message.Some? then message.value else "")
    {
    }

    lemma StaleCounted(t: Table, t': Table, first: nat, g: Grab, deeds: seq<Deed>)
      requires IsPass(Answer, store.policy, t, t', first, g, deeds)
      ensures Tally(deeds, FoundStale) == |StaleRecords(first, Mirror(g.picked, g.now, g.lease))|
    {
      CountStale(Answer, store.policy, t, t', first, g, deeds, StaleRecords(first, Mirror(g.picked, g.now, g.lease)));
    }

    /** One inbox pass, with the same promises as an outbox pass. */
    method RunOnce() returns (summary: InboxSummary, ghost g: Grab, ghost deeds: seq<Deed>)
      requires Valid()
      modifies this`run, this`records, this`ticks, store`table
      ensures Valid() && ticks > old(ticks)
      ensures g.now == clock(old(ticks)) && g.lease == g.now + store.leaseDuration
      ensures g.mode == QueryMode() && g.limit == store.batchSize && g.skipped == {}
      ensures IsPass(Answer, store.policy, old(store.table), store.table, old(records), g, deeds)
      ensures run == old(run) + PassLog(me, g, deeds)
      ensures summary.reclaimed == |g.reclaimed|
      ensures summary.claimed == |g.picked| == summary.processed + summary.retryScheduled + summary.failed
      ensures Settles(FateOf, ErrorOf, old(records), g, store.table)
      ensures var batch := Mirror(g.picked, g.now, g.lease);
        && summary.processed == |WithFate(FateOf, old(records), batch, Finished)|
        && summary.retryScheduled == |WithFate(FateOf, old(records), batch, Rescheduled)|
        && summary.failed == |WithFate(FateOf, old(records), batch, GivenUp)|
        && summary.staleSkipped == |StaleRecords(old(records), batch)|
      ensures WithinLease(old(run)) || AttemptsBounded(old(store.table)) ==>
        AttemptsBounded(store.table) && |Tokens(store.table)| + summary.claimed <= |Tokens(old(store.table))|
      ensures Steady(clock, old(ticks), ticks) && clock(ticks - 1) <= g.lease ==> TimelyFrom(run, |old(run)|)
      ensures InTime(clock, old(ticks), ticks, old(run), run)
    {
      ghost var t, first := store.table, records;
      summary, g, deeds := Pass();
      PassPromises(Answer, store.policy, clock, old(ticks), ticks, run, t, store.table, me, first, g, deeds);
      run := run + PassLog(me, g, deeds);
    }
  }
}
