# Pactix in Dafny

Pactix stores outgoing and incoming messages in two database tables and moves them with workers
that lease rows, call a publisher or a handler outside any transaction, and then mark the rows.
This project models that protocol with any number of workers and proves what every run of it
keeps. It also models the MySQL form of the claim, the retry and drain scheduling, inbox
deduplication under Kafka replay, and the Kafka and HTTP message formats.

`dafny verify dfyconfig.toml` checks everything.

## How it is organised

| file | content |
|---|---|
| `MessageTable.dfy` | the rows, and what each SQL statement of the two stores does to them |
| `Protocol.dfy` | workers and table as a state machine; a run is a sequence of events; the hypotheses on runs |
| `RunFacts.dfy`, `History.dfy`, `Schedules.dfy` | what every run keeps, with no hypothesis (the last lemma of `Schedules.dfy` uses H1) |
| `Leases.dfy` | what follows when nobody works past a lease (H1) |
| `Fifo.dfy` | per-key order (H1, H2 and, for the inbox, H3) |
| `Refinement.dfy` | the MySQL claim, interleaved with anything, acts as the PostgreSQL one |
| `ClaimBatches.dfy`, `Starvation.dfy` | the claim query's answer; how long a ready row can be passed over |
| `Witnesses.dfy` | legal runs showing that each of H1, H2 and H3 is needed, and what a late commit hides |
| `Store.dfy`, `Runners.dfy`, `Wakeup.dfy` | the stores, `run_once`, the drain and the wake loop, as methods and a loop machine |
| `Passes.dfy` | one `run_once` pass as a stretch of the protocol: legal, timely, and spending attempts |
| `Backoff.dfy` | `next_retry_at` and `FallbackBackoff` |
| `Datetimes.dfy` | timestamps to naive UTC and back |
| `Messages.dfy`, `HeaderDicts.dfy`, `KafkaTransport.dfy`, `HttpTransport.dfy`, `KafkaReplay.dfy` | envelopes, headers, wire formats, save-then-commit |

Three details of the code decide which properties hold, and all three are kept:

- A mark is `UPDATE ... WHERE id = :id`: it does not test whether the caller still holds the lease.
- The FIFO gate compares stamps strictly, so rows of one key with equal stamps may run together.
- The retry decision reads the attempt count as claimed, while the SQL increments the current one.

Nothing about clocks or lease expiry restricts a step of the machine. The hypotheses are
predicates on whole runs: `WithinLease` (H1: one monotone clock, and every call and mark happens
no later than the lease its worker was granted), `StampedInOrder` (H2: within a key, rows become
visible in non-decreasing stamp) and `FifoOnly` (H3: no worker uses the unordered query).
`Witnesses.dfy` gives, for each of them, a legal run that satisfies the others and breaks the
theorem.

Some promises hold only on a condition. The exact condition is proved, and so is an input that
fails it:

- The transports let a row's own headers (and, for HTTP, its endpoint's) pose as metadata the row
  lacks (`ImpostorIsReceived`, `EndpointSuppliesOrderingKey`), and in the dictionary that
  `from_headers` reads, a later spelling of a metadata name shadows the real value
  (`LaterSpellingShadowsOrderingKey`). `KafkaRoundTrip` and `HttpRoundTrip` say exactly when a
  message survives the trip.
- The overflow branch of `next_retry_at` gives the documented formula exactly when the product is
  positive, or the initial interval is zero and the cap is not positive (`OverflowBranchIsExact`);
  a policy with no initial interval waits for the cap once the power overflows
  (`OverflowIgnoresZeroInterval`).
- The iterated and the closed schedule agree exactly when the initial interval does not exceed
  the cap (`SchedulesAgreeExactlyWhen`); otherwise the first wait already ignores the cap
  (`FirstWaitIgnoresCap`).

`reclaim_expired` and the claim are two statements of one transaction. The protocol takes them at
the second one: the rows a transaction reclaims are some of those expired then, since a row that
gets an expired lease between the two statements is not reclaimed.

The outbox and the inbox tables differ only in column names and in `source`, so one table model
serves both: `Done` is `published` or `processed`, `stampedAt` is `created_at` or `received_at`,
and outbox rows have the empty `source`. Times are integer microseconds, intervals are reals.

## Model

| member | source | states |
|---|---|---|
| `RunFacts.SoundAlways` | src/pactix/outbox/store.py:125-182 | In every run, whatever the clocks do: a lease is recorded exactly on the rows being processed, the rows an open transaction locked are still as it found them and no other transaction has them, and every batch in a worker's hands lists distinct stored rows. |
| `RunFacts.SoundStep` | src/pactix/outbox/store.py:125-233 | Each receipt, claim, select, commit, call, mark or departure keeps that invariant. |
| `RunFacts.RowStep` | src/pactix/outbox/store.py:125-233 | What a step does to one existing row: a mark applies whatever the row's state, a claim finds it pending or expired, a reclaim finds its lease run out, and anything else leaves it alone. |
| `RunFacts.NothingLost` | src/pactix/outbox/store.py:102-233 | In every run committed rows never vanish and their identity columns never change. |
| `History.FirstReceiptWins` | src/pactix/inbox/store.py:158-192 | Over any interleaving of receipts and processing, the first receipt of a (source, message_id) inserts its row, that row stays the only one for the message and keeps the first receipt's content, and every later receipt of it changes nothing at all in the state. |
| `History.OneRowPerMessage` | src/pactix/inbox/store.py:158-192 | In every reachable table two rows with equal source and equal message_id are one row. |
| `History.ReceiptIsAlwaysPossible` | src/pactix/inbox/store.py:158-192 | A receipt is accepted in every state, as an insert exactly when no row has its source and message_id. |
| `History.RowHasReceipt` | src/pactix/inbox/store.py:158-175 | Every stored row was put there by an inserting receipt with that very content. |
| `History.CallFollowsClaim` | src/pactix/outbox/runner.py:49-55 | Every publisher or handler call is for a row its worker claimed earlier, under that claim's lease and query mode. |
| `History.OneCallPerClaim` | src/pactix/outbox/runner.py:49-55 | In every run a row is handed to the publisher or handler at most once per claim: calls made plus workers that still have to call it never exceed its claims. |
| `History.DoneWasEarned` | src/pactix/inbox/runner.py:91-130 | A published or processed row was the subject of a call, by a worker that had claimed it, that completed; or that the hook skipped, in the inbox only; or that the filter found stale, in unordered mode only. |
| `History.AttemptsAreMarks` | src/pactix/outbox/store.py:199-233 | In every run `attempts` is the number of retry and failed marks on the row, and claims number at most retry marks plus reclaims plus one. |
| `History.ClaimsAreSeparated` | src/pactix/outbox/store.py:125-135 | In every run, two successive claims of a row are separated by a retry mark on it or by a reclaim at a `now` strictly after the first claim's lease. |
| `Schedules.RetriesAreNeverEarly` | src/pactix/outbox/store.py:29-59 | In every run, whichever dialect claims, no transaction takes a row at a `now` before the time its last retry mark asked for (or its stamp, if it has none). |
| `Schedules.ColumnsTellHistory` | src/pactix/outbox/store.py:199-233 | In every run `available_at` is what the last retry mark asked for and `last_error` the error of the last retry or failed mark. |
| `Schedules.FinishedMeansDone` | src/pactix/outbox/store.py:184-197 | Under H1 `published_at`/`processed_at` is set exactly on the rows that are done. |
| `Leases.ExclusiveAlways` | src/pactix/outbox/store.py:125-151 | Under H1, in every reachable state each worker whose lease has not run out finds its whole batch stored exactly as it was handed out, and no two such workers share a row. |
| `Leases.ExclusiveStep` | src/pactix/outbox/store.py:125-233 | Each timely step keeps that invariant. |
| `Leases.OneHolder` | src/pactix/outbox/store.py:125-151 | Under H1 at most one worker holds a row at any time. |
| `Leases.WorkFindsItsLease` | src/pactix/outbox/store.py:184-233 | Under H1 every call and every mark finds its row still `processing` under the lease its worker was granted, equal to the record the worker holds. |
| `Leases.TerminalIsForever` | src/pactix/outbox/store.py:184-233 | Under H1 a published, processed or failed row never changes again in any column. |
| `Leases.AttemptsStayBounded` | src/pactix/_retry.py:75-81 | Under H1 attempts never exceed max_attempts (or 1, if that is more), and only failed rows reach it. |
| `Leases.FailedMarksEnd` | src/pactix/outbox/store.py:218-233 | Under H1 a row has received one failed mark if it is failed and none otherwise. |
| `Leases.ClaimsBounded` | src/pactix/_retry.py:75-81 | Under H1 a row is claimed at most max(1, max_attempts) times plus once per reclaim. |
| `Leases.DeliveriesBounded` | src/pactix/_retry.py:75-81 | Under H1 a row is delivered at most max_attempts times (or once, if that is more) plus once per reclaim of its lease. |
| `Leases.MarkFollowsVerdict` | src/pactix/inbox/runner.py:91-130 | Under H1 every mark follows a call of its row by its worker: completed, skipped and stale records are finished, rejected ones fail with their error, and retryable ones are rescheduled if attempts + 1 < max_attempts and fail otherwise. |
| `Leases.FailedUsedItsAttempts` | src/pactix/_retry.py:75-81 | Under H1 a failed row none of whose calls was rejected has used exactly max_attempts attempts (or 1, if that is more). |
| `Fifo.DeliveryOrder` | src/pactix/outbox/runner.py:43-77 | Per-key delivery order, with H1-H3 and the columns written out: in every run, with any number of workers, crashes, reclaims and open transactions, of two calls for rows of equal event_type and equal, present ordering_key the later one has no smaller stamp. |
| `Fifo.Frontier` | src/pactix/inbox/store.py:56-66 | Under H1-H3, once a row was ever claimed, every row of equal event_type and ordering_key with a smaller stamp is done or failed, in every later state. |
| `Fifo.GateStaysOpen` | src/pactix/outbox/store.py:36-46 | Under H1 and H2, once the NOT EXISTS gate of a row is open it is open in every later state. |
| `Fifo.PickedGateOpen` | src/pactix/inbox/store.py:49-79 | A FIFO query picks a row only when its gate is open in the stored table, its own reclaims notwithstanding. |
| `Fifo.OpenGateMeans` | src/pactix/outbox/store.py:36-46 | An open gate, in columns: every row of equal event_type and ordering_key with a smaller stamp is done or failed. |
| `Refinement.EveryRunIsAPostgresRun` | src/pactix/outbox/store.py:153-182 | Every legal run, mixing MySQL and PostgreSQL claims with transactions overlapping, rolled back, committed late or still open at the end, has a legal run of single-statement claims alone with the same receipts, calls and marks in the same order and times, the same table, and the same workers less the transactions that never committed. If the clock is monotone, every commit comes before the lease it grants expires and no transaction overlooks an expired row, none overlooks one in that run either. |
| `Refinement.SeenOfOne` | src/pactix/outbox/store.py:153-182 | What counts as seen of a run: receipts, calls and marks, and nothing else. |
| `Refinement.SelectCommitIsClaim` | src/pactix/inbox/store.py:239-268 | One transaction: SELECT ... FOR UPDATE, then UPDATE and commit, with any steps of others in between, leads where the single statement taken at the SELECT leads; and if nobody reads a `now` beyond the lease before the commit, transactions that reclaimed all expired rows still do. |
| `Refinement.CommitMovesLeft` | src/pactix/outbox/store.py:153-182 | The commit can be swapped with any one step another worker can take while the row locks are held. |
| `Refinement.RecordsMatchStoredRows` | src/pactix/outbox/store.py:171-182 | The records the MySQL branch returns, mirrored from the rows as read, equal the stored rows after the commit. |
| `ClaimBatches.BatchIsOldestPrefix` | src/pactix/outbox/store.py:29-59 | A claim takes min(limit, eligible) rows, all eligible and unlocked, and none newer than an eligible row left behind. |
| `ClaimBatches.BatchExists` | src/pactix/outbox/store.py:29-59 | The claim query has an answer over every table. |
| `ClaimBatches.EligibleExactlyWhen` | src/pactix/outbox/store.py:32-46 | The WHERE clause, in columns and both ways: a row is eligible exactly when it is pending, due and, unless the query is unordered or the row has no ordering key, no pending or processing row of equal event_type and ordering_key has a smaller stamp. |
| `ClaimBatches.OneStampPerKey` | src/pactix/outbox/store.py:36-46 | One FIFO batch holds a single stamp per key. |
| `ClaimBatches.NeverDeadlocks` | src/pactix/outbox/store.py:32-46 | With active rows, all available and none processing, some row is eligible. |
| `Starvation.NoStarvation` | src/pactix/outbox/store.py:47-48 | Under H1 the claims that pass over a ready row, each counted with its batch limit, never exceed the sum, over the rows of no later stamp, of max(1, max_attempts) plus that row's reclaims. |
| `Starvation.PassesTimesLimit` | src/pactix/outbox/store.py:47-48 | With one batch size that count is the number of such claims times the limit. |
| `Starvation.UpToListsOnce` | src/pactix/outbox/store.py:47-48 | The sum of `NoStarvation` counts each row once. |
| `Witnesses.LateMarkRevivesPublishedRow` | src/pactix/outbox/store.py:184-216 | Without H1: a legal run with a monotone clock in which two workers hold one row and a late retry mark returns a published row to pending. |
| `Witnesses.LateStampBreaksOrder` | src/pactix/outbox/model.py:61-88 | Without H2: a legal run in which a row that becomes visible late, with an earlier stamp, is called after its successor. |
| `Witnesses.UnorderedBreaksOrder` | src/pactix/inbox/store.py:82-101 | Without H3: a legal run in which one unordered batch handles the newer row of a key first. |
| `Witnesses.LateCommitHidesExpiredRow` | src/pactix/inbox/store.py:239-268 | When the commit comes after the lease it grants, moving the claim to the SELECT makes another transaction overlook an expired row, which it did not in the run itself. |
| `Store.MessageStore.Append` | src/pactix/outbox/store.py:102-114 | Succeeds exactly when no row has the message_id, adding one pending row, due at once, with no attempts; otherwise the table is unchanged. |
| `Store.MessageStore.SaveReceived` | src/pactix/inbox/store.py:158-175 | Fails exactly for a blank source; otherwise answers inserted exactly when no row has this source and message_id, adding one pending row, and for a duplicate returns the stored row and leaves the table as it was. |
| `Store.MessageStore.SaveReceivedMysql` | src/pactix/inbox/store.py:177-192 | The MySQL branch meets the same contract. |
| `Store.ReceiptIsUnique` | src/pactix/inbox/store.py:158-192 | Over a deduplicated table that contract has one answer, so both branches return the same flag and record and leave the same table. |
| `Store.MessageStore.ReclaimExpired` | src/pactix/outbox/store.py:125-135 | Row by row: a processing row whose lease_until is before `now` becomes pending without a lease and otherwise keeps its columns, every other row is equal, no row appears or vanishes, and the count is the number of such rows. |
| `Store.MessageStore.ClaimReady` | src/pactix/outbox/store.py:137-151 | Claims some answer of the query: at most a batch of pending, due rows, each returned as stored, processing under the new lease with its other columns kept; every other row is equal. |
| `Store.MessageStore.ClaimReadyMysql` | src/pactix/outbox/store.py:153-182 | Selecting, updating and mirroring row by row gives the same table and records for the same answer. |
| `Store.MessageStore.MarkDone` | src/pactix/outbox/store.py:184-197 | The row with this id, whatever its status or lease, is done, without a lease, and finished at the given time, keeping identity, attempts, due time and error; every other row is equal; a missing id changes nothing. |
| `Store.MessageStore.MarkRetry` | src/pactix/outbox/store.py:199-216 | The row, whatever its state, is pending without a lease, due at the given time, with its current attempts plus one and this error, keeping identity and finish time; every other row is equal. |
| `Store.MessageStore.MarkFailed` | src/pactix/inbox/store.py:304-319 | The row, whatever its state, is failed without a lease, with its current attempts plus one and this error, keeping identity, due time and finish time; every other row is equal. |
| `Store.MessageStore.HandleRetryableFailure` | src/pactix/_retry.py:60-81 | Reschedules exactly when attempts + 1 < max_attempts, both as claimed, at `now` plus min(initial * multiplier^attempts, max) to the nearest microsecond; otherwise marks the row failed. |
| `Runners.OutboxRunner.RunOnce` | src/pactix/outbox/runner.py:43-77 | The run grows by exactly this pass's claim, one call and one mark per claimed record, and the return; every claimed row is settled as the outcome of its own call demands, and published, retry_scheduled and failed are the numbers of such outcomes and add up to claimed; from a run within its leases (or a table within its ceilings) the attempts left drop by at least `claimed`; and if the clock readings do not go back and the last is within the lease, a run within its leases stays one. |
| `Runners.OutboxRunner.OutcomeOfRow` | src/pactix/outbox/runner.py:51-75 | Row by row, after a pass: a published row is done; a retryable one is pending while attempts + 1 < max_attempts and failed otherwise; a terminal one is failed; with the attempts and the error that go with it. |
| `Runners.OutboxRunner.PublishOne` | src/pactix/outbox/runner.py:51-75 | In terms of the publisher's outcome: published leaves the row done; retryable leaves it pending below max_attempts and failed at it, with one more attempt and the message or "" as error; terminal leaves it failed; the one counter that fits is raised and no other row changes. |
| `Runners.InboxRunner.RunOnce` | src/pactix/inbox/runner.py:80-132 | The same for the inbox: every claimed row is settled as filter, hook and handler demand, the counters are the numbers of such answers, and `stale_skipped` the number of records the filter found stale. |
| `Runners.InboxRunner.OutcomeOfRow` | src/pactix/inbox/runner.py:91-130 | Row by row, after a pass: done for stale, not-to-process and processed records, pending or failed for the others as attempts and outcome demand. |
| `Runners.InboxRunner.HandleOne` | src/pactix/inbox/runner.py:91-130 | In terms of filter, hook and handler: stale (unordered mode only) and not-to-process records are done; otherwise the handler's outcome decides done, pending with one more attempt, or failed; the counters that fit are raised and no other row changes. |
| `Passes.PassIsLegal` | src/pactix/outbox/runner.py:43-77 | The claim, calls and marks of a pass are events the protocol allows, one after the other, so every theorem about runs applies to it. |
| `Passes.PassIsTimely` | src/pactix/outbox/runner.py:43-77 | A pass whose readings do not go back and that is over before its lease satisfies H1: it extends a run within its leases to a run within its leases. |
| `Passes.InTimeMeans` | src/pactix/outbox/runner.py:43-77 | H1 for a run extended by passes, written out: from a run within its leases, with a clock that does not go back and every new call and mark within its lease, to a run within its leases. |
| `Passes.PassPromises` | src/pactix/inbox/runner.py:80-132 | Legality, timeliness, counters and attempts of a pass together, whichever runner made it, for every publisher or handler. |
| `Passes.PassSettles` | src/pactix/outbox/runner.py:51-75 | For every publisher or handler, a pass settles each claimed row as the fate of its own call demands, and its tallies are the numbers of records with each fate. |
| `Passes.PassRows` | src/pactix/outbox/runner.py:43-77 | A pass leaves each claimed row with its own mark, returns expired rows it did not claim to pending, and changes no other row. |
| `Passes.PassCounts` | src/pactix/outbox/runner.py:49-77 | A pass deals with every row it claims and, within the ceilings, spends at least one attempt left per claimed row; if everything completes, exactly the claimed rows stop being active. |
| `Passes.MarkSpendsToken` | src/pactix/_retry.py:60-81 | Any mark the runner may issue on an active row lowers the attempts left by at least one. |
| `Passes.TokensAreTheSum` | src/pactix/_retry.py:75-81 | The measure is the sum over active rows of max(1, max_attempts) minus attempts. |
| `Passes.MarkAllRows` | src/pactix/outbox/runner.py:51-75 | After the loop each record's row carries its own mark and every row outside the batch is untouched. |
| `Wakeup.Drain` | src/pactix/outbox/wakeup.py:229-237 | From a run within its leases (or a table within its ceilings) the rows claimed over all passes never exceed the attempts left at the start; a drain ended by an empty pass leaves nothing claimable at that pass's `now`; otherwise 100 passes all claimed rows; with all N active rows due and every publish succeeding, at least min(N, 100) rows are published; and if the clock is steady and no call or mark outlasts its lease, the run stays within its leases. |
| `Wakeup.DuePass` | src/pactix/outbox/wakeup.py:229-237 | While all active rows are due, a completing pass claims something unless none is active, and the rest stay due. |
| `Wakeup.NothingClaimable` | src/pactix/outbox/wakeup.py:229-237 | After a pass that claimed nothing, no row is eligible at its `now`. |
| `Wakeup.NoLostWake` | src/pactix/outbox/wakeup.py:182-227 | In every interleaving of signals with the loop, each signal is followed by the start of a drain or its flag is still set. |
| `Wakeup.SignalEndsWait` | src/pactix/outbox/wakeup.py:208-227 | A flag that is set can end the wait at once, starting a drain; flags it did not consume stay set. |
| `Wakeup.ScheduleCountsIdleDrains` | src/pactix/outbox/wakeup.py:182-201 | The fallback schedule is at its k-th step exactly when the last k drains, told from the passes alone, were idle; every wait uses it; and no drain exceeds 100 passes. |
| `Wakeup.WaitIsBackoff` | src/pactix/outbox/wakeup.py:66-87 | After k idle drains the wait lasts min(initial * m^k, max). |
| `Wakeup.NeverSleepsOnWork` | src/pactix/outbox/wakeup.py:182-237 | At every wait the last drain ended in an empty pass, or none has run, or the timeout is the initial interval. |
| `Wakeup.CoalescedNotifier.Notify` | src/pactix/outbox/wakeup.py:147-166 | Emissions stay at least the interval apart, and after every call that did not fail in the database the last emission is this call's own or less than the interval ago, for every interval. |
| `Backoff.OverflowBranchIsExact` | src/pactix/_retry.py:43-57 | Given timedelta's range, the overflow branch gives the documented formula if and only if the exact product is positive, or the initial interval is zero and the cap is not positive. |
| `Backoff.OverflowIgnoresZeroInterval` | src/pactix/_retry.py:43-57 | With initial interval 0, cap 60 s and multiplier 10 the 400th retry waits 60 s where the formula gives 0. |
| `Backoff.DelayIsExact` | src/pactix/_retry.py:43-57 | With positive initial interval and multiplier the delay is min(initial * m^attempts, max), overflow or not. |
| `Backoff.RetriesSpreadOut` | src/pactix/_retry.py:43-57 | The computed delay, overflow or not, is monotone in attempts and within [initial, max]. |
| `Backoff.NextRetryIsExact` | src/pactix/_retry.py:43-57 | `next_retry_at` is `now` plus min(initial * multiplier^attempts, max), to the nearest microsecond, overflow or not. |
| `Backoff.NextRetryGrows` | src/pactix/_retry.py:43-57 | With multiplier at least 1 and initial at most the cap it is monotone in attempts. |
| `Backoff.ThirdRetryWaitsEightSeconds` | src/pactix/_retry.py:43-57 | With initial 1 s, cap 60 s and multiplier 2, three attempts make it `now` + 8 s. |
| `Backoff.HalvesGoToEven` | src/pactix/_retry.py:57 | Half a microsecond rounds to the even neighbour. |
| `Backoff.RoundingKeepsOrder` | src/pactix/_retry.py:56-57 | Rounding to whole microseconds keeps the order of retry times and moves none by more than half a microsecond. |
| `Backoff.ExactDelayGrows` | src/pactix/_retry.py:43-57 | The formula is monotone in attempts and within [initial, max]. |
| `Backoff.IteratedIsClosedForm` | src/pactix/outbox/wakeup.py:66-87 | k idle steps of the iterated schedule give exactly the closed form. |
| `Backoff.SchedulesAgreeExactlyWhen` | src/pactix/outbox/wakeup.py:66-87 | The two schedules agree at every step if and only if the initial interval does not exceed the cap. |
| `Backoff.FirstWaitIgnoresCap` | src/pactix/outbox/wakeup.py:69-74 | With initial interval 120 s and cap 60 s the first wait is 120 s where the closed form gives 60 s. |
| `Backoff.FallbackBackoff.RecordIdle` | src/pactix/outbox/wakeup.py:84-87 | Moves the schedule one idle step on. |
| `Backoff.FallbackBackoff.RecordWorkFound` | src/pactix/outbox/wakeup.py:79-82 | Moves the schedule back to its start. |
| `Datetimes.StripColumns` | src/pactix/outbox/store.py:240-266 | The loop replaces each of the five datetime columns that is set by its UTC wall clock without an offset, and changes nothing else. |
| `Datetimes.StorageRoundTrip` | src/pactix/_dialect.py:34-47 | Reading back what was written gives its UTC wall clock at offset zero, and is the same value exactly when it was in UTC. |
| `Datetimes.ComparisonsAgree` | src/pactix/_dialect.py:34-47 | Comparing stored naive values is comparing UTC wall clocks. |
| `KafkaTransport.BuildMessage` | src/pactix/transport/kafka/publisher.py:59-73 | Header by header, what the built message carries: metadata overrides the row's own headers, which are otherwise kept. |
| `KafkaTransport.ProducedExactly` | src/pactix/transport/kafka/publisher.py:59-73 | What `BuildMessage` puts under each of the four metadata names; every other header is the row's own. |
| `KafkaTransport.FromRecord` | src/pactix/transport/kafka/consumer.py:46-63 | Fails exactly without a payload; a repeated header reads as its last value and a missing value as empty. |
| `KafkaTransport.ParsedExactly` | src/pactix/transport/kafka/consumer.py:30-44 | For every message: an error without the type header or on blank metadata; otherwise id (header, or fallback if missing or empty), type, keys, correlation, payload and all headers are taken over. |
| `KafkaTransport.FallbackIdInjective` | src/pactix/transport/kafka/consumer.py:27-28 | No two (topic, partition, offset) share a fallback id, even when topics contain colons. |
| `KafkaTransport.KafkaRoundTrip` | src/pactix/transport/kafka/consumer.py:30-44 | For every record of a validated envelope, parsing what was built recovers id, type, keys, correlation and payload if and only if the row's own headers hold no ordering_key or correlation_id the row lacks. |
| `KafkaTransport.ImpostorIsReceived` | src/pactix/transport/kafka/publisher.py:59-73 | A valid row without an ordering key whose own headers hold `ordering_key: k` is received with the ordering key k. |
| `KafkaTransport.WireKeepsHeaders` | src/pactix/transport/kafka/consumer.py:46-63 | Reading back the pairs of a header dictionary gives the dictionary. |
| `KafkaTransport.Trip` | src/pactix/transport/kafka/publisher.py:59-73 | Build, consume and parse in sequence meet the same if-and-only-if. |
| `HttpTransport.BuildHeaders` | src/pactix/transport/http/publisher.py:89-107 | Header by header: content type and metadata override the row's own headers, which override the endpoint's. |
| `HttpTransport.BuiltExactly` | src/pactix/transport/http/publisher.py:89-107 | What a built request carries under the content type, under each metadata name the row has, and under every other name. |
| `HttpTransport.MergedReads` | src/pactix/transport/http/publisher.py:91-92 | `headers.update`: the row's header where it has one, the endpoint's otherwise. |
| `HttpTransport.ReceivedValue` | src/pactix/transport/http/inbox.py:44-62 | What the receiver reads under each metadata name: the row's value unless a different spelling of the name comes later, and any spelling's value if the row has none. |
| `HttpTransport.ParsedExactly` | src/pactix/transport/http/inbox.py:44-74 | For every header mapping: an error for a missing id, then a missing type, then blank metadata; otherwise each field is the last spelling's value and all headers are kept in lower case. |
| `HttpTransport.HttpRoundTrip` | src/pactix/transport/http/inbox.py:44-74 | For every record of a validated envelope and every endpoint, parsing the built request recovers the message if and only if the headers it is sent with distort none of the five metadata names. |
| `HttpTransport.HttpRoundTripWithoutReserved` | src/pactix/transport/http/inbox.py:44-74 | With no metadata name, in any spelling, among the row's and endpoint's headers the trip always succeeds. |
| `HttpTransport.EndpointSuppliesOrderingKey` | src/pactix/transport/http/publisher.py:89-107 | An endpoint header X-Pactix-Ordering-Key gives every row without an ordering key one. |
| `HttpTransport.LaterSpellingShadowsOrderingKey` | src/pactix/transport/http/inbox.py:44-62 | A row with an ordering key whose own headers hold the name in two spellings is read with the later one's value. |
| `Messages.EnvelopeExactlyWhen` | src/pactix/message.py:62-92 | An envelope is made exactly when message_id, event_type and ordering_key, if given, are not empty once stripped; the first that is empty is the error. |
| `Messages.BlankExactlyWhen` | src/pactix/message.py:69-82 | Blank means that nothing is left after `strip`. |
| `KafkaReplay.ReplaySafe` | src/pactix/transport/kafka/consumer.py:83-107 | Over every crash, restart and takeover, and whatever else the inbox does, each offset below the committed position has its row, and replays made no second one. |
| `KafkaReplay.SafeStep` | src/pactix/transport/kafka/consumer.py:83-107 | Each save, commit, restart or inbox event keeps everything below the committed and each consumer's position stored. |
| `KafkaReplay.SaveThenCommit` | src/pactix/transport/kafka/consumer.py:83-107 | After a save the offset can be committed, as offset + 1, and restarts resume there. |
| `KafkaReplay.EveryMessageKept` | src/pactix/transport/kafka/consumer.py:83-107 | If no two messages share an id and the source is the partition's own, each committed offset has a row holding that very message. |
| `KafkaReplay.NoHeaderMeansDistinct` | src/pactix/transport/kafka/consumer.py:27-44 | Messages without a message_id header have distinct ids. |

## Left out

- SQL text, SQLAlchemy, drivers and pools: a statement is atomic, a claim's two statements are taken together as described above, and row locks behave as documented (`SKIP LOCKED` skips at least the rows other transactions hold, a plain UPDATE waits for them).
- `list_by_status`, migrations, table definitions: only the unique keys and the set of statuses matter here.
- `PublisherRegistry`, topic and endpoint routers, closure adapters, static hooks and filters: a publisher, handler, hook or filter is an arbitrary answer to its k-th call.
- Exceptions out of `run_once`: in the protocol a worker may leave at any point with its batch unfinished; the `RunOnce` methods cover passes that return. A call is stamped with the reading taken after it, so H1 asks a little more of the clock than the code's own times show.
- Interleaving inside `RunOnce`: the methods run one worker alone on the table; several workers at once are covered by the protocol theorems.
- In-memory `mark_*` methods of the two record classes: they set the same columns as the SQL marks, on a copy.
- PostgreSQL LISTEN setup and teardown: only the notify flag is kept. `LocalWakeup.wait` with a timeout of its own is not used by the loop and not modelled.
- Overlapping `CoalescedNotifier.notify` calls: the spacing holds for calls made one at a time.
- `classify_response` and the status enums: settled by reading them.
- JSON and UTF-8 encoding, and what HTTP does to whitespace in header values: payloads and header values arrive as sent.
- The way from `build_request` to `from_headers`: the dictionary is handed over unchanged, as a caller of `HttpInboxEndpoint.save` can. The Starlette endpoint's `dict(request.headers)` has already merged repeated names.
- Lower-casing beyond ASCII in header names.
- Float rounding: durations are reals. Rounding to whole microseconds is modelled.
- Attempt counts are unbounded, not 32-bit; datetimes do not overflow at year 9999.
- MySQL collation and the warnings `INSERT IGNORE` hides.
- UUIDs and clocks: a new row's id is a parameter that is not in the table yet; a clock reading is a parameter or an arbitrary function of the reading's number.
- Clock skew between hosts: H1 speaks of one clock.
