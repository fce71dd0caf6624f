/**
 * `KafkaInboxConsumer.save_and_commit` over one partition, with crashes, restarts and any
 * number of consumers taking the partition over from each other, while the inbox table is
 * being processed.
 */
module KafkaReplay {
  import opened Wrappers
  import opened Messages
  import opened MessageTable
  import opened Protocol
  import opened RunFacts
  import opened History
  import opened KafkaTransport
  import opened HeaderDicts

  /** The partition: the message at each offset, and the source its rows are stored under. */
  datatype Partition = Partition(source: string, log: nat -> Inbound)

  /** A consumer at `position`; `saved` once the transaction that stores that message has committed. */
  datatype Consumer = Consumer(position: nat, saved: bool)

  datatype World = World(committed: nat, consumers: map<nat, Consumer>, run: seq<Event>)

  datatype Step =
    | Inbox(e: Event)
    | Save(c: nat, e: Event)
    | CommitOffset(c: nat)
    | Restart(c: nat)

  /**
   * A consumer handles messages in offset order and does not step past one it failed to store:
   * a message that does not parse is never saved, so its offset is never committed.
   */
  predicate CanTake(p: Partition, s: World, step: Step) {
    match step
    case Inbox(e) => Enabled(After(s.run), e)
    case Save(c, e) =>
      && c in s.consumers && !s.consumers[c].saved
      && e.Receive? && Enabled(After(s.run), e)
      && e.identity.source == p.source
      && ToEnvelope(p.log(s.consumers[c].position)) == Ok(e.identity.envelope)
    case CommitOffset(c) => c in s.consumers && s.consumers[c].saved
    case Restart(c) => true
  }

  function Take(s: World, step: Step): World {
    match step
    case Inbox(e) => s.(run := s.run + [e])
    case Save(c, e) =>
      if c in s.consumers then s.(run := s.run + [e], consumers := s.consumers[c := s.consumers[c].(saved := true)]) else s
    case CommitOffset(c) =>
      if c in s.consumers
      then s.(committed := s.consumers[c].position + 1, consumers := s.consumers[c := Consumer(s.consumers[c].position + 1, false)])
      else s
    case Restart(c) => s.(consumers := s.consumers[c := Consumer(s.committed, false)])
  }

  /** A run of the world; in `steps` the events of the inbox table are interleaved with the consumers' own. */
  ghost predicate Possible(p: Partition, steps: seq<Step>) {
    steps == [] || (Possible(p, steps[..|steps| - 1]) && CanTake(p, Reached(steps[..|steps| - 1]), steps[|steps| - 1]))
  }

  function Reached(steps: seq<Step>): World {
    if steps == [] then World(0, map[], []) else Take(Reached(steps[..|steps| - 1]), steps[|steps| - 1])
  }

  /** The message at `offset` has a row in the inbox. */
  ghost predicate HasRow(p: Partition, t: Table, offset: nat) {
    && ToEnvelope(p.log(offset)).Ok?
    && exists x :: x in t && t[x].identity.source == p.source && t[x].identity.envelope.metadata.messageId == ToEnvelope(p.log(offset)).value.metadata.messageId
  }

  /** Nothing else receives under this source: no other partition, no other transport. */
  ghost predicate SoleSource(p: Partition, steps: seq<Step>) {
    forall i :: 0 <= i < |steps| && steps[i].Inbox? && steps[i].e.Receive? ==> steps[i].e.identity.source != p.source
  }

  /** Every row of this source came from the log. */
  ghost predicate FromLog(p: Partition, t: Table) {
    forall x :: x in t ==> IsFromLog(p, t[x].identity)
  }

  ghost predicate IsFromLog(p: Partition, m: Identity) {
    m.source == p.source ==> exists o: nat :: ToEnvelope(p.log(o)) == Ok(m.envelope)
  }

  lemma EnvelopeId(m: Inbound, e: Envelope)
    requires ToEnvelope(m) == Ok(e)
    ensures MessageId(m) == e.metadata.messageId
  {
  }

  /** Everything below the committed position, and below each consumer's, is stored. */
  ghost predicate Covered(p: Partition, t: Table, committed: nat, consumers: map<nat, Consumer>) {
    && (forall o: nat :: o < committed ==> HasRow(p, t, o))
    && (forall c, o: nat :: c in consumers && o < consumers[c].position ==> HasRow(p, t, o))
    && (forall c :: c in consumers && consumers[c].saved ==> HasRow(p, t, consumers[c].position))
  }

  ghost predicate Safe(p: Partition, s: World) {
    var t := After(s.run).table;
    Legal(s.run) && Covered(p, t, s.committed, s.consumers)
  }

  /** Rows never vanish, so a stored message stays stored whatever the inbox does. */
  lemma RowsStay(p: Partition, run: seq<Event>, e: Event)
    requires Legal(run) && Enabled(After(run), e)
    ensures Legal(run + [e])
    ensures FromLog(p, After(run).table) && (e.Receive? ==> IsFromLog(p, e.identity)) ==> FromLog(p, After(run + [e]).table)
    ensures forall o: nat :: HasRow(p, After(run).table, o) ==> HasRow(p, After(run + [e]).table, o)
  {
    Extend(run, e);
    var t, t' := After(run).table, After(run + [e]).table;
    forall x | x in t
      ensures x in t' && t'[x].identity == t[x].identity
    {
      RowFrame(After(run), e, x);
    }
  }

  lemma SaveStores(p: Partition, run: seq<Event>, e: Event, o: nat)
    requires Legal(run) && Enabled(After(run), e) && e.Receive? && e.identity.source == p.source
    requires ToEnvelope(p.log(o)) == Ok(e.identity.envelope)
    ensures HasRow(p, After(run + [e]).table, o)
  {
    Extend(run, e);
    var t, t' := After(run).table, After(run + [e]).table;
    if e.inserted {
      assert t'[e.id].identity == e.identity;
    } else {
      var x :| x in t && SameMessage(t[x].identity, e.identity);
      assert t'[x].identity == t[x].identity;
    }
  }

  lemma CoveredGrows(p: Partition, t: Table, t': Table, committed: nat, consumers: map<nat, Consumer>, c: nat)
    requires Covered(p, t, committed, consumers) && forall o: nat :: HasRow(p, t, o) ==> HasRow(p, t', o)
    ensures Covered(p, t', committed, consumers)
    ensures c in consumers && HasRow(p, t', consumers[c].position) ==>
      Covered(p, t', committed, consumers[c := consumers[c].(saved := true)])
  {
  }

  lemma CoveredMoves(p: Partition, t: Table, committed: nat, consumers: map<nat, Consumer>, c: nat)
    requires Covered(p, t, committed, consumers)
    ensures Covered(p, t, committed, consumers[c := Consumer(committed, false)])
    ensures c in consumers && consumers[c].saved ==>
      Covered(p, t, consumers[c].position + 1, consumers[c := Consumer(consumers[c].position + 1, false)])
  {
  }

  lemma SafeStep(p: Partition, s: World, step: Step)
    requires Safe(p, s) && CanTake(p, s, step)
    ensures Safe(p, Take(s, step))
  {
    var t, t' := After(s.run).table, After(Take(s, step).run).table;
    match step
    case Inbox(e) =>
      RowsStay(p, s.run, e);
      CoveredGrows(p, t, t', s.committed, s.consumers, 0);
    case Save(c, e) =>
      RowsStay(p, s.run, e);
      SaveStores(p, s.run, e, s.consumers[c].position);
      CoveredGrows(p, t, t', s.committed, s.consumers, c);
    case CommitOffset(c) =>
      CoveredMoves(p, t, s.committed, s.consumers, c);
    case Restart(c) =>
      CoveredMoves(p, t, s.committed, s.consumers, c);
  }

  /** Saving a message lets its offset be committed: the position moves past it, and a restart resumes there. */
  lemma SaveThenCommit(p: Partition, s: World, c: nat, e: Event, other: nat)
    requires CanTake(p, s, Save(c, e))
    ensures var saved := Take(s, Save(c, e));
      && CanTake(p, saved, CommitOffset(c)) && saved.committed == s.committed
      && var done := Take(saved, CommitOffset(c));
         && done.committed == s.consumers[c].position + 1 && done.consumers[c] == Consumer(s.consumers[c].position + 1, false)
         && CanTake(p, done, Restart(other)) && Take(done, Restart(other)).consumers[other] == Consumer(done.committed, false)
  {
  }

  lemma {:induction false} SafeAlways(p: Partition, steps: seq<Step>)
    requires Possible(p, steps)
    ensures Safe(p, Reached(steps))
  {
    if steps != [] {
      SafeAlways(p, steps[..|steps| - 1]);
      SafeStep(p, Reached(steps[..|steps| - 1]), steps[|steps| - 1]);
    }
  }

  /**
   * Kafka replay safety: over every crash and restart, each offset below the committed position
   * has its row in the inbox, and replays never made a second one.
   */
  lemma ReplaySafe(p: Partition, steps: seq<Step>, offset: nat)
    requires Possible(p, steps) && offset < Reached(steps).committed
    ensures HasRow(p, After(Reached(steps).run).table, offset)
    ensures var t := After(Reached(steps).run).table;
      forall x, y :: x in t && y in t ==>
        var a, b := t[x].identity, t[y].identity;
        (a.source == b.source && a.envelope.metadata.messageId == b.envelope.metadata.messageId) ==> x == y
  {
    SafeAlways(p, steps);
    OneRowPerMessage(Reached(steps).run);
  }

  /** No two messages of the log share a message id: so it is when none carries the header, since fallback ids are injective. */
  ghost predicate DistinctIds(p: Partition) {
    forall a: nat, b: nat :: MessageId(p.log(a)) == MessageId(p.log(b)) ==> a == b
  }

  lemma NoHeaderMeansDistinct(p: Partition)
    requires forall o: nat :: p.log(o).offset == o && Get(p.log(o).headers, "message_id").None?
    ensures DistinctIds(p)
  {
    forall a: nat, b: nat | MessageId(p.log(a)) == MessageId(p.log(b))
      ensures a == b
    {
      var m, n := p.log(a), p.log(b);
      FallbackIdInjective(m.topic, m.partition, m.offset, n.topic, n.partition, n.offset);
    }
  }

  lemma {:induction false} RowsComeFromLog(p: Partition, steps: seq<Step>)
    requires Possible(p, steps) && SoleSource(p, steps)
    ensures FromLog(p, After(Reached(steps).run).table)
  {
    if steps != [] {
      var n := |steps| - 1;
      RowsComeFromLog(p, steps[..n]);
      SafeAlways(p, steps[..n]);
      if steps[n].Inbox? || steps[n].Save? {
        RowsStay(p, Reached(steps[..n]).run, steps[n].e);
      }
    }
  }

  lemma RowOfOffset(p: Partition, t: Table, offset: nat) returns (x: Id)
    requires HasRow(p, t, offset) && FromLog(p, t) && DistinctIds(p)
    ensures x in t && t[x].identity.source == p.source && ToEnvelope(p.log(offset)) == Ok(t[x].identity.envelope)
  {
    x :| x in t && t[x].identity.source == p.source && t[x].identity.envelope.metadata.messageId == ToEnvelope(p.log(offset)).value.metadata.messageId;
    var o: nat :| ToEnvelope(p.log(o)) == Ok(t[x].identity.envelope);
    EnvelopeId(p.log(o), t[x].identity.envelope);
    EnvelopeId(p.log(offset), ToEnvelope(p.log(offset)).value);
  }

  /** With distinct ids and a source of its own, every committed offset has a row of its own, holding that very message. */
  lemma EveryMessageKept(p: Partition, steps: seq<Step>, offset: nat) returns (x: Id)
    requires Possible(p, steps) && SoleSource(p, steps) && offset < Reached(steps).committed && DistinctIds(p)
    ensures x in After(Reached(steps).run).table
    ensures ToEnvelope(p.log(offset)) == Ok(After(Reached(steps).run).table[x].identity.envelope)
  {
    SafeAlways(p, steps);
    RowsComeFromLog(p, steps);
    x := RowOfOffset(p, After(Reached(steps).run).table, offset);
  }
}
