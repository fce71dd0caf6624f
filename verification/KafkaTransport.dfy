/** Outbox rows as Kafka messages and Kafka messages as envelopes: a printer and its parser. */
module KafkaTransport {
  import opened Wrappers
  import opened Messages
  import opened HeaderDicts

  datatype Produced = Produced(topic: string, key: Option<string>, payload: Json, headers: Headers)

  datatype Inbound = Inbound(topic: string, partition: int, offset: int, key: Option<string>, payload: Json, headers: Headers)

  /** What `build_message` promises about the header `k`. */
  function ProducedHeader(m: Metadata, k: string): Option<string> {
    if k == "message_id" then Some(m.messageId)
    else if k == "event_type" then Some(m.eventType)
    else if k == "ordering_key" && m.orderingKey.Some? then m.orderingKey
    else if k == "correlation_id" && m.correlationId.Some? then m.correlationId
    else Get(m.headers, k)
  }

  /** The four metadata headers, where the row has them; every other header is the row's own. */
  lemma ProducedExactly(m: Metadata)
    ensures ProducedHeader(m, "message_id") == Some(m.messageId) && ProducedHeader(m, "event_type") == Some(m.eventType)
    ensures ProducedHeader(m, "ordering_key") == if m.orderingKey.Some? then m.orderingKey else Get(m.headers, "ordering_key")
    ensures ProducedHeader(m, "correlation_id") == if m.correlationId.Some? then m.correlationId else Get(m.headers, "correlation_id")
    ensures forall k :: k !in {"message_id", "event_type", "ordering_key", "correlation_id"} ==> ProducedHeader(m, k) == Get(m.headers, k)
  {
  }

  /** `KafkaOutboxPublisher.build_message`, once the topic is resolved. */
  method BuildMessage(topic: string, e: Envelope) returns (m: Produced)
    ensures m.topic == topic && m.key == e.metadata.messageKey && m.payload == e.payload
    ensures forall k :: Get(m.headers, k) == ProducedHeader(e.metadata, k)
    ensures DistinctKeys(e.metadata.headers) ==> DistinctKeys(m.headers)
  {
    var headers := e.metadata.headers;
    PutSets(headers, "message_id", e.metadata.messageId);
    headers := Put(headers, "message_id", e.metadata.messageId);
    PutSets(headers, "event_type", e.metadata.eventType);
    headers := Put(headers, "event_type", e.metadata.eventType);
    if e.metadata.orderingKey.Some? {
      PutSets(headers, "ordering_key", e.metadata.orderingKey.value);
      headers := Put(headers, "ordering_key", e.metadata.orderingKey.value);
    }
    if e.metadata.correlationId.Some? {
      PutSets(headers, "correlation_id", e.metadata.correlationId.value);
      headers := Put(headers, "correlation_id", e.metadata.correlationId.value);
    }
    m := Produced(topic, e.metadata.messageKey, e.payload, headers);
  }

  /** A consumer record's header list: a missing value reads as the empty string, a repeated key as its last value. */
  function LastOf(pairs: seq<(string, Option<string>)>, k: string): Option<string> {
    if pairs == [] then None
    else
      var last := pairs[|pairs| - 1];
      if last.0 == k then Some(if last.1.Some? then last.1.value else "") else LastOf(pairs[..|pairs| - 1], k)
  }

  /** `KafkaInboundMessage.from_record`: fills the header dictionary pair by pair. */
  method FromRecord(topic: string, partition: int, offset: int, key: Option<string>, value: Option<Json>, pairs: seq<(string, Option<string>)>)
    returns (r: Result<Inbound>)
    ensures r.Err? <==> value.None?
    ensures r.Ok? ==>
      && r.value == Inbound(topic, partition, offset, key, value.value, r.value.headers)
      && forall k :: Get(r.value.headers, k) == LastOf(pairs, k)
  {
    if value.None? {
      return Err("Kafka payload is required");
    }
    var headers: Headers := [];
    for i := 0 to |pairs|
      invariant forall k :: Get(headers, k) == LastOf(pairs[..i], k)
    {
      var text := if pairs[i].1.Some? then pairs[i].1.value else "";
      PutSets(headers, pairs[i].0, text);
      headers := Put(headers, pairs[i].0, text);
      assert pairs[..i + 1][..i] == pairs[..i];
    }
    assert pairs[..|pairs|] == pairs;
    r := Ok(Inbound(topic, partition, offset, key, value.value, headers));
  }

  // ---- fallback_message_id ----

  function Digit(d: nat): char
    requires d < 10
  {
    '0' + d as char
  }

  function DecNat(n: nat): string {
    if n < 10 then [Digit(n)] else DecNat(n / 10) + [Digit(n % 10)]
  }

  /** Python's `str(n)` */
  function Dec(n: int): string {
    if n < 0 then "-" + DecNat(-n) else DecNat(n)
  }

  function FallbackId(topic: string, partition: int, offset: int): string {
    topic + ":" + Dec(partition) + ":" + Dec(offset)
  }

  lemma {:induction false} DecNatDigits(n: nat)
    ensures |DecNat(n)| >= 1 && forall i :: 0 <= i < |DecNat(n)| ==> '0' <= DecNat(n)[i] <= '9'
  {
    if n >= 10 {
      DecNatDigits(n / 10);
    }
  }

  /** The last digit, what comes before it, and whether anything does. */
  lemma LastDigit(n: nat)
    ensures var s := DecNat(n);
      && |s| >= 1 && s[|s| - 1] == Digit(n % 10) && (|s| == 1 <==> n < 10)
      && (n >= 10 ==> s[..|s| - 1] == DecNat(n / 10))
  {
    if n >= 10 {
      DecNatDigits(n / 10);
    }
  }

  lemma SameDigit(a: nat, b: nat)
    requires a < 10 && b < 10 && Digit(a) == Digit(b)
    ensures a == b
  {
  }

  lemma {:induction false} DecNatInjective(a: nat, b: nat)
    requires DecNat(a) == DecNat(b)
    ensures a == b
  {
    LastDigit(a);
    LastDigit(b);
    SameDigit(a % 10, b % 10);
    if a >= 10 {
      DecNatInjective(a / 10, b / 10);
    }
  }

  predicate NoColon(s: string) {
    forall i :: 0 <= i < |s| ==> s[i] != ':'
  }

  lemma DecNoColon(n: int)
    ensures NoColon(Dec(n))
  {
    DecNatDigits(if n < 0 then -n else n);
  }

  lemma DecInjective(a: int, b: int)
    requires Dec(a) == Dec(b)
    ensures a == b
  {
    var x, y := if a < 0 then -a else a, if b < 0 then -b else b;
    DecNatDigits(x);
    DecNatDigits(y);
    assert Dec(a)[0] == Dec(b)[0];
    if a < 0 {
      assert Dec(a)[1..] == DecNat(x) && Dec(b)[1..] == DecNat(y);
    }
    DecNatInjective(x, y);
  }

  /** The last colon splits a string in one way only. */
  lemma LastColonSplits(a: string, b: string, c: string, d: string)
    requires a + ":" + b == c + ":" + d && NoColon(b) && NoColon(d)
    ensures a == c && b == d
  {
    var s := a + ":" + b;
    assert s[|a|] == ':' && s[|c|] == ':';
    if |a| < |c| {
      assert false;
    } else if |c| < |a| {
      assert false;
    }
    assert s[..|a|] == a && s[..|c|] == c;
    assert s[|a| + 1..] == b && s[|c| + 1..] == d;
  }

  /** The fallback id names one message: no two (topic, partition, offset) share it, even when topics contain colons. */
  lemma FallbackIdInjective(topic: string, partition: int, offset: int, topic': string, partition': int, offset': int)
    requires FallbackId(topic, partition, offset) == FallbackId(topic', partition', offset')
    ensures topic == topic' && partition == partition' && offset == offset'
  {
    DecNoColon(offset);
    DecNoColon(offset');
    LastColonSplits(topic + ":" + Dec(partition), Dec(offset), topic' + ":" + Dec(partition'), Dec(offset'));
    DecNoColon(partition);
    DecNoColon(partition');
    LastColonSplits(topic, Dec(partition), topic', Dec(partition'));
    DecInjective(offset, offset');
    DecInjective(partition, partition');
  }

  // ---- to_envelope ----

  /** `headers.get('message_id') or fallback`: an empty header counts as absent. */
  function MessageId(m: Inbound): string {
    var id := Get(m.headers, "message_id");
    if id.Some? && id.value != "" then id.value else FallbackId(m.topic, m.partition, m.offset)
  }

  function ToEnvelope(m: Inbound): Result<Envelope> {
    var eventType := Get(m.headers, "event_type");
    if eventType.None? then Err("event_type header is required")
    else
      MakeEnvelope(
        Metadata(MessageId(m), eventType.value, m.key, Get(m.headers, "ordering_key"), Get(m.headers, "correlation_id"), m.headers),
        m.payload)
  }

  /**
   * What the consumer makes of any message: it fails without the type header, then on blank
   * metadata; the id is the header unless that is missing or empty, and the fallback otherwise;
   * key, payload and all headers are kept.
   */
  lemma ParsedExactly(m: Inbound)
    ensures var r := ToEnvelope(m);
      var header, eventType, orderingKey := Get(m.headers, "message_id"), Get(m.headers, "event_type"), Get(m.headers, "ordering_key");
      var id := if header.None? || header.value == "" then m.topic + ":" + Dec(m.partition) + ":" + Dec(m.offset) else header.value;
      if eventType.None? then r == Err("event_type header is required")
      else
        && (r.Ok? <==> Strip(id) != "" && Strip(eventType.value) != "" && (orderingKey.Some? ==> Strip(orderingKey.value) != ""))
        && (r.Ok? ==> r.value == Envelope(
              Metadata(id, eventType.value, m.key, orderingKey, Get(m.headers, "correlation_id"), m.headers), m.payload))
  {
    var eventType := Get(m.headers, "event_type");
    if eventType.Some? {
      EnvelopeExactlyWhen(
        Metadata(MessageId(m), eventType.value, m.key, Get(m.headers, "ordering_key"), Get(m.headers, "correlation_id"), m.headers), m.payload);
    }
  }

  /** The row's own headers do not pose as a key the row does not have. */
  predicate NoImpostor(m: Metadata) {
    && (m.orderingKey.None? ==> Get(m.headers, "ordering_key").None?)
    && (m.correlationId.None? ==> Get(m.headers, "correlation_id").None?)
  }

  /**
   * Transport round trip over Kafka: for every record of a validated envelope, wherever its
   * message lands in the log, parsing what was built recovers the message if and only if the
   * record's own headers hold no `ordering_key` or `correlation_id` the record lacks.
   */
  lemma KafkaRoundTrip(e: Envelope, sent: Produced, got: Inbound)
    requires ValidMetadata(e.metadata)
    requires sent.key == e.metadata.messageKey && sent.payload == e.payload
    requires forall k :: Get(sent.headers, k) == ProducedHeader(e.metadata, k)
    requires got.key == sent.key && got.payload == sent.payload && forall k :: Get(got.headers, k) == Get(sent.headers, k)
    ensures Recovers(e, ToEnvelope(got)) <==> NoImpostor(e.metadata)
  {
    assert Get(got.headers, "message_id") == Some(e.metadata.messageId);
    assert Get(got.headers, "event_type") == Some(e.metadata.eventType);
    assert Get(got.headers, "ordering_key") == ProducedHeader(e.metadata, "ordering_key");
    assert Get(got.headers, "correlation_id") == ProducedHeader(e.metadata, "correlation_id");
    assert e.metadata.messageId != "";
  }

  /** A message that does not survive: its own header poses as the ordering key it lacks. */
  lemma ImpostorIsReceived(e: Envelope, sent: Produced, got: Inbound)
    requires e == Envelope(Metadata("m-1", "order.created", None, None, None, [("ordering_key", "k")]), Json("{}"))
    requires sent.key == e.metadata.messageKey && sent.payload == e.payload
    requires forall k :: Get(sent.headers, k) == ProducedHeader(e.metadata, k)
    requires got.key == sent.key && got.payload == sent.payload && forall k :: Get(got.headers, k) == Get(sent.headers, k)
    ensures ValidMetadata(e.metadata) && !Recovers(e, ToEnvelope(got))
    ensures ToEnvelope(got).Ok? && ToEnvelope(got).value.metadata.orderingKey == Some("k")
  {
    assert Get(e.metadata.headers, "ordering_key") == Some("k");
    assert !Whitespace("m-1"[0]) && !Whitespace("order.created"[0]) && !Whitespace("k"[0]);
    KafkaRoundTrip(e, sent, got);
    assert Get(got.headers, "message_id") == ProducedHeader(e.metadata, "message_id");
    assert Get(got.headers, "event_type") == ProducedHeader(e.metadata, "event_type");
    assert Get(got.headers, "ordering_key") == ProducedHeader(e.metadata, "ordering_key") == Some("k");
  }

  /** The header list on the wire: the dictionary's pairs, all with a value. */
  function OnWire(h: Headers): seq<(string, Option<string>)> {
    seq(|h|, i requires 0 <= i < |h| => (h[i].0, Some(h[i].1)))
  }

  /** Reading back the pairs of a dictionary gives the dictionary. */
  lemma {:induction false} WireKeepsHeaders(h: Headers, k: string)
    requires DistinctKeys(h)
    ensures LastOf(OnWire(h), k) == Get(h, k)
    decreases |h|
  {
    if h != [] {
      var n := |h| - 1;
      WireKeepsHeaders(h[..n], k);
      assert OnWire(h)[..n] == OnWire(h[..n]);
      assert h == h[..n] + [(h[n].0, h[n].1)];
      GetLast(h[..n], h[n].0, h[n].1, k);
      GetFinds(h[..n], k);
    }
  }

  /** The whole trip: build, send, consume, parse. */
  method Trip(topic: string, e: Envelope, partition: int, offset: int) returns (r: Result<Envelope>)
    requires ValidMetadata(e.metadata) && DistinctKeys(e.metadata.headers)
    ensures (&& r.Ok? && r.value.payload == e.payload
             && r.value.metadata == e.metadata.(headers := r.value.metadata.headers)) <==>
      && (e.metadata.orderingKey.None? ==> Get(e.metadata.headers, "ordering_key").None?)
      && (e.metadata.correlationId.None? ==> Get(e.metadata.headers, "correlation_id").None?)
  {
    var sent := BuildMessage(topic, e);
    var record := FromRecord(topic, partition, offset, sent.key, Some(sent.payload), OnWire(sent.headers));
    forall k ensures LastOf(OnWire(sent.headers), k) == Get(sent.headers, k) {
      WireKeepsHeaders(sent.headers, k);
    }
    KafkaRoundTrip(e, sent, record.value);
    r := ToEnvelope(record.value);
  }
}
