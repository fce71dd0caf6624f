/** Outbox rows as HTTP requests and HTTP requests as envelopes. */
module HttpTransport {
  import opened Wrappers
  import opened Messages
  import opened HeaderDicts

  const MESSAGE_ID: string := "x-pactix-message-id"
  const EVENT_TYPE: string := "x-pactix-event-type"
  const MESSAGE_KEY: string := "x-pactix-message-key"
  const ORDERING_KEY: string := "x-pactix-ordering-key"
  const CORRELATION_ID: string := "x-pactix-correlation-id"
  const CONTENT_TYPE: string := "content-type"

  predicate Reserved(name: string) {
    name == MESSAGE_ID || name == EVENT_TYPE || name == MESSAGE_KEY || name == ORDERING_KEY || name == CORRELATION_ID
  }

  /** ASCII lower-casing: header names are ASCII tokens. */
  function LowerChar(c: char): char {
    if 'A' <= c <= 'Z' then c - 'A' + 'a' else c
  }

  function Lower(s: string): string {
    seq(|s|, i requires 0 <= i < |s| => LowerChar(s[i]))
  }

  /** The 26 letters from code 65 on move up by 32, and nothing else changes. */
  lemma LowerExactly(s: string, i: nat)
    requires i < |s|
    ensures |Lower(s)| == |s|
    ensures Lower(s)[i] as int == if 65 <= s[i] as int < 65 + 26 then s[i] as int + 32 else s[i] as int
  {
  }

  lemma NamesAreLower(name: string)
    requires Reserved(name) || name == CONTENT_TYPE
    ensures Lower(name) == name
  {
    assert forall i :: 0 <= i < |name| ==> LowerChar(name[i]) == name[i];
  }

  // ---- HttpOutboxPublisher.build_request ----

  /** `headers.update(other)` */
  function Merged(base: Headers, other: Headers): Headers {
    if other == [] then base else Put(Merged(base, other[..|other| - 1]), other[|other| - 1].0, other[|other| - 1].1)
  }

  function PutOptional(h: Headers, name: string, value: Option<string>): Headers {
    if value.Some? then Put(h, name, value.value) else h
  }

  function WithMetadata(h: Headers, m: Metadata): Headers {
    var h1 := Put(h, CONTENT_TYPE, "application/json");
    var h2 := Put(Put(h1, MESSAGE_ID, m.messageId), EVENT_TYPE, m.eventType);
    PutOptional(PutOptional(PutOptional(h2, MESSAGE_KEY, m.messageKey), ORDERING_KEY, m.orderingKey), CORRELATION_ID, m.correlationId)
  }

  /** Of two dictionaries merged, the second overrides the first. */
  lemma {:induction false} MergedReads(base: Headers, other: Headers, k: string)
    requires DistinctKeys(other)
    ensures Get(Merged(base, other), k) == if Get(other, k).Some? then Get(other, k) else Get(base, k)
    decreases |other|
  {
    if other != [] {
      var n := |other| - 1;
      MergedReads(base, other[..n], k);
      GetPut(Merged(base, other[..n]), other[n].0, other[n].1, k);
      assert other == other[..n] + [(other[n].0, other[n].1)];
      GetLast(other[..n], other[n].0, other[n].1, k);
      GetFinds(other[..n], k);
    }
  }

  lemma PutOptionalReads(h: Headers, name: string, value: Option<string>, k: string)
    ensures Get(PutOptional(h, name, value), k) == if k == name && value.Some? then value else Get(h, k)
  {
    if value.Some? {
      GetPut(h, name, value.value, k);
    }
  }

  /** What a built request carries under `k`. */
  function BuiltValue(endpoint: Headers, m: Metadata, k: string): Option<string> {
    if k == CONTENT_TYPE then Some("application/json")
    else if Canonical(m, k).Some? then Canonical(m, k)
    else if Get(m.headers, k).Some? then Get(m.headers, k)
    else Get(endpoint, k)
  }

  /** The content type, the five metadata headers where the row has them, then the row's own header, then the endpoint's. */
  lemma BuiltExactly(endpoint: Headers, m: Metadata)
    ensures BuiltValue(endpoint, m, "content-type") == Some("application/json")
    ensures BuiltValue(endpoint, m, "x-pactix-message-id") == Some(m.messageId)
    ensures BuiltValue(endpoint, m, "x-pactix-event-type") == Some(m.eventType)
    ensures m.messageKey.Some? ==> BuiltValue(endpoint, m, "x-pactix-message-key") == m.messageKey
    ensures m.orderingKey.Some? ==> BuiltValue(endpoint, m, "x-pactix-ordering-key") == m.orderingKey
    ensures m.correlationId.Some? ==> BuiltValue(endpoint, m, "x-pactix-correlation-id") == m.correlationId
    ensures forall k :: k != "content-type" && !Reserved(k) ==>
      BuiltValue(endpoint, m, k) == if Get(m.headers, k).Some? then Get(m.headers, k) else Get(endpoint, k)
  {
  }

  /** Header by header: metadata, then the row's own headers, then the endpoint's. */
  lemma BuiltHeader(endpoint: Headers, m: Metadata, k: string)
    requires DistinctKeys(m.headers)
    ensures Get(WithMetadata(Merged(endpoint, m.headers), m), k) == BuiltValue(endpoint, m, k)
  {
    var h := Merged(endpoint, m.headers);
    var h1 := Put(h, CONTENT_TYPE, "application/json");
    var h2 := Put(h1, MESSAGE_ID, m.messageId);
    var h3 := Put(h2, EVENT_TYPE, m.eventType);
    var h4 := PutOptional(h3, MESSAGE_KEY, m.messageKey);
    var h5 := PutOptional(h4, ORDERING_KEY, m.orderingKey);
    MergedReads(endpoint, m.headers, k);
    GetPut(h, CONTENT_TYPE, "application/json", k);
    GetPut(h1, MESSAGE_ID, m.messageId, k);
    GetPut(h2, EVENT_TYPE, m.eventType, k);
    PutOptionalReads(h3, MESSAGE_KEY, m.messageKey, k);
    PutOptionalReads(h4, ORDERING_KEY, m.orderingKey, k);
    PutOptionalReads(h5, CORRELATION_ID, m.correlationId, k);
  }

  lemma BuiltHeaders(endpoint: Headers, m: Metadata)
    ensures DistinctKeys(m.headers) ==> forall k :: Get(WithMetadata(Merged(endpoint, m.headers), m), k) == BuiltValue(endpoint, m, k)
  {
    if DistinctKeys(m.headers) {
      forall k
        ensures Get(WithMetadata(Merged(endpoint, m.headers), m), k) == BuiltValue(endpoint, m, k)
      {
        BuiltHeader(endpoint, m, k);
      }
    }
  }

  /** The headers of the request, once the endpoint is resolved. */
  method BuildHeaders(endpoint: Headers, m: Metadata) returns (headers: Headers)
    ensures headers == WithMetadata(Merged(endpoint, m.headers), m)
    ensures DistinctKeys(m.headers) ==> forall k :: Get(headers, k) == BuiltValue(endpoint, m, k)
  {
    BuiltHeaders(endpoint, m);
    headers := endpoint;
    for i := 0 to |m.headers|
      invariant headers == Merged(endpoint, m.headers[..i])
    {
      headers := Put(headers, m.headers[i].0, m.headers[i].1);
      assert m.headers[..i + 1][..i] == m.headers[..i];
    }
    assert m.headers[..|m.headers|] == m.headers;
    headers := Put(headers, CONTENT_TYPE, "application/json");
    headers := Put(headers, MESSAGE_ID, m.messageId);
    headers := Put(headers, EVENT_TYPE, m.eventType);
    if m.messageKey.Some? {
      headers := Put(headers, MESSAGE_KEY, m.messageKey.value);
    }
    if m.orderingKey.Some? {
      headers := Put(headers, ORDERING_KEY, m.orderingKey.value);
    }
    if m.correlationId.Some? {
      headers := Put(headers, CORRELATION_ID, m.correlationId.value);
    }
  }

  // ---- HttpInboundMessage.from_headers and to_envelope ----

  /** `{key.lower(): value for key, value in headers.items()}`: of keys that collide, the last wins. */
  function Normalize(h: Headers): Headers {
    if h == [] then [] else Put(Normalize(h[..|h| - 1]), Lower(h[|h| - 1].0), h[|h| - 1].1)
  }

  function FromHeaders(h: Headers, payload: Json): Result<Envelope> {
    var normalized := Normalize(h);
    var id, eventType := Get(normalized, MESSAGE_ID), Get(normalized, EVENT_TYPE);
    if id.None? then Err("x-pactix-message-id header is required")
    else if eventType.None? then Err("x-pactix-event-type header is required")
    else
      MakeEnvelope(
        Metadata(id.value, eventType.value, Get(normalized, MESSAGE_KEY), Get(normalized, ORDERING_KEY), Get(normalized, CORRELATION_ID), normalized),
        payload)
  }

  // ---- which spelling of a name wins ----

  /** The value of the last key that is some spelling of `name`. */
  function LastSpelling(h: Headers, name: string): Option<string> {
    if h == [] then None
    else
      var rest := LastSpelling(h[1..], name);
      if rest.Some? then rest else if Lower(h[0].0) == name then Some(h[0].1) else None
  }

  /** The value of the last other spelling of `name` that comes after `name` itself, if any. */
  function Shadow(h: Headers, name: string): Option<string> {
    if h == [] then None else if h[0].0 == name then LastSpelling(h[1..], name) else Shadow(h[1..], name)
  }

  lemma {:induction false} LastSpellingAppends(h: Headers, key: string, value: string, name: string)
    ensures LastSpelling(h + [(key, value)], name) == if Lower(key) == name then Some(value) else LastSpelling(h, name)
  {
    if h == [] {
      assert (h + [(key, value)])[1..] == [];
    } else {
      assert (h + [(key, value)])[1..] == h[1..] + [(key, value)];
      LastSpellingAppends(h[1..], key, value, name);
    }
  }

  lemma {:induction false} NormalizeReadsLastSpelling(h: Headers, name: string)
    ensures Get(Normalize(h), name) == LastSpelling(h, name)
    decreases |h|
  {
    if h != [] {
      var n := |h| - 1;
      NormalizeReadsLastSpelling(h[..n], name);
      GetPut(Normalize(h[..n]), Lower(h[n].0), h[n].1, name);
      assert h == h[..n] + [(h[n].0, h[n].1)];
      LastSpellingAppends(h[..n], h[n].0, h[n].1, name);
    }
  }

  /**
   * What the receiver makes of any request: it fails on a missing id, then on a missing type,
   * then on blank metadata, and otherwise takes each field from the last spelling of its name
   * and keeps all headers, in lower case.
   */
  lemma ParsedExactly(h: Headers, payload: Json)
    ensures var r := FromHeaders(h, payload);
      var id, eventType, orderingKey := LastSpelling(h, "x-pactix-message-id"), LastSpelling(h, "x-pactix-event-type"), LastSpelling(h, "x-pactix-ordering-key");
      if id.None? then r == Err("x-pactix-message-id header is required")
      else if eventType.None? then r == Err("x-pactix-event-type header is required")
      else
        && (r.Ok? <==> Strip(id.value) != "" && Strip(eventType.value) != "" && (orderingKey.Some? ==> Strip(orderingKey.value) != ""))
        && (r.Ok? ==> r.value == Envelope(
              Metadata(id.value, eventType.value, LastSpelling(h, "x-pactix-message-key"), orderingKey,
                       LastSpelling(h, "x-pactix-correlation-id"), Normalize(h)), payload))
  {
    NormalizeReadsLastSpelling(h, MESSAGE_ID);
    NormalizeReadsLastSpelling(h, EVENT_TYPE);
    NormalizeReadsLastSpelling(h, MESSAGE_KEY);
    NormalizeReadsLastSpelling(h, ORDERING_KEY);
    NormalizeReadsLastSpelling(h, CORRELATION_ID);
    var n := Normalize(h);
    if Get(n, MESSAGE_ID).Some? && Get(n, EVENT_TYPE).Some? {
      EnvelopeExactlyWhen(
        Metadata(Get(n, MESSAGE_ID).value, Get(n, EVENT_TYPE).value, Get(n, MESSAGE_KEY), Get(n, ORDERING_KEY), Get(n, CORRELATION_ID), n), payload);
    }
  }

  /** Writing another name changes nothing about this one. */
  lemma {:induction false} PutOther(h: Headers, key: string, value: string, name: string)
    requires Lower(key) != name && Lower(name) == name
    ensures LastSpelling(Put(h, key, value), name) == LastSpelling(h, name)
    ensures Shadow(Put(h, key, value), name) == Shadow(h, name)
  {
    if h == [] {
      assert [(key, value)][1..] == [];
    } else if h[0].0 == key {
      assert ([(key, value)] + h[1..])[1..] == h[1..];
    } else {
      PutOther(h[1..], key, value, name);
      assert Put(h, key, value)[1..] == Put(h[1..], key, value);
    }
  }

  /** Writing the name itself makes its value the last spelling, unless another spelling comes later. */
  lemma {:induction false} PutSelf(h: Headers, name: string, value: string)
    requires Lower(name) == name
    ensures LastSpelling(Put(h, name, value), name) == if Shadow(h, name).Some? then Shadow(h, name) else Some(value)
  {
    if h == [] {
      assert [(name, value)][1..] == [];
    } else if h[0].0 == name {
      assert ([(name, value)] + h[1..])[1..] == h[1..];
    } else {
      PutSelf(h[1..], name, value);
      assert Put(h, name, value)[1..] == Put(h[1..], name, value);
    }
  }

  /** What the row's metadata puts under `name`, if anything. */
  function Canonical(m: Metadata, name: string): Option<string> {
    if name == MESSAGE_ID then Some(m.messageId)
    else if name == EVENT_TYPE then Some(m.eventType)
    else if name == MESSAGE_KEY then m.messageKey
    else if name == ORDERING_KEY then m.orderingKey
    else if name == CORRELATION_ID then m.correlationId
    else None
  }

  lemma PutOptionalStep(h: Headers, key: string, value: Option<string>, name: string)
    requires Lower(key) == key && Lower(name) == name
    ensures key != name ==>
      LastSpelling(PutOptional(h, key, value), name) == LastSpelling(h, name) && Shadow(PutOptional(h, key, value), name) == Shadow(h, name)
    ensures key == name && value.Some? ==>
      LastSpelling(PutOptional(h, key, value), name) == if Shadow(h, name).Some? then Shadow(h, name) else value
  {
    if value.Some? {
      if key == name {
        PutSelf(h, name, value.value);
      } else {
        PutOther(h, key, value.value, name);
      }
    }
  }

  /** The value a receiver reads under a metadata name. */
  lemma ReceivedValue(h: Headers, m: Metadata, name: string)
    requires Reserved(name)
    ensures Get(Normalize(WithMetadata(h, m)), name) ==
      if Canonical(m, name).None? then LastSpelling(h, name) else if Shadow(h, name).Some? then Shadow(h, name) else Canonical(m, name)
  {
    NamesAreLower(name);
    NamesAreLower(CONTENT_TYPE);
    NamesAreLower(MESSAGE_ID);
    NamesAreLower(EVENT_TYPE);
    NamesAreLower(MESSAGE_KEY);
    NamesAreLower(ORDERING_KEY);
    NamesAreLower(CORRELATION_ID);
    var h1 := PutOptional(h, CONTENT_TYPE, Some("application/json"));
    var h2 := PutOptional(h1, MESSAGE_ID, Some(m.messageId));
    var h3 := PutOptional(h2, EVENT_TYPE, Some(m.eventType));
    var h4 := PutOptional(h3, MESSAGE_KEY, m.messageKey);
    var h5 := PutOptional(h4, ORDERING_KEY, m.orderingKey);
    PutOptionalStep(h, CONTENT_TYPE, Some("application/json"), name);
    PutOptionalStep(h1, MESSAGE_ID, Some(m.messageId), name);
    PutOptionalStep(h2, EVENT_TYPE, Some(m.eventType), name);
    PutOptionalStep(h3, MESSAGE_KEY, m.messageKey, name);
    PutOptionalStep(h4, ORDERING_KEY, m.orderingKey, name);
    PutOptionalStep(h5, CORRELATION_ID, m.correlationId, name);
    NormalizeReadsLastSpelling(WithMetadata(h, m), name);
  }

  /**
   * The headers a row is sent with (its endpoint's, overridden by its own) do not get in the
   * way of `name`: a value the row lacks is not supplied by any spelling of the name, and a
   * value it has is not shadowed by a different one under a later spelling.
   */
  predicate Undistorted(h: Headers, m: Metadata, name: string) {
    if Canonical(m, name).None? then LastSpelling(h, name).None?
    else Shadow(h, name).None? || Shadow(h, name) == Canonical(m, name)
  }

  /**
   * Transport round trip over HTTP: for every record of a validated envelope and every endpoint,
   * parsing the built request recovers the message if and only if the headers it is sent with
   * distort none of the five metadata names.
   */
  lemma HttpRoundTrip(endpoint: Headers, e: Envelope)
    requires ValidMetadata(e.metadata)
    ensures var h := Merged(endpoint, e.metadata.headers);
      Recovers(e, FromHeaders(WithMetadata(h, e.metadata), e.payload)) <==> forall name :: Reserved(name) ==> Undistorted(h, e.metadata, name)
  {
    var h, m := Merged(endpoint, e.metadata.headers), e.metadata;
    var normalized := Normalize(WithMetadata(h, m));
    forall name | Reserved(name)
      ensures Get(normalized, name) == Canonical(m, name) <==> Undistorted(h, m, name)
    {
      ReceivedValue(h, m, name);
    }
    ReceivedValue(h, m, MESSAGE_ID);
    ReceivedValue(h, m, EVENT_TYPE);
    var parsed := FromHeaders(WithMetadata(h, m), e.payload);
    assert Recovers(e, parsed) <==>
      && Get(normalized, MESSAGE_ID) == Canonical(m, MESSAGE_ID) && Get(normalized, EVENT_TYPE) == Canonical(m, EVENT_TYPE)
      && Get(normalized, MESSAGE_KEY) == Canonical(m, MESSAGE_KEY) && Get(normalized, ORDERING_KEY) == Canonical(m, ORDERING_KEY)
      && Get(normalized, CORRELATION_ID) == Canonical(m, CORRELATION_ID);
    assert Reserved(MESSAGE_ID) && Reserved(EVENT_TYPE) && Reserved(MESSAGE_KEY) && Reserved(ORDERING_KEY) && Reserved(CORRELATION_ID);
  }

  /** No header name is, in any spelling, a metadata name. */
  predicate NoReserved(h: Headers) {
    forall i :: 0 <= i < |h| ==> !Reserved(Lower(h[i].0))
  }

  lemma {:induction false} NoSpelling(h: Headers, name: string)
    requires NoReserved(h) && Reserved(name)
    ensures LastSpelling(h, name).None? && Shadow(h, name).None?
  {
    if h != [] {
      assert forall i :: 0 <= i < |h[1..]| ==> h[1..][i] == h[i + 1];
      NoSpelling(h[1..], name);
    }
  }

  lemma {:induction false} MergedNoReserved(base: Headers, other: Headers)
    requires NoReserved(base) && NoReserved(other)
    ensures NoReserved(Merged(base, other))
    decreases |other|
  {
    if other != [] {
      MergedNoReserved(base, other[..|other| - 1]);
      PutNoReserved(Merged(base, other[..|other| - 1]), other[|other| - 1].0, other[|other| - 1].1);
    }
  }

  lemma {:induction false} PutNoReserved(h: Headers, key: string, value: string)
    requires NoReserved(h) && !Reserved(Lower(key))
    ensures NoReserved(Put(h, key, value))
  {
    if h != [] && h[0].0 != key {
      PutNoReserved(h[1..], key, value);
    }
  }

  /** The documented case: with no metadata name among the row's or the endpoint's headers, the trip always succeeds. */
  lemma HttpRoundTripWithoutReserved(endpoint: Headers, e: Envelope)
    requires ValidMetadata(e.metadata) && NoReserved(endpoint) && NoReserved(e.metadata.headers)
    ensures Recovers(e, FromHeaders(WithMetadata(Merged(endpoint, e.metadata.headers), e.metadata), e.payload))
  {
    var h := Merged(endpoint, e.metadata.headers);
    MergedNoReserved(endpoint, e.metadata.headers);
    forall name | Reserved(name)
      ensures Undistorted(h, e.metadata, name)
    {
      NoSpelling(h, name);
    }
    HttpRoundTrip(endpoint, e);
  }

  // ---- messages that do not survive ----

  const TITLE_CASE: string := "X-Pactix-Ordering-Key"

  lemma TitleCaseIsASpelling()
    ensures Lower(TITLE_CASE) == ORDERING_KEY && TITLE_CASE != ORDERING_KEY
  {
    assert TITLE_CASE[0] != ORDERING_KEY[0];
  }

  /** An endpoint header poses as the ordering key the row lacks. */
  lemma EndpointSuppliesOrderingKey(m: Metadata, payload: Json)
    requires ValidMetadata(m) && m.orderingKey.None? && m.headers == []
    ensures var built := WithMetadata(Merged([(TITLE_CASE, "k")], m.headers), m);
      !Recovers(Envelope(m, payload), FromHeaders(built, payload)) && Get(Normalize(built), ORDERING_KEY) == Some("k")
  {
    var h := [(TITLE_CASE, "k")];
    TitleCaseIsASpelling();
    assert Merged(h, m.headers) == h;
    assert h[1..] == [] && LastSpelling(h, ORDERING_KEY) == Some("k");
    ReceivedValue(h, m, ORDERING_KEY);
    assert !Undistorted(h, m, ORDERING_KEY);
    HttpRoundTrip(h, Envelope(m, payload));
  }

  /** A second spelling of the name, later in the row's own headers, shadows the ordering key the row has. */
  lemma LaterSpellingShadowsOrderingKey(m: Metadata, payload: Json)
    requires ValidMetadata(m) && m.orderingKey == Some("order-42")
    requires m.headers == [(ORDERING_KEY, ""), (TITLE_CASE, "k")]
    ensures var built := WithMetadata(Merged([], m.headers), m);
      !Recovers(Envelope(m, payload), FromHeaders(built, payload)) && Get(Normalize(built), ORDERING_KEY) == Some("k")
  {
    TitleCaseIsASpelling();
    var h := m.headers;
    assert h[..2] == h && h[..1] == [(ORDERING_KEY, "")] && h[1..] == [(TITLE_CASE, "k")] && h[1..][1..] == [];
    assert Merged([], h[..1]) == [(ORDERING_KEY, "")] by {
      assert h[..1][..0] == [];
    }
    assert Merged([], h) == h by {
      assert h[..1] == h[..|h| - 1];
      assert Put([(ORDERING_KEY, "")], TITLE_CASE, "k") == [(ORDERING_KEY, "")] + Put([], TITLE_CASE, "k");
    }
    assert LastSpelling(h[1..], ORDERING_KEY) == Some("k");
    assert Shadow(h, ORDERING_KEY) == Some("k");
    ReceivedValue(h, m, ORDERING_KEY);
    assert !Undistorted(h, m, ORDERING_KEY);
    HttpRoundTrip([], Envelope(m, payload));
  }
}
