/** `MessageMetadata` and `MessageEnvelope` of src/pactix/message.py. */
module Messages {
  import opened Wrappers

  /** A JSON value, kept as an opaque token: its encoding is not modelled. */
  datatype Json = Json(text: string)

  /** A Python `dict[str, str]`: pairs in insertion order, one pair per key. */
  type Headers = seq<(string, string)>

  datatype Metadata = Metadata(
    messageId: string,
    eventType: string,
    messageKey: Option<string>,
    orderingKey: Option<string>,
    correlationId: Option<string>,
    headers: Headers)

  datatype Envelope = Envelope(metadata: Metadata, payload: Json)

  /** The characters `str.strip` removes. */
  predicate Whitespace(c: char) {
    || '\t' <= c <= '\r' || '\U{1c}' <= c <= ' ' || c == '\U{85}' || c == '\U{a0}' || c == '\U{1680}'
    || '\U{2000}' <= c <= '\U{200a}' || c == '\U{2028}' || c == '\U{2029}' || c == '\U{202f}'
    || c == '\U{205f}' || c == '\U{3000}'
  }

  /** `not s.strip()` */
  predicate Blank(s: string) {
    forall i :: 0 <= i < |s| ==> Whitespace(s[i])
  }

  predicate ValidMetadata(m: Metadata) {
    && !Blank(m.messageId)
    && !Blank(m.eventType)
    && (m.orderingKey.Some? ==> !Blank(m.orderingKey.value))
  }

  /** `MessageEnvelope(metadata, payload)`: validation runs in the constructor. */
  function MakeEnvelope(m: Metadata, payload: Json): Result<Envelope> {
    if Blank(m.messageId) then Err("message_id must not be empty")
    else if Blank(m.eventType) then Err("event_type must not be empty")
    else if m.orderingKey.Some? && Blank(m.orderingKey.value) then Err("ordering_key must not be empty when provided")
    else Ok(Envelope(m, payload))
  }

  /** `str.strip`: without the whitespace at both ends. */
  function Strip(s: string): string {
    if s == "" then ""
    else if Whitespace(s[0]) then Strip(s[1..])
    else if Whitespace(s[|s| - 1]) then Strip(s[..|s| - 1])
    else s
  }

  lemma {:induction false} BlankExactlyWhen(s: string)
    ensures Blank(s) <==> Strip(s) == ""
    decreases |s|
  {
    if s != "" {
      if Whitespace(s[0]) {
        BlankExactlyWhen(s[1..]);
        assert Blank(s[1..]) ==> Blank(s) by {
          assert forall i :: 0 < i < |s| ==> s[i] == s[1..][i - 1];
        }
      } else if Whitespace(s[|s| - 1]) {
        BlankExactlyWhen(s[..|s| - 1]);
      }
    }
  }

  /** The ASCII characters among them. */
  lemma AsciiWhitespace(c: char)
    requires c < '\U{80}'
    ensures Whitespace(c) <==> c in {'\t', '\n', '\U{b}', '\U{c}', '\r', '\U{1c}', '\U{1d}', '\U{1e}', '\U{1f}', ' '}
  {
  }

  /** An envelope is made exactly when id, type and ordering key, if any, are more than whitespace; the first that is not is reported. */
  lemma EnvelopeExactlyWhen(m: Metadata, payload: Json)
    ensures var r := MakeEnvelope(m, payload);
      if Strip(m.messageId) == "" then r == Err("message_id must not be empty")
      else if Strip(m.eventType) == "" then r == Err("event_type must not be empty")
      else if m.orderingKey.Some? && Strip(m.orderingKey.value) == "" then r == Err("ordering_key must not be empty when provided")
      else r == Ok(Envelope(m, payload))
    ensures ValidMetadata(m) <==> MakeEnvelope(m, payload).Ok?
  {
    BlankExactlyWhen(m.messageId);
    BlankExactlyWhen(m.eventType);
    if m.orderingKey.Some? {
      BlankExactlyWhen(m.orderingKey.value);
    }
  }

  /** A receiver's parse of a message gives back what the sender's outbox row described. */
  predicate Recovers(e: Envelope, r: Result<Envelope>) {
    && r.Ok?
    && r.value.metadata.messageId == e.metadata.messageId
    && r.value.metadata.eventType == e.metadata.eventType
    && r.value.metadata.messageKey == e.metadata.messageKey
    && r.value.metadata.orderingKey == e.metadata.orderingKey
    && r.value.metadata.correlationId == e.metadata.correlationId
    && r.value.payload == e.payload
  }
}
