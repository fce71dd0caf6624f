/** Timestamps on their way to a MySQL `DATETIME` column and back: src/pactix/_dialect.py. */
module Datetimes {
  import opened Wrappers

  /** A Python `datetime`: wall-clock microseconds, and the UTC offset when it is aware. */
  datatype DateTime = DateTime(wall: int, offset: Option<int>)

  predicate Aware(d: DateTime) {
    d.offset.Some?
  }

  /** `value.astimezone(UTC).replace(tzinfo=None)` */
  function NaiveUtc(d: DateTime): DateTime
    requires Aware(d)
  {
    DateTime(d.wall - d.offset.value, None)
  }

  function AwareUtc(d: DateTime): DateTime {
    if Aware(d) then d else DateTime(d.wall, Some(0))
  }

  type Columns = map<string, Option<DateTime>>

  const DATETIME_COLUMNS: seq<string> := ["available_at", "lease_until", "created_at", "updated_at", "published_at"]

  function Stripped(d: Option<DateTime>): Option<DateTime>
    requires d.Some? ==> Aware(d.value)
  {
    if d.Some? then Some(NaiveUtc(d.value)) else None
  }

  ghost predicate WellTyped(values: Columns) {
    forall k :: k in DATETIME_COLUMNS ==> k in values && (values[k].Some? ==> Aware(values[k].value))
  }

  /** `_record_values` for MySQL: every datetime column that is set is stripped in place, nothing else changes. */
  method StripColumns(values: Columns) returns (out: Columns)
    requires WellTyped(values)
    ensures out.Keys == values.Keys
    ensures forall k :: k in values ==>
      if k in {"available_at", "lease_until", "created_at", "updated_at", "published_at"} && values[k].Some?
      then out[k] == Some(DateTime(values[k].value.wall - values[k].value.offset.value, None))
      else out[k] == values[k]
  {
    out := values;
    for i := 0 to |DATETIME_COLUMNS|
      invariant out.Keys == values.Keys
      invariant forall k :: k in values ==> out[k] == if k in DATETIME_COLUMNS[..i] then Stripped(values[k]) else values[k]
    {
      var key := DATETIME_COLUMNS[i];
      assert key !in DATETIME_COLUMNS[..i];
      var value := out[key];
      if value.Some? {
        out := out[key := Some(NaiveUtc(value.value))];
      }
      assert DATETIME_COLUMNS[..i + 1] == DATETIME_COLUMNS[..i] + [key];
    }
    assert DATETIME_COLUMNS[..|DATETIME_COLUMNS|] == DATETIME_COLUMNS;
  }

  /**
   * A timestamp survives storage: reading back what was written denotes the same instant, and
   * is the very same value when it was in UTC, as all of the library's own timestamps are.
   */
  lemma StorageRoundTrip(d: DateTime)
    requires Aware(d)
    ensures var back := AwareUtc(NaiveUtc(d)); back.offset == Some(0) && back.wall == d.wall - d.offset.value
    ensures AwareUtc(NaiveUtc(d)) == d <==> d.offset == Some(0)
    ensures AwareUtc(d) == d
  {
  }

  /** Every comparison MySQL makes between stored timestamps comes out as PostgreSQL's on the aware ones. */
  lemma ComparisonsAgree(a: DateTime, b: DateTime)
    requires Aware(a) && Aware(b)
    ensures NaiveUtc(a).wall < NaiveUtc(b).wall <==> a.wall - a.offset.value < b.wall - b.offset.value
  {
  }
}
