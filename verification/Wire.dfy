/** A reading as it goes to the table: microsecond timestamps, resolution in seconds. */
module Wire {
  import opened Consumption
  import opened Interval

  datatype Row = Row(
    meter: string, start: int, resolution: int, value: Value, unit: string,
    quality: string, direction: string, measure: string, sourceId: string, ingestedAt: int)

  /** UnixMicro: seconds times a million plus the truncated nanosecond of the second, so it floors. */
  function UnixMicro(t: int): int {
    (t / 1_000_000_000) * 1_000_000 + (t % 1_000_000_000) / 1000
  }

  /** Go's integer division truncates towards zero. */
  function Truncate(a: int, b: int): int
    requires b > 0
  {
    if a >= 0 then a / b else -((-a) / b)
  }

  function ToRow(r: Reading): Row {
    Row(r.meter, UnixMicro(r.start), Truncate(r.resolution, SECOND), r.value, r.unit,
        r.quality, r.direction, r.measure, r.sourceId, UnixMicro(r.ingestedAt))
  }

  /** What can be read back from a row. */
  function FromRow(w: Row): Reading {
    Reading(w.meter, w.start * 1000, w.resolution * SECOND, w.value, w.unit,
            w.quality, w.direction, w.measure, w.sourceId, w.ingestedAt * 1000)
  }

  lemma Thousandths(k: int, r: int)
    requires 0 <= r < 1000
    ensures (k * 1000 + r) % 1000 == r
  {
  }

  lemma MicroFloors(t: int)
    ensures UnixMicro(t) * 1000 == t - t % 1000
    ensures UnixMicro(t) * 1000 <= t < (UnixMicro(t) + 1) * 1000
  {
    var q, n := t / 1_000_000_000, t % 1_000_000_000;
    var m, r := n / 1000, n % 1000;
    var k := q * 1_000_000 + m;
    assert t == k * 1000 + r;
    Thousandths(k, r);
  }

  lemma MicroKeepsOrder(a: int, b: int)
    requires a <= b
    ensures UnixMicro(a) <= UnixMicro(b)
    ensures b - a >= 1000 ==> UnixMicro(a) < UnixMicro(b)
  {
    MicroFloors(a);
    MicroFloors(b);
  }

  /** The row gives the reading back, but for what its two timestamps hold below the microsecond. */
  lemma RoundTrip(r: Reading)
    requires r.resolution % SECOND == 0 && r.resolution > 0
    ensures var back := FromRow(ToRow(r));
            && back == r.(start := r.start - r.start % 1000, ingestedAt := r.ingestedAt - r.ingestedAt % 1000)
            && (back == r <==> r.start % 1000 == 0 && r.ingestedAt % 1000 == 0)
  {
    MicroFloors(r.start);
    MicroFloors(r.ingestedAt);
    assert r.resolution == (r.resolution / SECOND) * SECOND;
  }

  /** The columns, one by one: times in whole microseconds and the resolution in whole seconds, rounded down. */
  lemma RowColumns(r: Reading)
    requires r.resolution >= 0
    ensures var w := ToRow(r);
            && w.meter == r.meter && w.value == r.value && w.unit == r.unit && w.quality == r.quality
            && w.direction == r.direction && w.measure == r.measure && w.sourceId == r.sourceId
            && w.start * 1000 <= r.start < (w.start + 1) * 1000
            && w.ingestedAt * 1000 <= r.ingestedAt < (w.ingestedAt + 1) * 1000
            && w.resolution * 1_000_000_000 <= r.resolution < (w.resolution + 1) * 1_000_000_000
  {
    MicroFloors(r.start);
    MicroFloors(r.ingestedAt);
  }

  /** Within the exact bound two positions of one Period never get the same start in the table. */
  lemma PositionsStayApart(start: int, p: int64, q: int64, text: string)
    requires ParseResolution(text).Some? && 1 <= p < q
    requires q - 1 <= MAX_INT64 / ParseResolution(text).value
    ensures UnixMicro(IntervalStart(start, p, ParseResolution(text).value).value)
            < UnixMicro(IntervalStart(start, q, ParseResolution(text).value).value)
  {
    var d := ParseResolution(text).value;
    ResolutionIsWholeSeconds(text);
    PositionsTile(start, p, q, d);
    MicroKeepsOrder(IntervalStart(start, p, d).value, IntervalStart(start, q, d).value);
  }

  /** Whole resolutions are multiples of 2048 nanoseconds, and so are all offsets, wrapped or not. */
  lemma OffsetsAreCoarse(text: string, k: int)
    requires ParseResolution(text).Some?
    ensures Wrap64(k * ParseResolution(text).value) % 2048 == 0
  {
    var d := ParseResolution(text).value;
    ResolutionIsCoarse(text);
    var n := k * (d / 2048);
    assert k * d == n * 2048 by { Scaled(k, d / 2048, d); }
    var q := (n * 2048 + MAX_INT64 + 1) / TWO_64;
    assert Wrap64(n * 2048) == n * 2048 - q * TWO_64;
    assert n * 2048 - q * TWO_64 == (n - q * 0x20_0000_0000_0000) * 2048;
  }

  lemma Scaled(k: int, e: int, d: int)
    requires d == e * 2048
    ensures k * d == k * e * 2048
  {
  }

  lemma ResolutionIsCoarse(text: string)
    requires ParseResolution(text).Some?
    ensures ParseResolution(text).value == (ParseResolution(text).value / 2048) * 2048
  {
    assert {15 * MINUTE, 30 * MINUTE, HOUR, 24 * HOUR, 7 * 24 * HOUR} >= {ParseResolution(text).value};
  }

  /** Two positions of a Period share a start in the table exactly when their offsets differ by a multiple of 2^64. */
  lemma RowsShareStart(start: int, p: int64, q: int64, text: string)
    requires ParseResolution(text).Some? && p >= 1 && q >= 1
    ensures var d := ParseResolution(text).value;
            UnixMicro(IntervalStart(start, p, d).value) == UnixMicro(IntervalStart(start, q, d).value)
            <==> ((q - 1) * d - (p - 1) * d) % TWO_64 == 0
  {
    var d := ParseResolution(text).value;
    StartsShared(start, p, q, d);
    OffsetsAreCoarse(text, p - 1);
    OffsetsAreCoarse(text, q - 1);
    var a, b := IntervalStart(start, p, d).value, IntervalStart(start, q, d).value;
    if a < b {
      assert b - a >= 1000 by { FarApart(Wrap64((p - 1) * d), Wrap64((q - 1) * d)); }
      MicroKeepsOrder(a, b);
    } else if b < a {
      assert a - b >= 1000 by { FarApart(Wrap64((q - 1) * d), Wrap64((p - 1) * d)); }
      MicroKeepsOrder(b, a);
    }
  }

  lemma FarApart(a: int, b: int)
    requires a < b && a % 2048 == 0 && b % 2048 == 0
    ensures b - a >= 2048
  {
  }

  /** Such positions, at quarter hours: the first and the one 2^53 further. */
  lemma RowsCanShareStart(start: int)
    ensures ParseResolution("PT15M").Some?
    ensures var d := ParseResolution("PT15M").value;
            UnixMicro(IntervalStart(start, 1, d).value) == UnixMicro(IntervalStart(start, 0x20_0000_0000_0001, d).value)
  {
    QuarterHour();
    RowsShareStart(start, 1, 0x20_0000_0000_0001, "PT15M");
  }
}
