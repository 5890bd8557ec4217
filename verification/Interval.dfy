/** Where a Point's interval starts: time.Duration arithmetic in int64 nanoseconds. */
module Interval {
  import opened Wrappers
  import opened Consumption

  const MAX_INT64: int := 0x7FFF_FFFF_FFFF_FFFF
  const TWO_64: int := 0x1_0000_0000_0000_0000

  type int64 = x: int | -MAX_INT64 - 1 <= x <= MAX_INT64

  /** Two's complement reduction of an exact product. */
  function Wrap64(x: int): (w: int64)
    ensures -0x8000_0000_0000_0000 <= w <= 0x7FFF_FFFF_FFFF_FFFF && (x - w) % 0x1_0000_0000_0000_0000 == 0
  {
    (x + MAX_INT64 + 1) % TWO_64 - MAX_INT64 - 1
  }

  const MINUTE: int := 60 * SECOND
  const HOUR: int := 60 * MINUTE

  function ParseResolution(s: string): Option<int> {
    match s
    case "PT15M" => Some(15 * MINUTE)
    case "PT30M" => Some(30 * MINUTE)
    case "PT60M" => Some(HOUR)
    case "PT1H" => Some(HOUR)
    case "P1D" => Some(24 * HOUR)
    case "P7D" => Some(7 * 24 * HOUR)
    case _ => None
  }

  lemma QuarterHour()
    ensures ParseResolution("PT15M") == Some(15 * MINUTE)
  {
  }

  lemma ResolutionIsWholeSeconds(s: string)
    requires ParseResolution(s).Some?
    ensures ParseResolution(s).value >= 900 * SECOND && ParseResolution(s).value % SECOND == 0
  {
    assert {15 * MINUTE, 30 * MINUTE, HOUR, 24 * HOUR, 7 * 24 * HOUR} >= {ParseResolution(s).value};
  }

  /** The instant of a 1-based position; the product is what Go's Duration multiplication leaves. */
  function IntervalStart(start: int, position: int64, resolution: int): Option<int> {
    if position < 1 then None else Some(start + Wrap64((position - 1) * resolution))
  }

  /** The start is the intended one exactly up to the last position whose offset fits an int64. */
  lemma IntervalStartExact(start: int, position: int64, resolution: int)
    requires position >= 1 && resolution > 0
    ensures IntervalStart(start, position, resolution) == Some(start + (position - 1) * resolution)
            <==> position - 1 <= MAX_INT64 / resolution
  {
    var offset := (position - 1) * resolution;
    assert offset <= MAX_INT64 <==> position - 1 <= MAX_INT64 / resolution by {
      DivBound(position - 1, resolution, MAX_INT64);
    }
    assert offset >= 0 by { NonNegative(position - 1, resolution); }
  }

  lemma WrapsTogether(a: int, b: int)
    ensures Wrap64(a) == Wrap64(b) <==> (a - b) % TWO_64 == 0
  {
    var m := MAX_INT64 + 1;
    var q, r := (a + m) / TWO_64, (a + m) % TWO_64;
    var p, s := (b + m) / TWO_64, (b + m) % TWO_64;
    assert a - b == (q - p) * TWO_64 + (r - s);
  }

  /** Two positions share a start exactly when their offsets differ by a multiple of 2^64 nanoseconds. */
  lemma StartsShared(start: int, p: int64, q: int64, resolution: int)
    requires p >= 1 && q >= 1
    ensures IntervalStart(start, p, resolution) == IntervalStart(start, q, resolution)
            <==> ((q - 1) * resolution - (p - 1) * resolution) % TWO_64 == 0
  {
    WrapsTogether((q - 1) * resolution, (p - 1) * resolution);
  }

  lemma NonNegative(a: int, b: int)
    requires a >= 0 && b >= 0
    ensures a * b >= 0
  {}

  lemma DivBound(a: int, b: int, m: int)
    requires a >= 0 && b > 0 && m >= 0
    ensures a * b <= m <==> a <= m / b
  {
    var q := m / b;
    assert m == q * b + m % b;
    if a <= q {
      NonNegative(q - a, b);
      assert (q - a) * b == q * b - a * b;
    } else {
      NonNegative(a - q - 1, b);
      assert (a - q - 1) * b == a * b - q * b - b;
    }
  }

  /** Within that bound later positions start no earlier than the previous interval ends; neighbours tile. */
  lemma PositionsTile(start: int, p: int64, q: int64, resolution: int)
    requires 1 <= p < q && resolution > 0 && q - 1 <= MAX_INT64 / resolution
    ensures IntervalStart(start, p, resolution).value + resolution <= IntervalStart(start, q, resolution).value
    ensures q == p + 1 ==>
              IntervalStart(start, p, resolution).value + resolution == IntervalStart(start, q, resolution).value
  {
    IntervalStartExact(start, p, resolution);
    IntervalStartExact(start, q, resolution);
    NonNegative(q - 1 - p, resolution);
    assert (q - 1 - p) * resolution == (q - 1) * resolution - (p - 1) * resolution - resolution;
  }

  /** Every position a document can hold is exact at quarter and half hours. */
  lemma ShortResolutionsExact(start: int, position: int64, text: string)
    requires 1 <= position <= 5_000_000 && text in {"PT15M", "PT30M"}
    ensures IntervalStart(start, position, ParseResolution(text).value)
            == Some(start + (position - 1) * ParseResolution(text).value)
  {
    IntervalStartExact(start, position, ParseResolution(text).value);
  }

  /** At one hour the bound is position 2,562,048: the next interval starts before the period does. */
  lemma HourlyWraps(start: int)
    ensures IntervalStart(start, 2_562_048, HOUR) == Some(start + 2_562_047 * HOUR)
    ensures IntervalStart(start, 2_562_049, HOUR).value < start
  {
  }
}
