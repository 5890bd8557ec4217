/**
 What one pass over the tokens of an ESMP document yields: the readings in the order they
 are produced, and how the pass ends. Batching and storing are elsewhere; this is the
 specification the imperative parser is proved against.
 */
module EsmpStream {
  import opened Wrappers
  import opened Errors
  import opened Xml
  import opened Consumption
  import opened Interval

  const MAX_READINGS: nat := 5_000_000

  /** The lexical conversions, which stay abstract: RFC 3339 instants, integers, floats. */
  datatype Lexis = Lexis(
    rfc3339: string -> Option<int>,
    integer: string -> Option<int64>,
    float: string -> Option<Value>)

  /** What a TimeSeries tells its Periods. */
  datatype Context = Context(meter: string, businessType: string, unit: string)

  datatype SeriesState = SeriesState(
    mrid: string, businessType: string, unit: string, meter: string, periodSeen: bool)

  const SERIES_START := SeriesState("", "", "", "", false)

  datatype PeriodState = PeriodState(start: Option<int>, resolution: Option<int>, pointSeen: bool)

  const PERIOD_START := PeriodState(None, None, false)

  datatype Point = Point(position: int64, quantity: Value, quality: string)

  datatype Ending = Done(rest: seq<Token>) | Failed(error: Error)

  datatype Run = Run(produced: seq<Reading>, end: Ending) {
    function After(before: seq<Reading>): Run {
      Run(before + produced, end)
    }

    function Error(): Option<Error> {
      if end.Failed? then Some(end.error) else None
    }
  }

  function Fail(e: Error): Run {
    Run([], Failed(e))
  }

  predicate IsScalar(local: Tag) {
    local.MridTag? || local.BusinessTypeTag? || local.UnitTag? || local.MarketPointTag?
  }

  predicate IsSetting(local: Tag) {
    local.IntervalTag? || local.ResolutionTag?
  }

  /** Minute-precision instants get the seconds RFC 3339 requires. */
  function Normalise(s: string): string {
    if |s| == |"2006-01-02T15:04Z"| && s[|s| - 1] == 'Z' then s[..|s| - 1] + ":00Z" else s
  }

  function Instant(lex: Lexis, interval: seq<Node>): Option<int> {
    lex.rfc3339(Normalise(Field(interval, StartTag)))
  }

  function Quality(code: string): string {
    match code
    case "A02" => QUALITY_MISSING
    case "A03" => QUALITY_ESTIMATED
    case _ => QUALITY_MEASURED
  }

  function Direction(businessType: string): string {
    if businessType == "A01" then DIRECTION_PRODUCTION else DIRECTION_CONSUMPTION
  }

  /** Every position and quantity must convert; the last of each counts, absent ones are zero. */
  function DecodePoint(lex: Lexis, kids: seq<Node>): Option<Point> {
    if !Converts(kids, PositionTag, lex.integer) || !Converts(kids, QuantityTag, lex.float) then None
    else
      var position := match Last(kids, PositionTag)
                      case Some(inner) =>
                        (LastConverts(kids, PositionTag, lex.integer);
                         lex.integer(TextOf(inner)).value)
                      case None => 0;
      var quantity := match Last(kids, QuantityTag)
                      case Some(inner) => (LastConverts(kids, QuantityTag, lex.float); lex.float(TextOf(inner)).value)
                      case None => Finite(0.0);
      Some(Point(position, quantity, Field(kids, QualityTag)))
  }

  lemma LastConverts<T>(kids: seq<Node>, local: Tag, parse: string -> Option<T>)
    requires Converts(kids, local, parse) && Last(kids, local).Some?
    ensures parse(TextOf(Last(kids, local).value)).Some?
  {
    LastIsAChild(kids, local);
  }

  /** requirePointContext: what the first Point of a Period needs to be known already. */
  predicate Known(c: Context, s: PeriodState) {
    c.meter != "" && c.unit != "" && s.start.Some? && s.resolution.Some?
  }

  function PointReading(c: Context, s: PeriodState, p: Point): Option<Reading>
    requires Known(c, s)
  {
    match IntervalStart(s.start.value, p.position, s.resolution.value)
    case None => None
    case Some(start) =>
      Some(Reading(c.meter, start, s.resolution.value, p.quantity, c.unit,
                   Quality(p.quality), Direction(c.businessType), MEASURE_GROSS, "", ZERO_TIME))
  }

  /** Reads one timeInterval or resolution child into the state. */
  function Setting(lex: Lexis, local: Tag, kids: seq<Node>, s: PeriodState): (r: Option<PeriodState>)
    requires IsSetting(local)
    ensures r.Some? ==> r.value.pointSeen == s.pointSeen
  {
    if local == IntervalTag then
      match Instant(lex, kids) case Some(t) => Some(s.(start := Some(t))) case None => None
    else
      match ParseResolution(TextOf(kids)) case Some(d) => Some(s.(resolution := Some(d))) case None => None
  }

  /** parsePeriod from the token after the start tag of `self`, with `room` readings left under the cap. */
  function Period(lex: Lexis, toks: seq<Token>, self: Name, c: Context, s: PeriodState, room: nat): (r: Run)
    requires s.pointSeen ==> Known(c, s)
    ensures r.end.Done? ==> |r.end.rest| < |toks|
    ensures |r.produced| <= room
    decreases |toks|
  {
    if toks == [] then Fail(MALFORMED_BY)
    else match toks[0]
         case Data(_) => Period(lex, toks[1..], self, c, s, room)
         case End(n) => if n == self then Run([], Done(toks[1..])) else Fail(MALFORMED_BY)
         case Start(n) =>
           if IsSetting(n.local) && s.pointSeen then Fail(MALFORMED)
           else if n.local == PointTag && !s.pointSeen && !Known(c, s) then Fail(MALFORMED)
           else match Content(toks[1..], n)
                case None => Fail(MALFORMED_BY)
                case Some(el) =>
                  if IsSetting(n.local) then
                    match Setting(lex, n.local, el.kids, s)
                    case None => Fail(SettingError(n.local))
                    case Some(s') => Period(lex, el.rest, self, c, s', room)
                  else if n.local == PointTag then
                    match DecodePoint(lex, el.kids)
                    case None => Fail(MALFORMED_BY)
                    case Some(p) =>
                      match PointReading(c, s, p)
                      case None => Fail(MALFORMED)
                      case Some(r) =>
                        if room == 0 then Fail(MALFORMED)
                        else Period(lex, el.rest, self, c, s.(pointSeen := true), room - 1).After([r])
                  else Period(lex, el.rest, self, c, s, room)
  }

  function SettingError(local: Tag): Error {
    if local == IntervalTag then MALFORMED_BY else MALFORMED
  }

  function Scalar(local: Tag, kids: seq<Node>, s: SeriesState): (r: SeriesState)
    requires IsScalar(local)
    ensures r.periodSeen == s.periodSeen
  {
    match local
    case MridTag => s.(mrid := TextOf(kids))
    case BusinessTypeTag => s.(businessType := TextOf(kids))
    case UnitTag => s.(unit := TextOf(kids))
    case _ => s.(meter := Field(kids, MridTag))
  }

  /** What a Period sees: the series mRID stands in for a missing metering point. */
  function ContextOf(s: SeriesState): Context {
    Context(if s.meter == "" then s.mrid else s.meter, s.businessType, s.unit)
  }

  /** parseTimeSeries from the token after the start tag of `self`. */
  function Series(lex: Lexis, toks: seq<Token>, self: Name, s: SeriesState, room: nat): (r: Run)
    ensures r.end.Done? ==> |r.end.rest| < |toks|
    ensures |r.produced| <= room
    decreases |toks|
  {
    if toks == [] then Fail(MALFORMED_BY)
    else match toks[0]
         case Data(_) => Series(lex, toks[1..], self, s, room)
         case End(n) => if n == self then Run([], Done(toks[1..])) else Fail(MALFORMED_BY)
         case Start(n) =>
           if IsScalar(n.local) && s.periodSeen then Fail(MALFORMED)
           else if n.local == PeriodTag then
             var p := Period(lex, toks[1..], n, ContextOf(s), PERIOD_START, room);
             if p.end.Failed? then p
             else Series(lex, p.end.rest, self, s.(periodSeen := true), room - |p.produced|).After(p.produced)
           else match Content(toks[1..], n)
                case None => Fail(MALFORMED_BY)
                case Some(el) =>
                  Series(lex, el.rest, self, if IsScalar(n.local) then Scalar(n.local, el.kids, s) else s, room)
  }

  /**
   streamDocument, inside the root element. Other elements are entered, not skipped, so a
   TimeSeries counts wherever it stands; the first end tag called like the root ends the
   document. `cancelled(k)` says whether the context is done at the check made with k tokens
   left: k falls at every check, so this covers every moment of cancellation.
   */
  function Document(lex: Lexis, toks: seq<Token>, open: seq<Name>, root: Tag,
                    cancelled: nat -> bool, room: nat): (r: Run)
    ensures |r.produced| <= room
    decreases |toks|
  {
    if cancelled(|toks|) then Fail(CANCELLED)
    else if toks == [] then Fail(MALFORMED_BY)
    else match toks[0]
         case Data(_) => Document(lex, toks[1..], open, root, cancelled, room)
         case End(n) =>
           if open == [] || open[|open| - 1] != n then Fail(MALFORMED_BY)
           else if n.local == root then Run([], Done(toks[1..]))
           else Document(lex, toks[1..], open[..|open| - 1], root, cancelled, room)
         case Start(n) =>
           if n.local != TimeSeriesTag then Document(lex, toks[1..], open + [n], root, cancelled, room)
           else
             var p := Series(lex, toks[1..], n, SERIES_START, room);
             if p.end.Failed? then p
             else Document(lex, p.end.rest, open, root, cancelled, room - |p.produced|).After(p.produced)
  }
}
