/** The canonical reading and its domain rules. Instants are nanoseconds since the Unix epoch. */
module Consumption {
  import opened Wrappers
  import opened Errors

  // A float64 seen only through what the pipeline asks of it: whether it is finite.
  datatype Value = Finite(amount: real) | Infinite(negative: bool) | NotANumber

  datatype Reading = Reading(
    meter: string, start: int, resolution: int, value: Value, unit: string,
    quality: string, direction: string, measure: string, sourceId: string, ingestedAt: int)

  datatype Message = Message(id: string, payload: seq<nat>)

  const SECOND: int := 1_000_000_000
  const ZERO_TIME: int := -62_135_596_800 * SECOND  // January 1, year 1

  const QUALITY_MEASURED := "measured"
  const QUALITY_ESTIMATED := "estimated"
  const QUALITY_MISSING := "missing"
  const DIRECTION_CONSUMPTION := "consumption"
  const DIRECTION_PRODUCTION := "production"
  const MEASURE_GROSS := "gross"

  predicate IsSpace(c: char) {
    || c in "\t\n\r \U{0B}\U{0C}\U{85}\U{A0}\U{1680}\U{2028}\U{2029}\U{202F}\U{205F}\U{3000}"
    || '\U{2000}' <= c <= '\U{200A}'
  }

  /** strings.TrimSpace leaves nothing. */
  predicate Blank(s: string) {
    forall c :: c in s ==> IsSpace(c)
  }

  datatype Rule = BlankMeter | ZeroStart | BadResolution | NotFinite | BlankUnit | BlankMeasure

  /** The first rule a reading breaks, in the order they are tried. */
  function Broken(r: Reading): Option<Rule> {
    if Blank(r.meter) then Some(BlankMeter)
    else if r.start == ZERO_TIME then Some(ZeroStart)
    else if r.resolution <= 0 then Some(BadResolution)
    else if !r.value.Finite? then Some(NotFinite)
    else if r.unit == "" then Some(BlankUnit)
    else if r.measure == "" then Some(BlankMeasure)
    else None
  }

  predicate Valid(r: Reading) {
    Broken(r) == None
  }

  /** Go's white space, by code point. */
  lemma SpacesAre(c: char)
    ensures IsSpace(c)
            <==> || 9 <= c as int <= 13 || c as int == 32 || c as int == 0x85 || c as int == 0xA0
                 || c as int == 0x1680 || 0x2000 <= c as int <= 0x200A || c as int == 0x2028 || c as int == 0x2029
                 || c as int == 0x202F || c as int == 0x205F || c as int == 0x3000
  {
  }

  /** A reading is valid exactly when none of the six rules is broken; January 1 of year 1 is the zero instant. */
  lemma ValidExactly(r: Reading)
    ensures Validate(r).None?
            <==> && (exists c :: c in r.meter && !IsSpace(c)) && r.start != -62_135_596_800_000_000_000
                 && r.resolution > 0 && r.value.Finite? && r.unit != "" && r.measure != ""
    ensures Validate(r).Some? ==> Mark(InvalidReading) in Leaves(Validate(r).value)
  {
    hide IsSpace;
    FixedClasses();
    IsALeaf(INVALID_READING, InvalidReading);
  }

  function Validate(r: Reading): Option<Error> {
    if Valid(r) then None else Some(INVALID_READING)
  }
}
