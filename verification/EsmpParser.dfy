/** The ESMP parser as it runs: token loops over one reused buffer that is flushed as it fills. */
module EsmpParser {
  import opened Wrappers
  import opened Errors
  import opened Xml
  import opened Consumption
  import opened Interval
  import opened EsmpStream
  import opened Batching
  import opened Service

  const DEFAULT_BATCH_ROWS: nat := 5000

  type BatchRows = n: nat | n >= 1 witness 1

  datatype Esmp = Esmp(batchRows: BatchRows)

  /** A size that is not positive falls back to the default. */
  function NewEsmp(batchRows: int): (p: Esmp)
    ensures batchRows >= 1 ==> p.batchRows == batchRows
    ensures batchRows <= 0 ==> p.batchRows == 5000
  {
    Esmp(if batchRows <= 0 then DEFAULT_BATCH_ROWS else batchRows)
  }

  /** The batch, its flush closure and the document-wide count. */
  class Buffer {
    const rows: nat
    const data: array<Reading>
    const emitter: Emitter
    var len: nat
    var total: nat
    ghost var state: State   // the abstract state of the attempt

    constructor (rows: nat, emitter: Emitter)
      requires rows >= 1 && emitter.Valid() && emitter.err.None? && emitter.stored == 0 && emitter.writes == []
      ensures this.rows == rows && this.emitter == emitter && fresh(data)
      ensures Live() && total == 0 && state == EMPTY
    {
      this.rows, this.emitter, len, total := rows, emitter, 0, 0;
      data := new Reading[rows](i => Reading("", ZERO_TIME, 0, Finite(0.0), "", "", "", "", "", ZERO_TIME));
      state := EMPTY;
    }

    ghost predicate Valid()
      reads this, data, emitter, emitter.sink
    {
      && rows >= 1 && data.Length == rows && emitter.Valid() && len <= rows
      && state == State(if emitter.err.Some? then [] else data[..len], emitter.writes, emitter.stored, emitter.err)
    }

    /** Nothing has failed: there is room for a reading, and the count is what was stored and what is held. */
    ghost predicate Live()
      reads this, data, emitter, emitter.sink
    {
      && Valid() && state.err.None? && len < rows
      && total == state.stored + len && total <= MAX_READINGS
    }

    /** Emits what is buffered and starts over on the same array. */
    method Flush() returns (err: Option<Error>)
      requires Valid() && state.err.None?
      modifies this, data, emitter, emitter.sink
      ensures Valid() && state == Batching.Flush(emitter.env, old(state))
      ensures err == state.err && total == old(total)
      ensures err.None? ==> len == 0 && state.stored == old(state.stored) + old(len)
    {
      if len == 0 {
        return None;
      }
      err := emitter.Emit(data, len);
      state := Batching.Flush(emitter.env, state);
      if err.None? {
        len := 0;
      }
    }
  }

  /** Turns one decoded Point into a reading, flushing the batch once it reaches its size. */
  method AppendPoint(p: Point, c: Context, s: PeriodState, b: Buffer) returns (err: Option<Error>)
    requires b.Live() && Known(c, s)
    modifies b, b.data, b.emitter, b.emitter.sink
    ensures b.Valid() && (err.None? ==> b.Live())
    ensures var r := PointReading(c, s, p);
            if r.None? || old(b.total) == MAX_READINGS
            then err == Some(MALFORMED) && b.state == old(b.state)
            else && b.state == Push(b.emitter.env, b.rows, old(b.state), r.value)
                 && err == b.state.err && (err.None? ==> b.total == old(b.total) + 1)
  {
    var start := IntervalStart(s.start.value, p.position, s.resolution.value);
    if start.None? {
      return Some(MALFORMED);
    }
    b.total := b.total + 1;
    if b.total > MAX_READINGS {
      return Some(MALFORMED);
    }
    ghost var r := PointReading(c, s, p).value;
    b.data[b.len] := Reading(c.meter, start.value, s.resolution.value, p.quantity, c.unit,
                             Quality(p.quality), Direction(c.businessType), MEASURE_GROSS, "", ZERO_TIME);
    b.len := b.len + 1;
    b.state := b.state.(pending := b.state.pending + [r]);
    assert b.data[..b.len] == b.state.pending;
    err := None;
    if b.len >= b.rows {
      err := b.Flush();
    }
  }

  /** Pushing what `left` still produces onto `now` is pushing all that `run` produces onto `was`. */
  ghost predicate Midway(e: Env, rows: nat, was: State, run: Run, now: State, left: Run) {
    && PushAll(e, rows, now, left.produced) == PushAll(e, rows, was, run.produced)
    && run.end == left.end
  }

  /** What a method that runs `run` from `was` leaves: every reading pushed, and the first failure. */
  ghost predicate Follows(e: Env, rows: nat, was: State, run: Run, now: State, err: Option<Error>) {
    && now == PushAll(e, rows, was, run.produced)
    && err == if now.err.Some? then now.err else run.Error()
  }

  /** Unless something failed, every reading pushed was stored or is held. */
  lemma {:induction false} PushAllCounts(e: Env, b: nat, st: State, rs: seq<Reading>)
    requires PushAll(e, b, st, rs).err.None?
    ensures st.err.None?
    ensures var next := PushAll(e, b, st, rs);
            next.stored + |next.pending| == st.stored + |st.pending| + |rs|
    decreases |rs|
  {
    if st.err.Some? {
      StoppedIsStopped(e, b, st, rs);
    } else if rs != [] {
      PushAllCounts(e, b, Push(e, b, st, rs[0]), rs[1..]);
    }
  }

  lemma MidwayPush(e: Env, rows: nat, was: State, run: Run, now: State, r: Reading, left: Run)
    requires Midway(e, rows, was, run, now, left.After([r]))
    ensures Midway(e, rows, was, run, Push(e, rows, now, r), left)
    ensures var next := Push(e, rows, now, r); next.err.Some? ==> Follows(e, rows, was, run, next, next.err)
  {
    assert ([r] + left.produced)[1..] == left.produced;
    var next := Push(e, rows, now, r);
    if next.err.Some? { StoppedIsStopped(e, rows, next, left.produced); }
  }

  lemma MidwayAfter(e: Env, rows: nat, was: State, run: Run, now: State, part: Run, left: Run, next: State,
                    err: Option<Error>)
    requires Midway(e, rows, was, run, now, if part.end.Failed? then part else left.After(part.produced))
    requires Follows(e, rows, now, part, next, err)
    ensures err.Some? ==> Follows(e, rows, was, run, next, err)
    ensures err.None? ==> Midway(e, rows, was, run, next, left)
  {
    PushAllAppend(e, rows, now, part.produced, left.produced);
    if next.err.Some? { StoppedIsStopped(e, rows, next, left.produced); }
  }

  /** The Period loop at the start tag of a Point, up to its decoded value. */
  method ReadPoint(lex: Lexis, d: Decoder, name: Name, c: Context, s: PeriodState, ghost self: Name, ghost room: nat)
    returns (point: Option<Point>, err: Error)
    requires s.pointSeen ==> Known(c, s)
    requires d.open != [] && d.open[|d.open| - 1] == name && name.local == PointTag
    modifies d
    ensures var run := Period(lex, [Start(name)] + old(d.toks), self, c, s, room);
            if point.None? then run == Fail(err)
            else
              && Known(c, s) && |d.toks| <= |old(d.toks)| && d.open == old(d.open)[..|old(d.open)| - 1]
              && var r := PointReading(c, s, point.value);
                 run == if r.None? || room == 0 then Fail(MALFORMED)
                        else Period(lex, d.toks, self, c, s.(pointSeen := true), room - 1).After([r.value])
  {
    assert ([Start(name)] + d.toks)[1..] == d.toks;
    if !s.pointSeen {
      if !Known(c, s) {
        return None, MALFORMED;
      }
    }
    var kids := d.Element();
    if kids.None? {
      return None, MALFORMED_BY;
    }
    point, err := DecodePoint(lex, kids.value), MALFORMED_BY;
  }

  /** The Period loop at any other start tag. */
  method ReadOther(lex: Lexis, d: Decoder, name: Name, c: Context, s: PeriodState, ghost self: Name, ghost room: nat)
    returns (next: PeriodState, err: Option<Error>)
    requires s.pointSeen ==> Known(c, s)
    requires d.open != [] && d.open[|d.open| - 1] == name && name.local != PointTag
    modifies d
    ensures var run := Period(lex, [Start(name)] + old(d.toks), self, c, s, room);
            if err.Some? then run == Fail(err.value)
            else
              && (next.pointSeen ==> Known(c, next))
              && |d.toks| <= |old(d.toks)| && d.open == old(d.open)[..|old(d.open)| - 1]
              && run == Period(lex, d.toks, self, c, next, room)
  {
    assert ([Start(name)] + d.toks)[1..] == d.toks;
    next, err := s, None;
    if IsSetting(name.local) && s.pointSeen {
      return next, Some(MALFORMED);
    }
    var kids := d.Element();
    if kids.None? {
      return next, Some(MALFORMED_BY);
    }
    if IsSetting(name.local) {
      var read := Setting(lex, name.local, kids.value, s);
      if read.None? {
        return next, Some(SettingError(name.local));
      }
      next := read.value;
    }
  }

  /** The Period loop at a start tag already read: `left` is what the pass still does from that tag. */
  method PeriodChild(lex: Lexis, d: Decoder, name: Name, c: Context, s: PeriodState, b: Buffer,
                     ghost self: Name, ghost was: State, ghost run: Run, ghost left: Run)
    returns (next: PeriodState, err: Option<Error>)
    requires b.Live() && (s.pointSeen ==> Known(c, s))
    requires d.open != [] && d.open[|d.open| - 1] == name
    requires left == Period(lex, [Start(name)] + d.toks, self, c, s, MAX_READINGS - b.total)
    requires Midway(b.emitter.env, b.rows, was, run, b.state, left)
    modifies d, b, b.data, b.emitter, b.emitter.sink
    ensures b.Valid()
    ensures err.Some? ==> Follows(b.emitter.env, b.rows, was, run, b.state, err)
    ensures err.None? ==>
              && b.Live() && (next.pointSeen ==> Known(c, next))
              && |d.toks| <= |old(d.toks)| && d.open == old(d.open)[..|old(d.open)| - 1]
              && Midway(b.emitter.env, b.rows, was, run, b.state,
                        Period(lex, d.toks, self, c, next, MAX_READINGS - b.total))
  {
    hide Emitter.Valid, Period;
    if name.local != PointTag {
      next, err := ReadOther(lex, d, name, c, s, self, MAX_READINGS - b.total);
      return;
    }
    next := s.(pointSeen := true);
    var point, bad := ReadPoint(lex, d, name, c, s, self, MAX_READINGS - b.total);
    if point.None? {
      return next, Some(bad);
    }
    ghost var now, room := b.state, MAX_READINGS - b.total;
    ghost var r := PointReading(c, s, point.value);
    if r.Some? && room > 0 {
      MidwayPush(b.emitter.env, b.rows, was, run, now, r.value, Period(lex, d.toks, self, c, next, room - 1));
    }
    err := AppendPoint(point.value, c, s, b);
  }

  method ParsePeriod(lex: Lexis, d: Decoder, c: Context, b: Buffer) returns (err: Option<Error>)
    requires b.Live() && d.open != [] && d.open[|d.open| - 1].local == PeriodTag
    modifies d, b, b.data, b.emitter, b.emitter.sink
    ensures b.Valid() && (err.None? ==> b.Live())
    ensures var self, room := old(d.open)[|old(d.open)| - 1], MAX_READINGS - old(b.total);
            var run := Period(lex, old(d.toks), self, c, PERIOD_START, room);
            && Follows(b.emitter.env, b.rows, old(b.state), run, b.state, err)
            && (err.None? ==> d.toks == run.end.rest && d.open == old(d.open)[..|old(d.open)| - 1])
  {
    hide Emitter.Valid, Content, DecodePoint, Setting, PointReading;
    ghost var self := d.open[|d.open| - 1];
    ghost var outer := d.open[..|d.open| - 1];
    ghost var was := b.state;
    ghost var run := Period(lex, d.toks, self, c, PERIOD_START, MAX_READINGS - b.total);
    ghost var left := run;
    var s := PERIOD_START;
    while true
      invariant s.pointSeen ==> Known(c, s)
      invariant b.Live() && d.open == outer + [self]
      invariant left == Period(lex, d.toks, self, c, s, MAX_READINGS - b.total)
      invariant Midway(b.emitter.env, b.rows, was, run, b.state, left)
      decreases |d.toks|
    {
      var tok, _ := d.Token();
      if tok.None? {
        return Some(MALFORMED_BY);
      }
      match tok.value {
        case Data(_) =>
        case End(name) =>
          if name.local == PeriodTag {
            return None;
          }
        case Start(name) =>
          s, err := PeriodChild(lex, d, name, c, s, b, self, was, run, left);
          if err.Some? {
            return err;
          }
      }
      left := Period(lex, d.toks, self, c, s, MAX_READINGS - b.total);
    }
  }

  /** The TimeSeries loop at the start tag of anything but a Period, already read. */
  method ReadScalar(lex: Lexis, d: Decoder, name: Name, s: SeriesState, ghost self: Name, ghost room: nat)
    returns (next: SeriesState, err: Option<Error>)
    requires d.open != [] && d.open[|d.open| - 1] == name && name.local != PeriodTag
    modifies d
    ensures var run := Series(lex, [Start(name)] + old(d.toks), self, s, room);
            if err.Some? then run == Fail(err.value)
            else
              && |d.toks| <= |old(d.toks)| && d.open == old(d.open)[..|old(d.open)| - 1]
              && run == Series(lex, d.toks, self, next, room)
  {
    assert ([Start(name)] + d.toks)[1..] == d.toks;
    next, err := s, None;
    if IsScalar(name.local) && s.periodSeen {
      return next, Some(MALFORMED);
    }
    var kids := d.Element();
    if kids.None? {
      return next, Some(MALFORMED_BY);
    }
    if IsScalar(name.local) {
      next := Scalar(name.local, kids.value, s);
    }
  }

  /** How the TimeSeries loop goes on at the start tag of a Period. */
  lemma SeriesAtPeriodTag(lex: Lexis, toks: seq<Token>, name: Name, self: Name, s: SeriesState, room: nat)
    requires name.local == PeriodTag
    ensures var p := Period(lex, toks, name, ContextOf(s), PERIOD_START, room);
            Series(lex, [Start(name)] + toks, self, s, room)
            == if p.end.Failed? then p
               else Series(lex, p.end.rest, self, s.(periodSeen := true), room - |p.produced|).After(p.produced)
  {
    assert ([Start(name)] + toks)[1..] == toks;
  }

  /** The TimeSeries loop at a start tag already read. */
  method SeriesChild(lex: Lexis, d: Decoder, name: Name, s: SeriesState, b: Buffer,
                     ghost self: Name, ghost was: State, ghost run: Run, ghost left: Run)
    returns (next: SeriesState, err: Option<Error>)
    requires b.Live()
    requires d.open != [] && d.open[|d.open| - 1] == name
    requires left == Series(lex, [Start(name)] + d.toks, self, s, MAX_READINGS - b.total)
    requires Midway(b.emitter.env, b.rows, was, run, b.state, left)
    modifies d, b, b.data, b.emitter, b.emitter.sink
    ensures b.Valid()
    ensures err.Some? ==> Follows(b.emitter.env, b.rows, was, run, b.state, err)
    ensures err.None? ==>
              && b.Live() && |d.toks| <= |old(d.toks)| && d.open == old(d.open)[..|old(d.open)| - 1]
              && Midway(b.emitter.env, b.rows, was, run, b.state,
                        Series(lex, d.toks, self, next, MAX_READINGS - b.total))
  {
    hide Emitter.Valid, Series, Period, Content, ContextOf;
    if name.local != PeriodTag {
      next, err := ReadScalar(lex, d, name, s, self, MAX_READINGS - b.total);
      return;
    }
    next := s.(periodSeen := true);
    ghost var now, room := b.state, MAX_READINGS - b.total;
    ghost var part := Period(lex, d.toks, name, ContextOf(s), PERIOD_START, room);
    SeriesAtPeriodTag(lex, d.toks, name, self, s, room);
    err := ParsePeriod(lex, d, ContextOf(s), b);
    if err.None? {
      PushAllCounts(b.emitter.env, b.rows, now, part.produced);
      MidwayAfter(b.emitter.env, b.rows, was, run, now, part,
                  Series(lex, d.toks, self, next, MAX_READINGS - b.total), b.state, err);
    } else {
      ghost var rest := if part.end.Failed? then part
                        else Series(lex, part.end.rest, self, next, room - |part.produced|);
      MidwayAfter(b.emitter.env, b.rows, was, run, now, part, rest, b.state, err);
    }
  }

  method ParseTimeSeries(lex: Lexis, d: Decoder, b: Buffer) returns (err: Option<Error>)
    requires b.Live() && d.open != [] && d.open[|d.open| - 1].local == TimeSeriesTag
    modifies d, b, b.data, b.emitter, b.emitter.sink
    ensures b.Valid() && (err.None? ==> b.Live())
    ensures var self, room := old(d.open)[|old(d.open)| - 1], MAX_READINGS - old(b.total);
            var run := Series(lex, old(d.toks), self, SERIES_START, room);
            && Follows(b.emitter.env, b.rows, old(b.state), run, b.state, err)
            && (err.None? ==> d.toks == run.end.rest && d.open == old(d.open)[..|old(d.open)| - 1])
  {
    hide Emitter.Valid, Content, Period, Scalar, ContextOf;
    ghost var self := d.open[|d.open| - 1];
    ghost var outer := d.open[..|d.open| - 1];
    ghost var was := b.state;
    ghost var run := Series(lex, d.toks, self, SERIES_START, MAX_READINGS - b.total);
    ghost var left := run;
    var s := SERIES_START;
    while true
      invariant b.Live() && d.open == outer + [self]
      invariant left == Series(lex, d.toks, self, s, MAX_READINGS - b.total)
      invariant Midway(b.emitter.env, b.rows, was, run, b.state, left)
      decreases |d.toks|
    {
      var tok, _ := d.Token();
      if tok.None? {
        return Some(MALFORMED_BY);
      }
      match tok.value {
        case Data(_) =>
        case End(name) =>
          if name.local == TimeSeriesTag {
            return None;
          }
        case Start(name) =>
          s, err := SeriesChild(lex, d, name, s, b, self, was, run, left);
          if err.Some? {
            return err;
          }
      }
      left := Series(lex, d.toks, self, s, MAX_READINGS - b.total);
    }
  }

  lemma DocumentAtSeriesTag(lex: Lexis, toks: seq<Token>, name: Name, open: seq<Name>, root: Tag,
                            cancelled: nat -> bool, room: nat)
    requires name.local == TimeSeriesTag && !cancelled(|toks| + 1)
    ensures var p := Series(lex, toks, name, SERIES_START, room);
            Document(lex, [Start(name)] + toks, open, root, cancelled, room)
            == if p.end.Failed? then p
               else Document(lex, p.end.rest, open, root, cancelled, room - |p.produced|).After(p.produced)
  {
    assert ([Start(name)] + toks)[1..] == toks;
  }

  /** The document loop at the start tag of a TimeSeries already read. */
  method DocumentChild(lex: Lexis, d: Decoder, name: Name, root: Tag, cancelled: nat -> bool, b: Buffer,
                       ghost was: State, ghost run: Run, ghost left: Run)
    returns (err: Option<Error>)
    requires b.Live()
    requires d.open != [] && d.open[|d.open| - 1] == name && name.local == TimeSeriesTag
    requires !cancelled(|d.toks| + 1)
    requires left == Document(lex, [Start(name)] + d.toks, d.open[..|d.open| - 1], root, cancelled,
                              MAX_READINGS - b.total)
    requires Midway(b.emitter.env, b.rows, was, run, b.state, left)
    modifies d, b, b.data, b.emitter, b.emitter.sink
    ensures b.Valid()
    ensures err.Some? ==> Follows(b.emitter.env, b.rows, was, run, b.state, err)
    ensures err.None? ==>
              && b.Live() && |d.toks| <= |old(d.toks)| && d.open == old(d.open)[..|old(d.open)| - 1]
              && Midway(b.emitter.env, b.rows, was, run, b.state,
                        Document(lex, d.toks, d.open, root, cancelled, MAX_READINGS - b.total))
  {
    hide Emitter.Valid, Series, Document;
    ghost var now, room, outer := b.state, MAX_READINGS - b.total, d.open[..|d.open| - 1];
    ghost var part := Series(lex, d.toks, name, SERIES_START, room);
    DocumentAtSeriesTag(lex, d.toks, name, outer, root, cancelled, room);
    err := ParseTimeSeries(lex, d, b);
    if err.None? {
      PushAllCounts(b.emitter.env, b.rows, now, part.produced);
      MidwayAfter(b.emitter.env, b.rows, was, run, now, part,
                  Document(lex, d.toks, d.open, root, cancelled, MAX_READINGS - b.total), b.state, err);
    } else {
      ghost var rest := if part.end.Failed? then part
                        else Document(lex, part.end.rest, outer, root, cancelled, room - |part.produced|);
      MidwayAfter(b.emitter.env, b.rows, was, run, now, part, rest, b.state, err);
    }
  }

  /** One turn of the document loop up to what it does with its token: the context check, then the token. */
  method DocumentToken(lex: Lexis, d: Decoder, root: Tag, cancelled: nat -> bool, ghost room: nat)
    returns (tok: Option<Token>, err: Error)
    modifies d
    ensures var run := Document(lex, old(d.toks), old(d.open), root, cancelled, room);
            if tok.None? then run == Fail(err)
            else
              && |d.toks| + 1 == |old(d.toks)| && !cancelled(|d.toks| + 1)
              && if tok.value.Start? && tok.value.name.local == TimeSeriesTag
                 then && d.open == old(d.open) + [tok.value.name]
                      && run == Document(lex, [tok.value] + d.toks, old(d.open), root, cancelled, room)
                 else if tok.value.End? && tok.value.name.local == root
                 then run == Run([], Done(d.toks))
                 else run == Document(lex, d.toks, d.open, root, cancelled, room)
  {
    hide Series;
    if cancelled(|d.toks|) {
      return None, CANCELLED;
    }
    ghost var toks, open := d.toks, d.open;
    tok, err := d.Token();
    err := MALFORMED_BY;
    if tok.Some? {
      assert toks == [tok.value] + d.toks && toks[1..] == d.toks;
      if tok.value.End? { assert open[..|open| - 1] == d.open; }
    }
  }

  /** streamDocument: one check of the context, then one token, until the root's end tag and the final flush. */
  method StreamDocument(lex: Lexis, d: Decoder, root: Tag, cancelled: nat -> bool, b: Buffer)
    returns (err: Option<Error>)
    requires b.Live()
    modifies d, b, b.data, b.emitter, b.emitter.sink
    ensures b.Valid()
    ensures var run := Document(lex, old(d.toks), old(d.open), root, cancelled, MAX_READINGS - old(b.total));
            && b.state
               == Conclude(b.emitter.env, PushAll(b.emitter.env, b.rows, old(b.state), run.produced), run.end.Done?)
            && err == if b.state.err.Some? then b.state.err else run.Error()
  {
    hide Emitter.Valid, Document, Batching.Flush;
    ghost var was := b.state;
    ghost var run := Document(lex, d.toks, d.open, root, cancelled, MAX_READINGS - b.total);
    while true
      invariant b.Live()
      invariant Midway(b.emitter.env, b.rows, was, run, b.state,
                       Document(lex, d.toks, d.open, root, cancelled, MAX_READINGS - b.total))
      decreases |d.toks|
    {
      ghost var left := Document(lex, d.toks, d.open, root, cancelled, MAX_READINGS - b.total);
      ghost var open := d.open;
      var tok, failure := DocumentToken(lex, d, root, cancelled, MAX_READINGS - b.total);
      if tok.None? {
        return Some(failure);
      }
      if tok.value.Start? && tok.value.name.local == TimeSeriesTag {
        assert d.open[..|d.open| - 1] == open;
        err := DocumentChild(lex, d, tok.value.name, root, cancelled, b, was, run, left);
        if err.Some? {
          return err;
        }
      } else if tok.value.End? && tok.value.name.local == root {
        err := b.Flush();
        return err;
      }
    }
  }

  /** Parse: a fresh buffer over the decoder the registry has already advanced past the root's start tag. */
  method Parse(p: Esmp, lex: Lexis, d: Decoder, root: Name, cancelled: nat -> bool, emitter: Emitter)
    returns (err: Option<Error>)
    requires emitter.Valid() && emitter.err.None? && emitter.stored == 0 && emitter.writes == []
    modifies d, emitter, emitter.sink
    ensures emitter.Valid()
    ensures var run := Document(lex, old(d.toks), old(d.open), root.local, cancelled, MAX_READINGS);
            var out := Conclude(emitter.env, PushAll(emitter.env, p.batchRows, EMPTY, run.produced), run.end.Done?);
            && emitter.writes == out.writes && emitter.stored == out.stored && emitter.err == out.err
            && err == if out.err.Some? then out.err else run.Error()
  {
    hide Emitter.Valid, Document, PushAll, Batching.Flush;
    var b := new Buffer(p.batchRows, emitter);
    err := StreamDocument(lex, d, root.local, cancelled, b);
  }
}
