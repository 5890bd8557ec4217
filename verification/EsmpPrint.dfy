/**
 Printing a schema-ordered document, in any namespace, with optional elements absent or not and
 unknown subtrees interleaved at every level, down to the text of an element, and the theorems
 that parsing inverts it and that moving a child out of order is rejected.
 */
module EsmpPrint {
  import opened Wrappers
  import opened Errors
  import opened Xml
  import opened Consumption
  import opened Interval
  import opened EsmpStream
  import opened EsmpTree
  import opened EsmpDocument

  // Text, with subtrees around it that carry none themselves.
  datatype TextDoc = TextDoc(text: string, before: seq<Node>, after: seq<Node>)

  // Before item i of a level the printer puts the unknown subtrees noise[i], after the last item the next one.
  datatype PointDoc = PointDoc(
    position: TextDoc, quantity: Option<TextDoc>, quality: Option<TextDoc>, noise: seq<seq<Node>>)
  datatype IntervalDoc = IntervalDoc(start: TextDoc, noise: seq<seq<Node>>)
  datatype PeriodDoc = PeriodDoc(
    interval: IntervalDoc, resolution: TextDoc, points: seq<PointDoc>, noise: seq<seq<Node>>)
  datatype MeterDoc = MeterDoc(mrid: Option<TextDoc>, noise: seq<seq<Node>>)
  datatype SeriesDoc = SeriesDoc(
    mrid: Option<TextDoc>, businessType: Option<TextDoc>, unit: Option<TextDoc>, meter: Option<MeterDoc>,
    periods: seq<PeriodDoc>, noise: seq<seq<Node>>)
  datatype MarketDoc = MarketDoc(space: string, series: seq<SeriesDoc>, noise: seq<seq<Node>>)

  function Weave(items: seq<Node>, noise: seq<seq<Node>>): seq<Node> {
    var before := if noise == [] then [] else noise[0];
    before + if items == [] then [] else [items[0]] + Weave(items[1..], if noise == [] then [] else noise[1..])
  }

  function TextNodes(t: TextDoc): seq<Node> {
    t.before + ([Text(t.text)] + t.after)
  }

  function Leaf(space: string, tag: Tag, t: TextDoc): Node {
    Elem(Name(space, tag), TextNodes(t))
  }

  /** An element that may be absent. */
  function Maybe(space: string, tag: Tag, t: Option<TextDoc>): seq<Node> {
    if t.None? then [] else [Leaf(space, tag, t.value)]
  }

  function PointItems(space: string, p: PointDoc): seq<Node> {
    [Leaf(space, PositionTag, p.position)]
    + (Maybe(space, QuantityTag, p.quantity) + Maybe(space, QualityTag, p.quality))
  }

  function PointNode(space: string, p: PointDoc): Node {
    Elem(Name(space, PointTag), Weave(PointItems(space, p), p.noise))
  }

  function PointNodes(space: string, ps: seq<PointDoc>): seq<Node> {
    if ps == [] then [] else [PointNode(space, ps[0])] + PointNodes(space, ps[1..])
  }

  function IntervalNode(space: string, i: IntervalDoc): Node {
    Elem(Name(space, IntervalTag), Weave([Leaf(space, StartTag, i.start)], i.noise))
  }

  function PeriodItems(space: string, p: PeriodDoc): seq<Node> {
    [IntervalNode(space, p.interval)]
    + ([Leaf(space, ResolutionTag, p.resolution)] + PointNodes(space, p.points))
  }

  function PeriodNode(space: string, p: PeriodDoc): Node {
    Elem(Name(space, PeriodTag), Weave(PeriodItems(space, p), p.noise))
  }

  function PeriodNodes(space: string, ps: seq<PeriodDoc>): seq<Node> {
    if ps == [] then [] else [PeriodNode(space, ps[0])] + PeriodNodes(space, ps[1..])
  }

  function MeterNode(space: string, m: MeterDoc): Node {
    Elem(Name(space, MarketPointTag), Weave(Maybe(space, MridTag, m.mrid), m.noise))
  }

  function MeterNodes(space: string, m: Option<MeterDoc>): seq<Node> {
    if m.None? then [] else [MeterNode(space, m.value)]
  }

  function SeriesItems(space: string, s: SeriesDoc): seq<Node> {
    Maybe(space, MridTag, s.mrid)
    + (Maybe(space, BusinessTypeTag, s.businessType)
       + (Maybe(space, UnitTag, s.unit)
          + (MeterNodes(space, s.meter) + PeriodNodes(space, s.periods))))
  }

  function SeriesNode(space: string, s: SeriesDoc): Node {
    Elem(Name(space, TimeSeriesTag), Weave(SeriesItems(space, s), s.noise))
  }

  function SeriesNodes(space: string, ss: seq<SeriesDoc>): seq<Node> {
    if ss == [] then [] else [SeriesNode(space, ss[0])] + SeriesNodes(space, ss[1..])
  }

  /** The children of the root. */
  function DocumentNodes(d: MarketDoc): seq<Node> {
    Weave(SeriesNodes(d.space, d.series), d.noise)
  }

  // ----- what a printed document means -----

  /** The text of an element, empty when it is absent. */
  function Said(t: Option<TextDoc>): string {
    if t.None? then "" else t.value.text
  }

  function MeterOf(m: Option<MeterDoc>): string {
    if m.None? then "" else Said(m.value.mrid)
  }

  function SeriesContext(s: SeriesDoc): Context {
    Context(if MeterOf(s.meter) == "" then Said(s.mrid) else MeterOf(s.meter), Said(s.businessType), Said(s.unit))
  }

  /** No text of its own. */
  predicate Silent(kids: seq<Node>) {
    forall k :: k in kids && k.Text? ==> k.text == ""
  }

  predicate PrintableText(t: TextDoc) {
    Silent(t.before) && Silent(t.after)
  }

  predicate PrintableMaybe(t: Option<TextDoc>) {
    t.Some? ==> PrintableText(t.value)
  }

  /** No element of that name among the subtrees. */
  predicate Lacks(noise: seq<seq<Node>>, tag: Tag) {
    forall run, k :: run in noise && k in run ==> !IsElem(k, tag)
  }

  /** The six resolutions, in nanoseconds. */
  function LengthOf(text: string): Option<int> {
    if text == "PT15M" then Some(900_000_000_000)
    else if text == "PT30M" then Some(1_800_000_000_000)
    else if text == "PT60M" || text == "PT1H" then Some(3_600_000_000_000)
    else if text == "P1D" then Some(86_400_000_000_000)
    else if text == "P7D" then Some(604_800_000_000_000)
    else None
  }

  /** An instant given to the minute gets its seconds. */
  function WithSeconds(text: string): string {
    if |text| == 17 && text[16] == 'Z' then text[..16] + ":00Z" else text
  }

  function QualityMeant(code: string): string {
    if code == "A02" then "missing" else if code == "A03" then "estimated" else "measured"
  }

  function DirectionMeant(businessType: string): string {
    if businessType == "A01" then "production" else "consumption"
  }

  lemma WordsAgree(text: string)
    ensures Interval.ParseResolution(text) == LengthOf(text)
    ensures Normalise(text) == WithSeconds(text)
    ensures Quality(text) == QualityMeant(text) && Direction(text) == DirectionMeant(text)
    ensures MEASURE_GROSS == "gross" && ZERO_TIME == -62_135_596_800_000_000_000
  {
  }

  predicate PrintablePoint(lex: Lexis, p: PointDoc) {
    && PrintableText(p.position) && PrintableMaybe(p.quantity) && PrintableMaybe(p.quality)
    && lex.integer(p.position.text).Some? && lex.integer(p.position.text).value >= 1
    && (p.quantity.Some? ==> lex.float(p.quantity.value.text).Some?)
    && Lacks(p.noise, PositionTag) && Lacks(p.noise, QuantityTag) && Lacks(p.noise, QualityTag)
  }

  predicate PrintablePeriod(lex: Lexis, c: Context, p: PeriodDoc) {
    && PrintableText(p.interval.start) && Lacks(p.interval.noise, StartTag)
    && lex.rfc3339(WithSeconds(p.interval.start.text)).Some?
    && PrintableText(p.resolution) && LengthOf(p.resolution.text).Some?
    && (forall i :: 0 <= i < |p.points| ==> PrintablePoint(lex, p.points[i]))
    && (p.points != [] ==> c.meter != "" && c.unit != "")
    && (forall run, k :: run in p.noise && k in run ==> !SettingNode(k) && !IsElem(k, PointTag))
  }

  predicate PrintableMeter(m: MeterDoc) {
    PrintableMaybe(m.mrid) && Lacks(m.noise, MridTag)
  }

  predicate PrintableSeries(lex: Lexis, s: SeriesDoc) {
    && PrintableMaybe(s.mrid) && PrintableMaybe(s.businessType) && PrintableMaybe(s.unit)
    && (s.meter.Some? ==> PrintableMeter(s.meter.value))
    && (forall i :: 0 <= i < |s.periods| ==> PrintablePeriod(lex, SeriesContext(s), s.periods[i]))
    && (forall run, k :: run in s.noise && k in run ==> !ScalarNode(k) && !IsElem(k, PeriodTag))
  }

  /** No TimeSeries and no element called like the root, at any depth. */
  predicate Inert(k: Node, root: Tag) {
    k.Elem? ==> !k.name.local.TimeSeriesTag? && k.name.local != root && forall x :: x in k.kids ==> Inert(x, root)
  }

  predicate Printable(lex: Lexis, d: MarketDoc, root: Tag) {
    && (forall i :: 0 <= i < |d.series| ==> PrintableSeries(lex, d.series[i]))
    && (forall run, k :: run in d.noise && k in run ==> Inert(k, root))
  }

  /** An absent quantity is zero. */
  function QuantityOf(lex: Lexis, p: PointDoc): Value
    requires PrintablePoint(lex, p)
  {
    if p.quantity.None? then Finite(0.0) else lex.float(p.quantity.value.text).value
  }

  function PointMean(lex: Lexis, c: Context, start: int, res: int, p: PointDoc): Reading
    requires PrintablePoint(lex, p)
  {
    Reading(c.meter, start + Wrap64((lex.integer(p.position.text).value - 1) * res), res,
            QuantityOf(lex, p), c.unit, QualityMeant(Said(p.quality)), DirectionMeant(c.businessType),
            "gross", "", -62_135_596_800_000_000_000)
  }

  function PointsMean(lex: Lexis, c: Context, start: int, res: int, ps: seq<PointDoc>): seq<Reading>
    requires forall i :: 0 <= i < |ps| ==> PrintablePoint(lex, ps[i])
  {
    if ps == [] then []
    else
      assert PrintablePoint(lex, ps[0]);
      [PointMean(lex, c, start, res, ps[0])] + PointsMean(lex, c, start, res, ps[1..])
  }

  function PeriodMean(lex: Lexis, c: Context, p: PeriodDoc): seq<Reading>
    requires PrintablePeriod(lex, c, p)
  {
    PointsMean(lex, c, lex.rfc3339(WithSeconds(p.interval.start.text)).value, LengthOf(p.resolution.text).value,
               p.points)
  }

  function PeriodsMean(lex: Lexis, c: Context, ps: seq<PeriodDoc>): seq<Reading>
    requires forall i :: 0 <= i < |ps| ==> PrintablePeriod(lex, c, ps[i])
  {
    if ps == [] then []
    else
      assert PrintablePeriod(lex, c, ps[0]);
      PeriodMean(lex, c, ps[0]) + PeriodsMean(lex, c, ps[1..])
  }

  function SeriesMean(lex: Lexis, ss: seq<SeriesDoc>): seq<Reading>
    requires forall i :: 0 <= i < |ss| ==> PrintableSeries(lex, ss[i])
  {
    if ss == [] then []
    else
      assert PrintableSeries(lex, ss[0]);
      PeriodsMean(lex, SeriesContext(ss[0]), ss[0].periods) + SeriesMean(lex, ss[1..])
  }

  // ----- noise is never interpreted -----

  lemma {:induction false} PeriodSkipsRun(lex: Lexis, c: Context, s: PeriodState, run: seq<Node>, ks: seq<Node>)
    requires forall k :: k in run ==> !SettingNode(k) && !IsElem(k, PointTag)
    ensures TreePeriodFrom(lex, c, s, run + ks) == TreePeriodFrom(lex, c, s, ks)
  {
    if run == [] {
      assert run + ks == ks;
    } else {
      assert run + ks == [run[0]] + (run[1..] + ks);
      PeriodSkips(lex, c, s, run[0], run[1..] + ks);
      PeriodSkipsRun(lex, c, s, run[1..], ks);
    }
  }

  lemma {:induction false} PeriodIgnoresNoise(lex: Lexis, c: Context, s: PeriodState, items: seq<Node>,
                                              noise: seq<seq<Node>>)
    requires forall run, k :: run in noise && k in run ==> !SettingNode(k) && !IsElem(k, PointTag)
    ensures TreePeriodFrom(lex, c, s, Weave(items, noise)) == TreePeriodFrom(lex, c, s, items)
    decreases |items|
  {
    var before := if noise == [] then [] else noise[0];
    var left := if noise == [] then [] else noise[1..];
    if items == [] {
      PeriodSkipsRun(lex, c, s, before, []);
      return;
    }
    var k, ks := items[0], items[1..];
    assert items == [k] + ks;
    PeriodSkipsRun(lex, c, s, before, [k] + Weave(ks, left));
    if SettingNode(k) {
      PeriodSets(lex, c, s, k, ks);
      PeriodSets(lex, c, s, k, Weave(ks, left));
      var s' := Setting(lex, k.name.local, k.kids, s);
      if s'.Some? { PeriodIgnoresNoise(lex, c, s'.value, ks, left); }
    } else if IsElem(k, PointTag) {
      PeriodPoints(lex, c, s, k, ks);
      PeriodPoints(lex, c, s, k, Weave(ks, left));
      PeriodIgnoresNoise(lex, c, s.(pointSeen := true), ks, left);
    } else {
      PeriodSkips(lex, c, s, k, ks);
      PeriodSkips(lex, c, s, k, Weave(ks, left));
      PeriodIgnoresNoise(lex, c, s, ks, left);
    }
  }

  lemma {:induction false} SeriesSkipsRun(lex: Lexis, s: SeriesState, run: seq<Node>, ks: seq<Node>)
    requires forall k :: k in run ==> !ScalarNode(k) && !IsElem(k, PeriodTag)
    ensures TreeSeriesFrom(lex, s, run + ks) == TreeSeriesFrom(lex, s, ks)
  {
    if run == [] {
      assert run + ks == ks;
    } else {
      assert run + ks == [run[0]] + (run[1..] + ks);
      SeriesSkips(lex, s, run[0], run[1..] + ks);
      SeriesSkipsRun(lex, s, run[1..], ks);
    }
  }

  lemma {:induction false} SeriesIgnoresNoise(lex: Lexis, s: SeriesState, items: seq<Node>, noise: seq<seq<Node>>)
    requires forall run, k :: run in noise && k in run ==> !ScalarNode(k) && !IsElem(k, PeriodTag)
    ensures TreeSeriesFrom(lex, s, Weave(items, noise)) == TreeSeriesFrom(lex, s, items)
    decreases |items|
  {
    var before := if noise == [] then [] else noise[0];
    var left := if noise == [] then [] else noise[1..];
    if items == [] {
      SeriesSkipsRun(lex, s, before, []);
      return;
    }
    var k, ks := items[0], items[1..];
    assert items == [k] + ks;
    SeriesSkipsRun(lex, s, before, [k] + Weave(ks, left));
    if ScalarNode(k) {
      SeriesSets(lex, s, k, ks);
      SeriesSets(lex, s, k, Weave(ks, left));
      SeriesIgnoresNoise(lex, Scalar(k.name.local, k.kids, s), ks, left);
    } else if IsElem(k, PeriodTag) {
      SeriesPeriods(lex, s, k, ks);
      SeriesPeriods(lex, s, k, Weave(ks, left));
      SeriesIgnoresNoise(lex, s.(periodSeen := true), ks, left);
    } else {
      SeriesSkips(lex, s, k, ks);
      SeriesSkips(lex, s, k, Weave(ks, left));
      SeriesIgnoresNoise(lex, s, ks, left);
    }
  }

  lemma {:induction false} InertMeansNothing(lex: Lexis, kids: seq<Node>, root: Tag)
    requires forall k :: k in kids ==> Inert(k, root)
    ensures TreeDocument(lex, kids) == Some([]) && NoInnerRoot(kids, root)
    decreases kids
  {
    if kids != [] {
      assert kids[0] in kids && Inert(kids[0], root);
      InertMeansNothing(lex, kids[1..], root);
      if kids[0].Elem? { InertMeansNothing(lex, kids[0].kids, root); }
      JoinEmpty(Some([]));
      forall k | k in kids && k.Elem? ensures k.name.local != root && NoInnerRoot(k.kids, root) {
        assert Inert(k, root);
        InertMeansNothing(lex, k.kids, root);
      }
    }
  }

  lemma {:induction false} DocumentIgnoresNoise(lex: Lexis, items: seq<Node>, noise: seq<seq<Node>>, root: Tag)
    requires forall run, k :: run in noise && k in run ==> Inert(k, root)
    requires NoInnerRoot(items, root)
    ensures TreeDocument(lex, Weave(items, noise)) == TreeDocument(lex, items)
    ensures NoInnerRoot(Weave(items, noise), root)
    decreases |items|
  {
    var before := if noise == [] then [] else noise[0];
    var left := if noise == [] then [] else noise[1..];
    InertMeansNothing(lex, before, root);
    if items == [] {
      TreeDocumentAppend(lex, before, []);
      JoinEmpty(Some([]));
    } else {
      var k, ks := items[0], items[1..];
      assert items == [k] + ks;
      var woven := Weave(ks, left);
      DocumentIgnoresNoise(lex, ks, left, root);
      TreeDocumentAppend(lex, before, [k] + woven);
      assert TreeDocument(lex, [k] + woven) == Join(Head(lex, k), TreeDocument(lex, woven)) by {
        assert ([k] + woven)[1..] == woven;
      }
      JoinEmpty(TreeDocument(lex, [k] + woven));
    }
  }

  // ----- parsing inverts printing -----

  lemma {:induction false} SilentIsEmpty(kids: seq<Node>)
    requires Silent(kids)
    ensures TextOf(kids) == ""
  {
    if kids != [] {
      assert kids[0] in kids;
      SilentIsEmpty(kids[1..]);
    }
  }

  lemma {:induction false} TextOfAppend(a: seq<Node>, b: seq<Node>)
    ensures TextOf(a + b) == TextOf(a) + TextOf(b)
  {
    if a == [] {
      assert a + b == b;
    } else {
      assert (a + b)[1..] == a[1..] + b;
      TextOfAppend(a[1..], b);
    }
  }

  lemma LeafText(t: TextDoc)
    requires PrintableText(t)
    ensures TextOf(TextNodes(t)) == t.text
  {
    TextOfAppend(t.before, [Text(t.text)] + t.after);
    TextOfAppend([Text(t.text)], t.after);
    SilentIsEmpty(t.before);
    SilentIsEmpty(t.after);
    assert [Text(t.text)][1..] == [];
  }

  lemma {:induction false} LastSkipsRun(run: seq<Node>, ks: seq<Node>, tag: Tag)
    requires forall k :: k in run ==> !IsElem(k, tag)
    ensures Last(run + ks, tag) == Last(ks, tag)
  {
    if run == [] {
      assert run + ks == ks;
    } else {
      assert run[0] in run && run + ks == [run[0]] + (run[1..] + ks);
      LastCons(run[0], run[1..] + ks, tag);
      LastSkipsRun(run[1..], ks, tag);
    }
  }

  /** Unknown children do not change which child of a name is the last. */
  lemma {:induction false} LastIgnoresNoise(items: seq<Node>, noise: seq<seq<Node>>, tag: Tag)
    requires Lacks(noise, tag)
    ensures Last(Weave(items, noise), tag) == Last(items, tag)
    decreases |items|
  {
    var before := if noise == [] then [] else noise[0];
    var left := if noise == [] then [] else noise[1..];
    if items == [] {
      LastSkipsRun(before, [], tag);
    } else {
      var k, ks := items[0], items[1..];
      assert items == [k] + ks;
      LastSkipsRun(before, [k] + Weave(ks, left), tag);
      LastIgnoresNoise(ks, left, tag);
      LastCons(k, ks, tag);
      LastCons(k, Weave(ks, left), tag);
    }
  }

  /** A child of that name is one of the items. */
  lemma {:induction false} WovenIsItem(items: seq<Node>, noise: seq<seq<Node>>, tag: Tag, k: Node)
    requires Lacks(noise, tag) && k in Weave(items, noise) && IsElem(k, tag)
    ensures k in items
    decreases |items|
  {
    var before := if noise == [] then [] else noise[0];
    assert k !in before;
    if items != [] && k != items[0] {
      WovenIsItem(items[1..], if noise == [] then [] else noise[1..], tag, k);
    }
  }

  lemma LastMaybe(space: string, own: Tag, t: Option<TextDoc>, ks: seq<Node>, tag: Tag)
    ensures Last(Maybe(space, own, t) + ks, tag)
            == if Last(ks, tag).None? && tag == own && t.Some? then Some(TextNodes(t.value)) else Last(ks, tag)
  {
    if t.None? {
      assert Maybe(space, own, t) + ks == ks;
    } else {
      LastCons(Leaf(space, own, t.value), ks, tag);
    }
  }

  lemma FieldIs(kids: seq<Node>, tag: Tag, t: Option<TextDoc>)
    requires PrintableMaybe(t) && Last(kids, tag) == if t.None? then None else Some(TextNodes(t.value))
    ensures Field(kids, tag) == Said(t)
  {
    if t.Some? { LeafText(t.value); }
  }

  lemma PointItemsAre(space: string, p: PointDoc)
    ensures Last(PointItems(space, p), PositionTag) == Some(TextNodes(p.position))
    ensures Last(PointItems(space, p), QuantityTag)
            == if p.quantity.None? then None else Some(TextNodes(p.quantity.value))
    ensures Last(PointItems(space, p), QualityTag)
            == if p.quality.None? then None else Some(TextNodes(p.quality.value))
  {
    var quality := Maybe(space, QualityTag, p.quality);
    assert quality + [] == quality;
    forall tag | tag in {PositionTag, QuantityTag, QualityTag}
      ensures Last(PointItems(space, p), tag)
              == if tag == PositionTag then Some(TextNodes(p.position))
                 else if tag == QuantityTag then
                   if p.quantity.None? then None else Some(TextNodes(p.quantity.value))
                 else
                   if p.quality.None? then None else Some(TextNodes(p.quality.value))
    {
      LastCons(Leaf(space, PositionTag, p.position), Maybe(space, QuantityTag, p.quantity) + quality, tag);
      LastMaybe(space, QuantityTag, p.quantity, quality, tag);
      LastMaybe(space, QualityTag, p.quality, [], tag);
    }
  }

  lemma PointDecodes(lex: Lexis, space: string, p: PointDoc)
    requires PrintablePoint(lex, p)
    ensures DecodePoint(lex, PointNode(space, p).kids)
            == Some(Point(lex.integer(p.position.text).value, QuantityOf(lex, p), Said(p.quality)))
  {
    hide Weave, TextNodes;
    var items := PointItems(space, p);
    var kids := Weave(items, p.noise);
    PointItemsAre(space, p);
    LastIgnoresNoise(items, p.noise, PositionTag);
    LastIgnoresNoise(items, p.noise, QuantityTag);
    LastIgnoresNoise(items, p.noise, QualityTag);
    FieldIs(kids, QualityTag, p.quality);
    LeafText(p.position);
    if p.quantity.Some? { LeafText(p.quantity.value); }
    forall k | k in kids && IsElem(k, PositionTag) ensures lex.integer(TextOf(k.kids)).Some? {
      WovenIsItem(items, p.noise, PositionTag, k);
    }
    forall k | k in kids && IsElem(k, QuantityTag) ensures lex.float(TextOf(k.kids)).Some? {
      WovenIsItem(items, p.noise, QuantityTag, k);
    }
  }

  lemma PointParses(lex: Lexis, c: Context, s: PeriodState, space: string, p: PointDoc)
    requires PrintablePoint(lex, p) && Known(c, s)
    ensures TreePoint(lex, c, s, PointNode(space, p).kids)
            == Some(PointMean(lex, c, s.start.value, s.resolution.value, p))
  {
    hide Weave, DecodePoint, Quality, QualityMeant, Direction, DirectionMeant;
    PointDecodes(lex, space, p);
    WordsAgree(Said(p.quality));
    WordsAgree(c.businessType);
  }

  lemma {:induction false} PointsParse(lex: Lexis, c: Context, s: PeriodState, space: string, ps: seq<PointDoc>)
    requires forall i :: 0 <= i < |ps| ==> PrintablePoint(lex, ps[i])
    requires Known(c, s)
    ensures TreePeriodFrom(lex, c, s, PointNodes(space, ps))
            == Some(PointsMean(lex, c, s.start.value, s.resolution.value, ps))
    decreases |ps|
  {
    hide PrintablePoint, TreePoint;
    if ps != [] {
      PointParses(lex, c, s, space, ps[0]);
      var point := PointNode(space, ps[0]);
      assert PointNodes(space, ps) == [point] + PointNodes(space, ps[1..]);
      PeriodPoints(lex, c, s, point, PointNodes(space, ps[1..]));
      PointsParse(lex, c, s.(pointSeen := true), space, ps[1..]);
    }
  }

  lemma IntervalParses(lex: Lexis, s: PeriodState, space: string, i: IntervalDoc)
    requires PrintableText(i.start) && Lacks(i.noise, StartTag) && lex.rfc3339(WithSeconds(i.start.text)).Some?
    ensures Setting(lex, IntervalTag, IntervalNode(space, i).kids, s)
            == Some(s.(start := lex.rfc3339(WithSeconds(i.start.text))))
  {
    hide Weave, Normalise, WithSeconds, TextNodes;
    WordsAgree(i.start.text);
    var start := Leaf(space, StartTag, i.start);
    LastIgnoresNoise([start], i.noise, StartTag);
    LastCons(start, [], StartTag);
    assert [start] + [] == [start];
    LeafText(i.start);
  }

  lemma PeriodParses(lex: Lexis, c: Context, space: string, p: PeriodDoc)
    requires PrintablePeriod(lex, c, p)
    ensures TreePeriod(lex, c, PeriodNode(space, p).kids) == Some(PeriodMean(lex, c, p))
  {
    hide Weave, WithSeconds, ParseResolution, LengthOf, TextNodes, PrintablePoint;
    WordsAgree(p.resolution.text);
    PeriodIgnoresNoise(lex, c, PERIOD_START, PeriodItems(space, p), p.noise);
    var interval, resolution := IntervalNode(space, p.interval), Leaf(space, ResolutionTag, p.resolution);
    var points := PointNodes(space, p.points);
    IntervalParses(lex, PERIOD_START, space, p.interval);
    LeafText(p.resolution);
    PeriodSets(lex, c, PERIOD_START, interval, [resolution] + points);
    var s := PERIOD_START.(start := lex.rfc3339(WithSeconds(p.interval.start.text)));
    PeriodSets(lex, c, s, resolution, points);
    if p.points != [] { PointsParse(lex, c, s.(resolution := ParseResolution(p.resolution.text)), space, p.points); }
  }

  lemma {:induction false} PeriodsParse(lex: Lexis, s: SeriesState, space: string, ps: seq<PeriodDoc>)
    requires forall i :: 0 <= i < |ps| ==> PrintablePeriod(lex, ContextOf(s), ps[i])
    ensures TreeSeriesFrom(lex, s, PeriodNodes(space, ps)) == Some(PeriodsMean(lex, ContextOf(s), ps))
    decreases |ps|
  {
    hide PrintablePeriod, TreePeriod, PeriodMean;
    if ps != [] {
      PeriodParses(lex, ContextOf(s), space, ps[0]);
      SeriesPeriods(lex, s, PeriodNode(space, ps[0]), PeriodNodes(space, ps[1..]));
      PeriodsParse(lex, s.(periodSeen := true), space, ps[1..]);
    }
  }

  /** A printed scalar leaves its text in the state, an absent one leaves it empty. */
  lemma ScalarParses(lex: Lexis, s: SeriesState, space: string, tag: Tag, t: Option<TextDoc>, ks: seq<Node>)
    requires !s.periodSeen && PrintableMaybe(t)
    ensures tag.MridTag? && s.mrid == "" ==>
              TreeSeriesFrom(lex, s, Maybe(space, tag, t) + ks) == TreeSeriesFrom(lex, s.(mrid := Said(t)), ks)
    ensures tag.BusinessTypeTag? && s.businessType == "" ==>
              TreeSeriesFrom(lex, s, Maybe(space, tag, t) + ks) == TreeSeriesFrom(lex, s.(businessType := Said(t)), ks)
    ensures tag.UnitTag? && s.unit == "" ==>
              TreeSeriesFrom(lex, s, Maybe(space, tag, t) + ks) == TreeSeriesFrom(lex, s.(unit := Said(t)), ks)
  {
    hide TextNodes, TreeSeriesFrom;
    if t.None? {
      assert Maybe(space, tag, t) + ks == ks;
    } else if IsScalar(tag) {
      LeafText(t.value);
      SeriesSets(lex, s, Leaf(space, tag, t.value), ks);
    }
  }

  lemma MeterParses(lex: Lexis, s: SeriesState, space: string, m: Option<MeterDoc>, ks: seq<Node>)
    requires !s.periodSeen && s.meter == "" && (m.Some? ==> PrintableMeter(m.value))
    ensures TreeSeriesFrom(lex, s, MeterNodes(space, m) + ks) == TreeSeriesFrom(lex, s.(meter := MeterOf(m)), ks)
  {
    hide TextNodes, TreeSeriesFrom, Weave;
    if m.None? {
      assert MeterNodes(space, m) + ks == ks;
    } else {
      var items := Maybe(space, MridTag, m.value.mrid);
      LastIgnoresNoise(items, m.value.noise, MridTag);
      LastMaybe(space, MridTag, m.value.mrid, [], MridTag);
      assert items + [] == items;
      FieldIs(MeterNode(space, m.value).kids, MridTag, m.value.mrid);
      SeriesSets(lex, s, MeterNode(space, m.value), ks);
    }
  }

  lemma SeriesParses(lex: Lexis, space: string, s: SeriesDoc)
    requires PrintableSeries(lex, s)
    ensures TreeSeries(lex, SeriesNode(space, s).kids) == Some(PeriodsMean(lex, SeriesContext(s), s.periods))
  {
    hide Weave, Maybe, MeterNodes, PrintablePeriod, TreeSeriesFrom;
    SeriesIgnoresNoise(lex, SERIES_START, SeriesItems(space, s), s.noise);
    var ps := PeriodNodes(space, s.periods);
    var ks3 := MeterNodes(space, s.meter) + ps;
    var ks2 := Maybe(space, UnitTag, s.unit) + ks3;
    var ks1 := Maybe(space, BusinessTypeTag, s.businessType) + ks2;
    var s1 := SERIES_START.(mrid := Said(s.mrid));
    var s2 := s1.(businessType := Said(s.businessType));
    var s3 := s2.(unit := Said(s.unit));
    ScalarParses(lex, SERIES_START, space, MridTag, s.mrid, ks1);
    ScalarParses(lex, s1, space, BusinessTypeTag, s.businessType, ks2);
    ScalarParses(lex, s2, space, UnitTag, s.unit, ks3);
    MeterParses(lex, s3, space, s.meter, ps);
    PeriodsParse(lex, s3.(meter := MeterOf(s.meter)), space, s.periods);
  }

  lemma {:induction false} AllSeriesParse(lex: Lexis, space: string, ss: seq<SeriesDoc>, root: Tag)
    requires forall i :: 0 <= i < |ss| ==> PrintableSeries(lex, ss[i])
    ensures TreeDocument(lex, SeriesNodes(space, ss)) == Some(SeriesMean(lex, ss))
    ensures NoInnerRoot(SeriesNodes(space, ss), root)
    decreases |ss|
  {
    hide PrintableSeries, TreeSeries, PeriodsMean;
    if ss != [] {
      SeriesParses(lex, space, ss[0]);
      AllSeriesParse(lex, space, ss[1..], root);
      assert SeriesNodes(space, ss) == [SeriesNode(space, ss[0])] + SeriesNodes(space, ss[1..]);
    }
  }

  /**
   Print/parse inverse: a printed document within the cap parses back to exactly its readings,
   in order, whatever unknown subtrees were interleaved and whatever follows the root.
   */
  lemma ParseInvertsPrint(lex: Lexis, d: MarketDoc, root: Name, after: seq<Token>, cancelled: nat -> bool, room: nat)
    requires Printable(lex, d, root.local) && |SeriesMean(lex, d.series)| <= room
    requires forall k :: !cancelled(k)
    ensures Document(lex, PrintAll(DocumentNodes(d)) + [End(root)] + after, [root], root.local, cancelled, room)
            == Run(SeriesMean(lex, d.series), Done(after))
  {
    var kids := DocumentNodes(d);
    AllSeriesParse(lex, d.space, d.series, root.local);
    DocumentIgnoresNoise(lex, SeriesNodes(d.space, d.series), d.noise, root.local);
    ContentOfPrint(kids, root, after);
    DocumentEqualsTree(lex, PrintAll(kids) + [End(root)] + after, root, cancelled, room);
  }

  // ----- each printed Point has its reading -----

  /** A printed Point and the business type of its series. */
  datatype Printed = Printed(point: PointDoc, businessType: string)

  function PointsOf(ps: seq<PointDoc>, businessType: string): seq<Printed> {
    if ps == [] then [] else [Printed(ps[0], businessType)] + PointsOf(ps[1..], businessType)
  }

  function PeriodPointsOf(ps: seq<PeriodDoc>, businessType: string): seq<Printed> {
    if ps == [] then [] else PointsOf(ps[0].points, businessType) + PeriodPointsOf(ps[1..], businessType)
  }

  /** All Points of a document, in order. */
  function AllPoints(ss: seq<SeriesDoc>): seq<Printed> {
    if ss == [] then [] else PeriodPointsOf(ss[0].periods, Said(ss[0].businessType)) + AllPoints(ss[1..])
  }

  predicate CodeKept(r: Reading, p: Printed) {
    && r.quality == (if Said(p.point.quality) == "A02" then "missing"
                     else if Said(p.point.quality) == "A03" then "estimated" else "measured")
    && r.direction == (if p.businessType == "A01" then "production" else "consumption")
    && r.measure == "gross"
  }

  /** The k-th reading carries the codes of the k-th Point. */
  predicate CodesKept(rs: seq<Reading>, ps: seq<Printed>) {
    |rs| == |ps| && forall k :: 0 <= k < |rs| ==> CodeKept(rs[k], ps[k])
  }

  lemma CodesJoin(a: seq<Reading>, p: seq<Printed>, b: seq<Reading>, q: seq<Printed>)
    requires CodesKept(a, p) && CodesKept(b, q)
    ensures CodesKept(a + b, p + q)
  {
    hide CodeKept;
  }

  lemma {:induction false} PointsKeepCodes(lex: Lexis, c: Context, start: int, res: int, ps: seq<PointDoc>)
    requires forall i :: 0 <= i < |ps| ==> PrintablePoint(lex, ps[i])
    ensures CodesKept(PointsMean(lex, c, start, res, ps), PointsOf(ps, c.businessType))
  {
    hide PrintablePoint;
    if ps != [] {
      PointsKeepCodes(lex, c, start, res, ps[1..]);
      CodesJoin([PointMean(lex, c, start, res, ps[0])], [Printed(ps[0], c.businessType)],
                PointsMean(lex, c, start, res, ps[1..]), PointsOf(ps[1..], c.businessType));
    }
  }

  lemma {:induction false} PeriodsKeepCodes(lex: Lexis, c: Context, ps: seq<PeriodDoc>)
    requires forall i :: 0 <= i < |ps| ==> PrintablePeriod(lex, c, ps[i])
    ensures CodesKept(PeriodsMean(lex, c, ps), PeriodPointsOf(ps, c.businessType))
  {
    hide CodesKept, PrintablePoint, LengthOf, WithSeconds;
    if ps == [] {
      NoCodes();
    } else {
      var p := ps[0];
      assert PrintablePeriod(lex, c, p);
      PeriodsKeepCodes(lex, c, ps[1..]);
      PointsKeepCodes(lex, c, lex.rfc3339(WithSeconds(p.interval.start.text)).value,
                      LengthOf(p.resolution.text).value, p.points);
      CodesJoin(PeriodMean(lex, c, p), PointsOf(p.points, c.businessType),
                PeriodsMean(lex, c, ps[1..]), PeriodPointsOf(ps[1..], c.businessType));
    }
  }

  lemma NoCodes()
    ensures CodesKept([], [])
  {
  }

  lemma {:induction false} SeriesKeepCodes(lex: Lexis, ss: seq<SeriesDoc>)
    requires forall i :: 0 <= i < |ss| ==> PrintableSeries(lex, ss[i])
    ensures CodesKept(SeriesMean(lex, ss), AllPoints(ss))
  {
    hide CodesKept, PrintablePeriod;
    if ss == [] {
      NoCodes();
    } else {
      var s := ss[0];
      assert PrintableSeries(lex, s);
      SeriesKeepCodes(lex, ss[1..]);
      PeriodsKeepCodes(lex, SeriesContext(s), s.periods);
      CodesJoin(PeriodsMean(lex, SeriesContext(s), s.periods), PeriodPointsOf(s.periods, Said(s.businessType)),
                SeriesMean(lex, ss[1..]), AllPoints(ss[1..]));
    }
  }

  /**
   A parsed document has one reading for each printed Point, in order: "missing" for quality
   A02, "estimated" for A03 and "measured" for any other or none; "production" for business
   type A01 and "consumption" for any other or none.
   */
  lemma ParsedCodes(lex: Lexis, d: MarketDoc, root: Name, after: seq<Token>, cancelled: nat -> bool, room: nat)
    requires Printable(lex, d, root.local) && |AllPoints(d.series)| <= room
    requires forall k :: !cancelled(k)
    ensures var run := Document(lex, PrintAll(DocumentNodes(d)) + [End(root)] + after, [root], root.local,
                                cancelled, room);
            run.end.Done? && CodesKept(run.produced, AllPoints(d.series))
  {
    hide Document, DocumentNodes, AllPoints;
    SeriesKeepCodes(lex, d.series);
    ParseInvertsPrint(lex, d, root, after, cancelled, room);
  }

  // ----- documents that matter -----

  /** Text with nothing around it. */
  function Plainly(text: string): TextDoc {
    TextDoc(text, [], [])
  }

  /** Indentation around every child, and elements the parser does not know. */
  function Indented(space: string): seq<seq<Node>> {
    var line, other := Text("\n  "), Elem(Name(space, OtherTag("end")), [Text("2026-01-01T01:00Z")]);
    [[line], [line], [line, other, line]]
  }

  /** A document of one series with one Period of quarter hours, indented, with an end to the interval. */
  function Simple(space: string, meter: string, start: string, points: seq<PointDoc>): MarketDoc {
    var noise := Indented(space);
    var period := PeriodDoc(IntervalDoc(Plainly(start), noise), Plainly("PT15M"), points, noise);
    var point := MeterDoc(Some(Plainly(meter)), noise);
    var series := SeriesDoc(None, Some(Plainly("A04")), Some(Plainly("KWH")), Some(point), [period], noise);
    MarketDoc(space, [series], noise)
  }

  lemma IndentedIsUnknown(space: string, run: seq<Node>, k: Node)
    requires run in Indented(space) && k in run
    ensures Inert(k, DocumentTag) && (k.Elem? ==> k.name.local.OtherTag?)
  {
    var line, other := Text("\n  "), Elem(Name(space, OtherTag("end")), [Text("2026-01-01T01:00Z")]);
    assert run == [line] || run == [line, other, line];
    assert k == line || k == other;
  }

  lemma IndentedLacks(space: string)
    ensures forall run, k :: run in Indented(space) && k in run ==>
                               Inert(k, DocumentTag) && (k.Elem? ==> k.name.local.OtherTag?)
  {
    forall run, k | run in Indented(space) && k in run
      ensures Inert(k, DocumentTag) && (k.Elem? ==> k.name.local.OtherTag?)
    {
      IndentedIsUnknown(space, run, k);
    }
  }

  lemma SimpleIsPrintable(lex: Lexis, space: string, meter: string, start: string, points: seq<PointDoc>)
    requires meter != "" && lex.rfc3339(WithSeconds(start)).Some?
    requires forall i :: 0 <= i < |points| ==> PrintablePoint(lex, points[i])
    ensures Printable(lex, Simple(space, meter, start, points), DocumentTag)
  {
    hide WithSeconds, Indented, PrintablePoint, Inert;
    IndentedLacks(space);
    var d := Simple(space, meter, start, points);
    var s := d.series[0];
    var c, period := SeriesContext(s), s.periods[0];
    assert c.unit == "KWH" && c.meter == meter;
    assert PrintablePeriod(lex, c, period);
    assert PrintableSeries(lex, s);
  }

  /** The form real documents have is printable: a quality only where it differs. */
  lemma RealFormIsPrintable(lex: Lexis, space: string, start: string)
    requires lex.rfc3339(WithSeconds(start)).Some? && lex.float("10.5").Some? && lex.float("11.0").Some?
    requires lex.integer("1") == Some(1) && lex.integer("2") == Some(2)
    ensures var points := [PointDoc(Plainly("1"), Some(Plainly("10.5")), None, Indented(space)),
                           PointDoc(Plainly("2"), Some(Plainly("11.0")), Some(Plainly("A03")), Indented(space))];
            Printable(lex, Simple(space, "EE-METER-1", start, points), DocumentTag)
  {
    hide WithSeconds, Indented, Printable, Simple;
    IndentedLacks(space);
    var first := PointDoc(Plainly("1"), Some(Plainly("10.5")), None, Indented(space));
    var second := PointDoc(Plainly("2"), Some(Plainly("11.0")), Some(Plainly("A03")), Indented(space));
    SimpleIsPrintable(lex, space, "EE-METER-1", start, [first, second]);
  }

  /** What a document of one Point means. */
  lemma OneReading(lex: Lexis, space: string, meter: string, start: string, quantity: string)
    requires meter != "" && lex.rfc3339(WithSeconds(start)).Some? && lex.float(quantity).Some?
    requires lex.integer("1") == Some(1)
    ensures var point := PointDoc(Plainly("1"), Some(Plainly(quantity)), None, []);
            var d := Simple(space, meter, start, [point]);
            && Printable(lex, d, DocumentTag)
            && SeriesMean(lex, d.series)
               == [Reading(meter, lex.rfc3339(WithSeconds(start)).value, 900_000_000_000, lex.float(quantity).value,
                           "KWH", "measured", "consumption", "gross", "", -62_135_596_800_000_000_000)]
  {
    hide WithSeconds, Indented, Printable;
    var point := PointDoc(Plainly("1"), Some(Plainly(quantity)), None, []);
    assert PrintablePoint(lex, point);
    SimpleIsPrintable(lex, space, meter, start, [point]);
    OneMean(lex, space, meter, start, point);
    assert Wrap64(0) == 0;
  }

  lemma OneMean(lex: Lexis, space: string, meter: string, start: string, point: PointDoc)
    requires PrintablePoint(lex, point) && Printable(lex, Simple(space, meter, start, [point]), DocumentTag)
    requires meter != "" && lex.rfc3339(WithSeconds(start)).Some?
    ensures SeriesMean(lex, Simple(space, meter, start, [point]).series)
            == [PointMean(lex, Context(meter, "A04", "KWH"), lex.rfc3339(WithSeconds(start)).value,
                          900_000_000_000, point)]
  {
    hide WithSeconds, Indented, PrintablePoint, PointMean;
    var series := Simple(space, meter, start, [point]).series;
    var periods := series[0].periods;
    assert PrintableSeries(lex, series[0]);
    var c := SeriesContext(series[0]);
    assert c == Context(meter, "A04", "KWH");
    assert PrintablePeriod(lex, c, periods[0]);
    assert [point][1..] == [] && periods[1..] == [] && series[1..] == [];
    var at, d := lex.rfc3339(WithSeconds(start)).value, 900_000_000_000;
    assert PointsMean(lex, c, at, d, [point]) == [PointMean(lex, c, at, d, point)];
    assert PeriodsMean(lex, c, periods) == PeriodMean(lex, c, periods[0]);
  }

  /** The document is read without error and yields one reading, which breaks the rule however it is stamped. */
  ghost predicate YieldsBroken(lex: Lexis, d: MarketDoc, root: Name, cancelled: nat -> bool, rule: Rule) {
    var run := Document(lex, PrintAll(DocumentNodes(d)) + [End(root)], [root], root.local, cancelled, MAX_READINGS);
    && run.end.Done? && |run.produced| == 1
    && forall id, at :: Broken(run.produced[0].(sourceId := id, ingestedAt := at)) == Some(rule)
  }

  lemma OneBroken(lex: Lexis, space: string, meter: string, start: string, quantity: string, root: Name,
                  cancelled: nat -> bool, rule: Rule) returns (d: MarketDoc)
    requires root.local == DocumentTag && forall k :: !cancelled(k)
    requires meter != "" && lex.rfc3339(WithSeconds(start)).Some? && lex.float(quantity).Some?
    requires lex.integer("1") == Some(1)
    requires rule == if Blank(meter) then BlankMeter
                     else if lex.rfc3339(WithSeconds(start)).value == ZERO_TIME then ZeroStart else NotFinite
    requires rule == NotFinite ==> !lex.float(quantity).value.Finite?
    ensures YieldsBroken(lex, d, root, cancelled, rule)
  {
    hide WithSeconds, Printable, Simple, SeriesMean, Document, Blank, DocumentNodes;
    OneReading(lex, space, meter, start, quantity);
    d := Simple(space, meter, start, [PointDoc(Plainly("1"), Some(Plainly(quantity)), None, [])]);
    ParseInvertsPrint(lex, d, root, [], cancelled, MAX_READINGS);
    var toks := PrintAll(DocumentNodes(d)) + [End(root)];
    assert toks + [] == toks;
  }

  /** Each of the three rules can be broken: by a meter of white space, the zero instant, a NaN. */
  lemma EachRuleCanBreak(lex: Lexis, space: string, root: Name, cancelled: nat -> bool)
    returns (blank: MarketDoc, zero: MarketDoc, nan: MarketDoc)
    requires root.local == DocumentTag && forall k :: !cancelled(k)
    requires lex.integer("1") == Some(1) && lex.float("NaN") == Some(NotANumber)
    requires lex.rfc3339(WithSeconds("0001-01-01T00:00Z")) == Some(ZERO_TIME)
    requires lex.rfc3339(WithSeconds("2026-01-01T00:00Z")) == Some(1_767_225_600 * SECOND)
    ensures YieldsBroken(lex, blank, root, cancelled, BlankMeter)
    ensures YieldsBroken(lex, zero, root, cancelled, ZeroStart)
    ensures YieldsBroken(lex, nan, root, cancelled, NotFinite)
  {
    hide WithSeconds, YieldsBroken;
    assert "M"[0] in "M" && !IsSpace("M"[0]);
    blank := OneBroken(lex, space, " ", "2026-01-01T00:00Z", "NaN", root, cancelled, BlankMeter);
    zero := OneBroken(lex, space, "M", "0001-01-01T00:00Z", "NaN", root, cancelled, ZeroStart);
    nan := OneBroken(lex, space, "M", "2026-01-01T00:00Z", "NaN", root, cancelled, NotFinite);
  }

  // ----- order is enforced -----

  /** A scalar anywhere after a Period makes the series malformed, whatever else it holds. */
  lemma LateScalarRejected(lex: Lexis, a: seq<Node>, period: Node, b: seq<Node>, scalar: Node, c: seq<Node>,
                           self: Name, after: seq<Token>, room: nat)
    requires IsElem(period, PeriodTag) && ScalarNode(scalar)
    ensures var kids := a + [period] + b + [scalar] + c;
            var end := Series(lex, PrintAll(kids) + [End(self)] + after, self, SERIES_START, room).end;
            end.Failed? && Is(end.error, Malformed)
  {
    var kids := a + [period] + b + [scalar] + c;
    var toks := PrintAll(kids) + [End(self)] + after;
    ContentOfPrint(kids, self, after);
    SeriesAgrees(lex, toks, self, SERIES_START, room);
    assert kids[|a|] == period && kids[|a| + 1 + |b|] == scalar;
    assert !PeriodsLast(kids);
    SeriesErrors(lex, toks, self, SERIES_START, room);
    FixedClasses();
  }

  /** A timeInterval or resolution anywhere after a Point makes the Period malformed. */
  lemma LateSettingRejected(lex: Lexis, a: seq<Node>, point: Node, b: seq<Node>, setting: Node, c: seq<Node>,
                            self: Name, ctx: Context, after: seq<Token>, room: nat)
    requires IsElem(point, PointTag) && SettingNode(setting)
    ensures var kids := a + [point] + b + [setting] + c;
            var end := Period(lex, PrintAll(kids) + [End(self)] + after, self, ctx, PERIOD_START, room).end;
            end.Failed? && Is(end.error, Malformed)
  {
    var kids := a + [point] + b + [setting] + c;
    var toks := PrintAll(kids) + [End(self)] + after;
    ContentOfPrint(kids, self, after);
    PeriodAgrees(lex, toks, self, ctx, PERIOD_START, room);
    assert kids[|a|] == point && kids[|a| + 1 + |b|] == setting;
    assert !PointsLast(kids);
    PeriodErrors(lex, toks, self, ctx, PERIOD_START, room);
    FixedClasses();
  }

  // ----- what else a Period is rejected for -----

  /** A Point with a position or quantity that does not convert, or without a position of at least one. */
  predicate BadPoint(lex: Lexis, kids: seq<Node>) {
    || (exists k :: k in kids && IsElem(k, PositionTag) && lex.integer(TextOf(k.kids)).None?)
    || (exists k :: k in kids && IsElem(k, QuantityTag) && lex.float(TextOf(k.kids)).None?)
    || Last(kids, PositionTag).None?
    || (lex.integer(TextOf(Last(kids, PositionTag).value)).Some?
        && lex.integer(TextOf(Last(kids, PositionTag).value)).value < 1)
  }

  /** A timeInterval whose start is no instant, another resolution than the six, or a bad Point. */
  predicate BadChild(lex: Lexis, k: Node) {
    || (IsElem(k, IntervalTag) && lex.rfc3339(WithSeconds(Field(k.kids, StartTag))).None?)
    || (IsElem(k, ResolutionTag) && LengthOf(TextOf(k.kids)).None?)
    || (IsElem(k, PointTag) && BadPoint(lex, k.kids))
  }

  predicate Has(kids: seq<Node>, tag: Tag) {
    exists k :: k in kids && IsElem(k, tag)
  }

  /** A bad child, or a Point without a meter, a unit, an interval or a resolution. */
  predicate BadPeriod(lex: Lexis, c: Context, kids: seq<Node>) {
    || (exists k :: k in kids && BadChild(lex, k))
    || (Has(kids, PointTag)
        && (c.meter == "" || c.unit == "" || !Has(kids, IntervalTag) || !Has(kids, ResolutionTag)))
  }

  lemma {:induction false} LastIffHas(kids: seq<Node>, tag: Tag)
    ensures Last(kids, tag).Some? <==> Has(kids, tag)
  {
    if kids != [] {
      LastIffHas(kids[1..], tag);
      assert forall k :: k in kids <==> k == kids[0] || k in kids[1..];
    }
  }

  lemma PointDecodesExactly(lex: Lexis, kids: seq<Node>)
    ensures (DecodePoint(lex, kids).Some? && DecodePoint(lex, kids).value.position >= 1) <==> !BadPoint(lex, kids)
  {
    if Last(kids, PositionTag).Some? { LastIsAChild(kids, PositionTag); }
  }

  lemma {:induction false} PointsDecodeExactly(lex: Lexis, c: Context, s: PeriodState, kids: seq<Node>)
    ensures Points(lex, c, s, kids).Some?
            <==> forall k :: k in kids && IsElem(k, PointTag) ==> Known(c, s) && !BadPoint(lex, k.kids)
  {
    hide DecodePoint, BadPoint, Quality, Direction;
    if kids != [] {
      PointsDecodeExactly(lex, c, s, kids[1..]);
      assert forall k :: k in kids <==> k == kids[0] || k in kids[1..];
      if IsElem(kids[0], PointTag) { PointDecodesExactly(lex, kids[0].kids); }
    }
  }

  /** A Period decodes exactly when its order is right and nothing in it is bad. */
  lemma PeriodDecodesExactly(lex: Lexis, c: Context, kids: seq<Node>)
    ensures TreePeriod(lex, c, kids).Some? <==> PointsLast(kids) && !BadPeriod(lex, c, kids)
  {
    hide BadPoint, Points, LengthOf, ParseResolution, WithSeconds, Normalise, PointsLast;
    var s := Settled(lex, PERIOD_START, kids);
    PointsDecodeExactly(lex, c, s, kids);
    LastIffHas(kids, IntervalTag);
    LastIffHas(kids, ResolutionTag);
    forall k | k in kids && SettingNode(k)
      ensures Setting(lex, k.name.local, k.kids, PERIOD_START).Some? <==> !BadChild(lex, k)
    {
      WordsAgree(Field(k.kids, StartTag));
      WordsAgree(TextOf(k.kids));
    }
    if Last(kids, IntervalTag).Some? { LastIsAChild(kids, IntervalTag); }
    if Last(kids, ResolutionTag).Some? { LastIsAChild(kids, ResolutionTag); }
  }

  // ----- and makes the whole document fail -----

  lemma ThenAssociates(a: Option<Cut>, b: Option<Cut>, c: Option<Cut>)
    ensures Then(a, Then(b, c)) == Then(Then(a, b), c)
  {
    if a.Some? && b.Some? && c.Some? {
      assert a.value.readings + (b.value.readings + c.value.readings)
             == (a.value.readings + b.value.readings) + c.value.readings;
    }
  }

  lemma {:induction false} UpToAppend(lex: Lexis, a: seq<Node>, b: seq<Node>, root: Tag)
    ensures UpTo(lex, a + b, root) == Then(UpTo(lex, a, root), UpTo(lex, b, root))
  {
    if a == [] {
      assert a + b == b;
      ThenNothing(UpTo(lex, b, root));
    } else {
      assert (a + b)[0] == a[0] && (a + b)[1..] == a[1..] + b;
      UpToAppend(lex, a[1..], b, root);
      ThenAssociates(HeadUpTo(lex, a[0], root), UpTo(lex, a[1..], root), UpTo(lex, b, root));
    }
  }

  lemma ThenNothing(c: Option<Cut>)
    ensures Then(NOTHING, c) == c
  {
    if c.Some? { assert [] + c.value.readings == c.value.readings; }
  }

  /** One TimeSeries that does not decode makes the document malformed, whatever stands before and after it. */
  lemma BrokenSeriesFails(lex: Lexis, before: seq<Node>, n: Name, series: seq<Node>, rest: seq<Node>,
                          root: Name, after: seq<Token>, cancelled: nat -> bool, room: nat)
    requires forall k :: !cancelled(k)
    requires n.local.TimeSeriesTag? && TreeSeries(lex, series).None? && NoInnerRoot(before, root.local)
    ensures var kids := before + ([Elem(n, series)] + rest);
            var end := Document(lex, PrintAll(kids) + [End(root)] + after, [root], root.local, cancelled, room).end;
            end.Failed? && Is(end.error, Malformed)
  {
    hide Document, TreeSeries;
    var kids := before + ([Elem(n, series)] + rest);
    var toks := PrintAll(kids) + [End(root)] + after;
    ContentOfPrint(kids, root, after);
    InnerRootCuts(lex, before, root.local);
    UpToAppend(lex, before, [Elem(n, series)] + rest, root.local);
    assert HeadUpTo(lex, Elem(n, series), root.local) == None;
    DocumentFollowsTree(lex, toks, root, cancelled, room);
    CancellationCutsNever(lex, toks, [root], root.local, cancelled, room);
    FixedClasses();
  }

  /** So does a scalar after a Period in any of them. */
  lemma LateScalarFailsDocument(lex: Lexis, before: seq<Node>, n: Name, rest: seq<Node>,
                                a: seq<Node>, period: Node, b: seq<Node>, scalar: Node, c: seq<Node>,
                                root: Name, after: seq<Token>, cancelled: nat -> bool, room: nat)
    requires forall k :: !cancelled(k)
    requires n.local.TimeSeriesTag? && NoInnerRoot(before, root.local)
    requires IsElem(period, PeriodTag) && ScalarNode(scalar)
    ensures var kids := before + ([Elem(n, a + [period] + b + [scalar] + c)] + rest);
            var end := Document(lex, PrintAll(kids) + [End(root)] + after, [root], root.local, cancelled, room).end;
            end.Failed? && Is(end.error, Malformed)
  {
    hide Document;
    var series := a + [period] + b + [scalar] + c;
    assert series[|a|] == period && series[|a| + 1 + |b|] == scalar;
    assert !PeriodsLast(series);
    BrokenSeriesFails(lex, before, n, series, rest, root, after, cancelled, room);
  }

  /** So does any Period with something bad in it. */
  lemma BadPeriodFailsDocument(lex: Lexis, before: seq<Node>, n: Name, rest: seq<Node>, series: seq<Node>, i: nat,
                               root: Name, after: seq<Token>, cancelled: nat -> bool, room: nat)
    requires forall k :: !cancelled(k)
    requires n.local.TimeSeriesTag? && NoInnerRoot(before, root.local)
    requires i < |series| && IsElem(series[i], PeriodTag)
    requires BadPeriod(lex, ContextOf(Final(SERIES_START, series)), series[i].kids)
    ensures var kids := before + ([Elem(n, series)] + rest);
            var end := Document(lex, PrintAll(kids) + [End(root)] + after, [root], root.local, cancelled, room).end;
            end.Failed? && Is(end.error, Malformed)
  {
    hide Document, BadPeriod;
    var c := ContextOf(Final(SERIES_START, series));
    PeriodDecodesExactly(lex, c, series[i].kids);
    OnePeriodFails(lex, c, series, i);
    BrokenSeriesFails(lex, before, n, series, rest, root, after, cancelled, room);
  }

  lemma {:induction false} OnePeriodFails(lex: Lexis, c: Context, kids: seq<Node>, i: nat)
    requires i < |kids| && IsElem(kids[i], PeriodTag) && TreePeriod(lex, c, kids[i].kids).None?
    ensures Periods(lex, c, kids).None?
  {
    if i > 0 { OnePeriodFails(lex, c, kids[1..], i - 1); }
  }

  /** And an interval or resolution after a Point in any Period of one. */
  lemma LateSettingFailsDocument(lex: Lexis, before: seq<Node>, n: Name, rest: seq<Node>,
                                 series: seq<Node>, i: nat,
                                 a: seq<Node>, point: Node, b: seq<Node>, setting: Node, c: seq<Node>,
                                 root: Name, after: seq<Token>, cancelled: nat -> bool, room: nat)
    requires forall k :: !cancelled(k)
    requires n.local.TimeSeriesTag? && NoInnerRoot(before, root.local)
    requires i < |series| && IsElem(series[i], PeriodTag) && series[i].kids == a + [point] + b + [setting] + c
    requires IsElem(point, PointTag) && SettingNode(setting)
    ensures var kids := before + ([Elem(n, series)] + rest);
            var end := Document(lex, PrintAll(kids) + [End(root)] + after, [root], root.local, cancelled, room).end;
            end.Failed? && Is(end.error, Malformed)
  {
    hide Document;
    var kids := series[i].kids;
    assert kids[|a|] == point && kids[|a| + 1 + |b|] == setting;
    assert !PointsLast(kids);
    OnePeriodFails(lex, ContextOf(Final(SERIES_START, series)), series, i);
    BrokenSeriesFails(lex, before, n, series, rest, root, after, cancelled, room);
  }
}
