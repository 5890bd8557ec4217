/**
 A decoder that sees the whole tree, and the theorem that the one-pass parser agrees with
 it on every token stream.
 */
module EsmpTree {
  import opened Wrappers
  import opened Xml
  import opened Consumption
  import opened EsmpStream

  // ----- the tree decoder -----

  predicate SettingNode(k: Node) {
    k.Elem? && IsSetting(k.name.local)
  }

  predicate ScalarNode(k: Node) {
    k.Elem? && IsScalar(k.name.local)
  }

  predicate PointsLast(kids: seq<Node>) {
    forall i, j :: 0 <= i < j < |kids| && IsElem(kids[i], PointTag) ==> !SettingNode(kids[j])
  }

  predicate PeriodsLast(kids: seq<Node>) {
    forall i, j :: 0 <= i < j < |kids| && IsElem(kids[i], PeriodTag) ==> !ScalarNode(kids[j])
  }

  predicate SettingsConvert(lex: Lexis, kids: seq<Node>) {
    forall k :: k in kids && SettingNode(k) ==> Setting(lex, k.name.local, k.kids, PERIOD_START).Some?
  }

  /** The last timeInterval and resolution among the children, or what was known before them. */
  function Settled(lex: Lexis, s: PeriodState, kids: seq<Node>): PeriodState {
    PeriodState(
      match Last(kids, IntervalTag) case Some(k) => Instant(lex, k) case None => s.start,
      match Last(kids, ResolutionTag) case Some(k) => Interval.ParseResolution(TextOf(k)) case None => s.resolution,
      s.pointSeen)
  }

  function TreePoint(lex: Lexis, c: Context, s: PeriodState, kids: seq<Node>): Option<Reading> {
    if !Known(c, s) || DecodePoint(lex, kids) == None then None
    else PointReading(c, s, DecodePoint(lex, kids).value)
  }

  function Join(a: Option<seq<Reading>>, b: Option<seq<Reading>>): Option<seq<Reading>> {
    if a.None? || b.None? then None else Some(a.value + b.value)
  }

  function Points(lex: Lexis, c: Context, s: PeriodState, kids: seq<Node>): Option<seq<Reading>> {
    if kids == [] then Some([])
    else if !IsElem(kids[0], PointTag) then Points(lex, c, s, kids[1..])
    else match TreePoint(lex, c, s, kids[0].kids)
         case None => None
         case Some(r) => Join(Some([r]), Points(lex, c, s, kids[1..]))
  }

  /** A Period whose children before `kids` left the state s. */
  function TreePeriodFrom(lex: Lexis, c: Context, s: PeriodState, kids: seq<Node>): Option<seq<Reading>> {
    if !PointsLast(kids) || !SettingsConvert(lex, kids) then None
    else if s.pointSeen && exists k :: k in kids && SettingNode(k) then None
    else Points(lex, c, Settled(lex, s, kids), kids)
  }

  /** A whole Period: last timeInterval and resolution over all children, then every Point. */
  function TreePeriod(lex: Lexis, c: Context, kids: seq<Node>): Option<seq<Reading>> {
    TreePeriodFrom(lex, c, PERIOD_START, kids)
  }

  /** The last of each scalar over all the children, or what was known before them. */
  function Final(s: SeriesState, kids: seq<Node>): SeriesState {
    SeriesState(
      match Last(kids, MridTag) case Some(k) => TextOf(k) case None => s.mrid,
      match Last(kids, BusinessTypeTag) case Some(k) => TextOf(k) case None => s.businessType,
      match Last(kids, UnitTag) case Some(k) => TextOf(k) case None => s.unit,
      match Last(kids, MarketPointTag) case Some(k) => Field(k, MridTag) case None => s.meter,
      s.periodSeen)
  }

  function Periods(lex: Lexis, c: Context, kids: seq<Node>): Option<seq<Reading>> {
    if kids == [] then Some([])
    else if !IsElem(kids[0], PeriodTag) then Periods(lex, c, kids[1..])
    else Join(TreePeriod(lex, c, kids[0].kids), Periods(lex, c, kids[1..]))
  }

  /** A TimeSeries whose children before `kids` left the state s. */
  function TreeSeriesFrom(lex: Lexis, s: SeriesState, kids: seq<Node>): Option<seq<Reading>> {
    if !PeriodsLast(kids) then None
    else if s.periodSeen && exists k :: k in kids && ScalarNode(k) then None
    else Periods(lex, ContextOf(Final(s, kids)), kids)
  }

  /** A whole TimeSeries: its last scalars over all children, then every Period in order. */
  function TreeSeries(lex: Lexis, kids: seq<Node>): Option<seq<Reading>> {
    TreeSeriesFrom(lex, SERIES_START, kids)
  }

  // ----- one pass agrees with the tree -----

  /** The run succeeds exactly when the element is closed, its tree decodes and the cap holds. */
  predicate Agrees(run: Run, el: Option<Element>, tree: Option<seq<Reading>>, room: nat) {
    if el.Some? && tree.Some? && |tree.value| <= room
    then run == Run(tree.value, Done(el.value.rest))
    else run.end.Failed?
  }

  function PeriodTree(lex: Lexis, c: Context, s: PeriodState, el: Option<Element>): Option<seq<Reading>> {
    if el.None? then None else TreePeriodFrom(lex, c, s, el.value.kids)
  }

  function SeriesTree(lex: Lexis, s: SeriesState, el: Option<Element>): Option<seq<Reading>> {
    if el.None? then None else TreeSeriesFrom(lex, s, el.value.kids)
  }

  lemma PointsLastCons(k: Node, ks: seq<Node>)
    ensures PointsLast([k] + ks)
            <==> PointsLast(ks) && (IsElem(k, PointTag) ==> forall x :: x in ks ==> !SettingNode(x))
  {
    var all := [k] + ks;
    if PointsLast(all) {
      forall i, j | 0 <= i < j < |ks| && IsElem(ks[i], PointTag) ensures !SettingNode(ks[j]) {
        assert IsElem(all[i + 1], PointTag) && all[j + 1] == ks[j];
      }
      forall x | x in ks && IsElem(k, PointTag) ensures !SettingNode(x) {
        var j :| 0 <= j < |ks| && ks[j] == x;
        assert IsElem(all[0], PointTag) && all[j + 1] == x;
      }
    } else {
      var i, j :| 0 <= i < j < |all| && IsElem(all[i], PointTag) && SettingNode(all[j]);
      assert all[j] == ks[j - 1] && all[j] in ks;
      if i > 0 { assert all[i] == ks[i - 1]; }
    }
  }

  lemma PeriodsLastCons(k: Node, ks: seq<Node>)
    ensures PeriodsLast([k] + ks)
            <==> PeriodsLast(ks) && (IsElem(k, PeriodTag) ==> forall x :: x in ks ==> !ScalarNode(x))
  {
    var all := [k] + ks;
    if PeriodsLast(all) {
      forall i, j | 0 <= i < j < |ks| && IsElem(ks[i], PeriodTag) ensures !ScalarNode(ks[j]) {
        assert IsElem(all[i + 1], PeriodTag) && all[j + 1] == ks[j];
      }
      forall x | x in ks && IsElem(k, PeriodTag) ensures !ScalarNode(x) {
        var j :| 0 <= j < |ks| && ks[j] == x;
        assert IsElem(all[0], PeriodTag) && all[j + 1] == x;
      }
    } else {
      var i, j :| 0 <= i < j < |all| && IsElem(all[i], PeriodTag) && ScalarNode(all[j]);
      assert all[j] == ks[j - 1] && all[j] in ks;
      if i > 0 { assert all[i] == ks[i - 1]; }
    }
  }

  lemma NoneLeft(kids: seq<Node>, local: Tag)
    requires forall k :: k in kids ==> !IsElem(k, local)
    ensures Last(kids, local) == None
  {
    if Last(kids, local).Some? { LastIsAChild(kids, local); }
  }

  /** Once a Point is seen what is known is final. */
  lemma SettledNow(lex: Lexis, s: PeriodState, kids: seq<Node>)
    requires forall k :: k in kids ==> !SettingNode(k)
    ensures Settled(lex, s, kids) == s
  {
    NoneLeft(kids, IntervalTag);
    NoneLeft(kids, ResolutionTag);
  }

  /** Once a Period is seen what is known is final. */
  lemma FinalNow(s: SeriesState, kids: seq<Node>)
    requires forall k :: k in kids ==> !ScalarNode(k)
    ensures Final(s, kids) == s
  {
    NoneLeft(kids, MridTag);
    NoneLeft(kids, BusinessTypeTag);
    NoneLeft(kids, UnitTag);
    NoneLeft(kids, MarketPointTag);
  }

  lemma PointsIgnoreSeen(lex: Lexis, c: Context, s: PeriodState, kids: seq<Node>)
    ensures Points(lex, c, s.(pointSeen := true), kids) == Points(lex, c, s, kids)
  {
    if kids != [] { PointsIgnoreSeen(lex, c, s, kids[1..]); }
  }

  lemma EmptyTrees(lex: Lexis, c: Context, p: PeriodState, s: SeriesState)
    ensures TreePeriodFrom(lex, c, p, []) == Some([])
    ensures TreeSeriesFrom(lex, s, []) == Some([])
  {
  }

  lemma {:induction false} PeriodAgrees(lex: Lexis, toks: seq<Token>, self: Name, c: Context, s: PeriodState, room: nat)
    requires s.pointSeen ==> Known(c, s)
    ensures Agrees(Period(lex, toks, self, c, s, room), Content(toks, self),
                   PeriodTree(lex, c, s, Content(toks, self)), room)
    decreases |toks|
  {
    hide Settled, Points, DecodePoint, PointReading, SettingsConvert, TreePeriodFrom;
    EmptyTrees(lex, c, s, SERIES_START);
    if toks == [] || toks[0].End? { return; }
    if toks[0].Data? {
      PeriodAgrees(lex, toks[1..], self, c, s, room);
      if Content(toks, self).Some? {
        PeriodSkips(lex, c, s, Text(toks[0].text), Content(toks[1..], self).value.kids);
      }
      return;
    }
    var n := toks[0].name;
    var el := Content(toks[1..], n);
    if el.None? { return; }
    var k := Elem(n, el.value.kids);
    var after := Content(el.value.rest, self);
    if after.Some? {
      PointsLastCons(k, after.value.kids);
      assert k in [k] + after.value.kids;
    }
    if IsSetting(n.local) {
      var s' := Setting(lex, n.local, el.value.kids, s);
      if after.Some? { PeriodSets(lex, c, s, k, after.value.kids); }
      if !s.pointSeen && s'.Some? {
        PeriodAgrees(lex, el.value.rest, self, c, s'.value, room);
      }
    } else if n.local == PointTag {
      if Known(c, s) && room > 0 {
        PeriodAgrees(lex, el.value.rest, self, c, s.(pointSeen := true), room - 1);
      }
      PeriodAtPoint(lex, toks, self, c, s, room);
    } else {
      PeriodAgrees(lex, el.value.rest, self, c, s, room);
      if after.Some? { PeriodSkips(lex, c, s, k, after.value.kids); }
    }
  }

  lemma PeriodAtPoint(lex: Lexis, toks: seq<Token>, self: Name, c: Context, s: PeriodState, room: nat)
    requires s.pointSeen ==> Known(c, s)
    requires toks != [] && toks[0].Start? && toks[0].name.local == PointTag
    requires Content(toks[1..], toks[0].name).Some?
    requires Known(c, s) && room > 0 ==>
               var rest := Content(toks[1..], toks[0].name).value.rest;
               var s' := s.(pointSeen := true);
               Agrees(Period(lex, rest, self, c, s', room - 1), Content(rest, self),
                      PeriodTree(lex, c, s', Content(rest, self)), room - 1)
    ensures Agrees(Period(lex, toks, self, c, s, room), Content(toks, self),
                   PeriodTree(lex, c, s, Content(toks, self)), room)
  {
    var el := Content(toks[1..], toks[0].name).value;
    var after := Content(el.rest, self);
    if after.Some? { PeriodPoints(lex, c, s, Elem(toks[0].name, el.kids), after.value.kids); }
  }

  lemma PeriodSkips(lex: Lexis, c: Context, s: PeriodState, k: Node, ks: seq<Node>)
    requires !SettingNode(k) && !IsElem(k, PointTag)
    ensures TreePeriodFrom(lex, c, s, [k] + ks) == TreePeriodFrom(lex, c, s, ks)
  {
    PointsLastCons(k, ks);
    assert ([k] + ks)[1..] == ks;
  }

  /** A child seen first gives way to a later one of its name. */
  lemma LastCons(k: Node, ks: seq<Node>, local: Tag)
    ensures Last([k] + ks, local)
            == if Last(ks, local).Some? then Last(ks, local) else if IsElem(k, local) then Some(k.kids) else None
  {
    assert ([k] + ks)[1..] == ks;
  }

  lemma SettledCons(lex: Lexis, s: PeriodState, k: Node, ks: seq<Node>)
    requires SettingNode(k) && Setting(lex, k.name.local, k.kids, s).Some?
    ensures Settled(lex, s, [k] + ks) == Settled(lex, Setting(lex, k.name.local, k.kids, s).value, ks)
  {
    LastCons(k, ks, IntervalTag);
    LastCons(k, ks, ResolutionTag);
    if k.name.local == IntervalTag {
      assert !IsElem(k, ResolutionTag);
    } else {
      assert !IsElem(k, IntervalTag);
    }
  }

  lemma FinalCons(s: SeriesState, k: Node, ks: seq<Node>)
    requires ScalarNode(k)
    ensures Final(s, [k] + ks) == Final(Scalar(k.name.local, k.kids, s), ks)
  {
    LastCons(k, ks, MridTag);
    LastCons(k, ks, BusinessTypeTag);
    LastCons(k, ks, UnitTag);
    LastCons(k, ks, MarketPointTag);
  }

  lemma PeriodSets(lex: Lexis, c: Context, s: PeriodState, k: Node, ks: seq<Node>)
    requires SettingNode(k)
    ensures var s' := Setting(lex, k.name.local, k.kids, s);
            TreePeriodFrom(lex, c, s, [k] + ks)
            == if s.pointSeen || s'.None? then None else TreePeriodFrom(lex, c, s'.value, ks)
  {
    PointsLastCons(k, ks);
    assert ([k] + ks)[1..] == ks;
    assert k in [k] + ks;
    var s' := Setting(lex, k.name.local, k.kids, s);
    assert s'.Some? <==> Setting(lex, k.name.local, k.kids, PERIOD_START).Some?;
    if s'.Some? {
      assert SettingsConvert(lex, [k] + ks) <==> SettingsConvert(lex, ks) by {
        assert forall x :: x in [k] + ks <==> x == k || x in ks;
      }
      SettledCons(lex, s, k, ks);
    }
  }

  lemma PeriodPoints(lex: Lexis, c: Context, s: PeriodState, k: Node, ks: seq<Node>)
    requires IsElem(k, PointTag)
    ensures TreePeriodFrom(lex, c, s, [k] + ks)
            == match TreePoint(lex, c, s, k.kids)
               case None => None
               case Some(r) => Join(Some([r]), TreePeriodFrom(lex, c, s.(pointSeen := true), ks))
  {
    PointsLastCons(k, ks);
    assert ([k] + ks)[1..] == ks;
    if forall x :: x in ks ==> !SettingNode(x) {
      SettledNow(lex, s, ks);
      SettledNow(lex, s.(pointSeen := true), ks);
      SettledNow(lex, s, [k] + ks);
      PointsIgnoreSeen(lex, c, s, ks);
    }
  }

  lemma {:induction false} SeriesAgrees(lex: Lexis, toks: seq<Token>, self: Name, s: SeriesState, room: nat)
    ensures Agrees(Series(lex, toks, self, s, room), Content(toks, self),
                   SeriesTree(lex, s, Content(toks, self)), room)
    decreases |toks|
  {
    hide Period, Final, Periods, ContextOf, TreePeriodFrom, TreeSeriesFrom;
    EmptyTrees(lex, ContextOf(s), PERIOD_START, s);
    if toks == [] || toks[0].End? { return; }
    if toks[0].Data? {
      SeriesAgrees(lex, toks[1..], self, s, room);
      if Content(toks, self).Some? {
        SeriesSkips(lex, s, Text(toks[0].text), Content(toks[1..], self).value.kids);
      }
      return;
    }
    var n := toks[0].name;
    var el := Content(toks[1..], n);
    if n.local == PeriodTag {
      PeriodAgrees(lex, toks[1..], n, ContextOf(s), PERIOD_START, room);
    }
    if el.None? { return; }
    var k := Elem(n, el.value.kids);
    var after := Content(el.value.rest, self);
    if IsScalar(n.local) {
      if after.Some? { SeriesSets(lex, s, k, after.value.kids); }
      if !s.periodSeen {
        SeriesAgrees(lex, el.value.rest, self, Scalar(n.local, el.value.kids, s), room);
      }
    } else if n.local == PeriodTag {
      var p := Period(lex, toks[1..], n, ContextOf(s), PERIOD_START, room);
      if p.end.Done? {
        SeriesAgrees(lex, p.end.rest, self, s.(periodSeen := true), room - |p.produced|);
      }
      SeriesAtPeriod(lex, toks, self, s, room);
    } else {
      SeriesAgrees(lex, el.value.rest, self, s, room);
      if after.Some? { SeriesSkips(lex, s, k, after.value.kids); }
    }
  }

  lemma SeriesAtPeriod(lex: Lexis, toks: seq<Token>, self: Name, s: SeriesState, room: nat)
    requires toks != [] && toks[0].Start? && toks[0].name.local == PeriodTag
    requires Content(toks[1..], toks[0].name).Some?
    requires var p := Period(lex, toks[1..], toks[0].name, ContextOf(s), PERIOD_START, room);
             var el := Content(toks[1..], toks[0].name);
             var s' := s.(periodSeen := true);
             && Agrees(p, el, PeriodTree(lex, ContextOf(s), PERIOD_START, el), room)
             && (p.end.Done? ==>
                   Agrees(Series(lex, p.end.rest, self, s', room - |p.produced|), Content(p.end.rest, self),
                          SeriesTree(lex, s', Content(p.end.rest, self)), room - |p.produced|))
    ensures Agrees(Series(lex, toks, self, s, room), Content(toks, self),
                   SeriesTree(lex, s, Content(toks, self)), room)
  {
    hide Period, Periods, PeriodsLast, Final, TreePeriodFrom, ContextOf;
    var n := toks[0].name;
    var el := Content(toks[1..], n);
    var after := Content(el.value.rest, self);
    var k := Elem(n, el.value.kids);
    var s' := s.(periodSeen := true);
    var p := Period(lex, toks[1..], n, ContextOf(s), PERIOD_START, room);
    var tree := if after.None? then None else SeriesTree(lex, s, Before(k, after));
    if after.Some? { SeriesPeriods(lex, s, k, after.value.kids); }
    if p.end.Failed? {
      AgreesJoin(p, el, TreePeriod(lex, ContextOf(s), k.kids), p, after, SeriesTree(lex, s', after), k, room);
    } else {
      var q := Series(lex, p.end.rest, self, s', room - |p.produced|);
      AgreesJoin(p, el, TreePeriod(lex, ContextOf(s), k.kids), q, after, SeriesTree(lex, s', after), k, room);
    }
    assert Content(toks, self) == Before(k, after);
  }

  /** Two agreeing runs in a row agree with the joined trees. */
  lemma AgreesJoin(p: Run, el: Option<Element>, tp: Option<seq<Reading>>,
                   q: Run, after: Option<Element>, tq: Option<seq<Reading>>, k: Node, room: nat)
    requires el.Some? && Agrees(p, el, tp, room)
    requires p.end.Done? ==> |p.produced| <= room && Agrees(q, after, tq, room - |p.produced|)
    ensures Agrees(if p.end.Failed? then p else q.After(p.produced), Before(k, after), Join(tp, tq), room)
  {
  }

  lemma SeriesSkips(lex: Lexis, s: SeriesState, k: Node, ks: seq<Node>)
    requires !ScalarNode(k) && !IsElem(k, PeriodTag)
    ensures TreeSeriesFrom(lex, s, [k] + ks) == TreeSeriesFrom(lex, s, ks)
  {
    PeriodsLastCons(k, ks);
    assert ([k] + ks)[1..] == ks;
  }

  lemma SeriesSets(lex: Lexis, s: SeriesState, k: Node, ks: seq<Node>)
    requires ScalarNode(k)
    ensures TreeSeriesFrom(lex, s, [k] + ks)
            == if s.periodSeen then None else TreeSeriesFrom(lex, Scalar(k.name.local, k.kids, s), ks)
  {
    PeriodsLastCons(k, ks);
    assert ([k] + ks)[1..] == ks;
    assert k in [k] + ks;
    FinalCons(s, k, ks);
  }

  lemma SeriesPeriods(lex: Lexis, s: SeriesState, k: Node, ks: seq<Node>)
    requires IsElem(k, PeriodTag)
    ensures TreeSeriesFrom(lex, s, [k] + ks)
            == Join(TreePeriod(lex, ContextOf(s), k.kids), TreeSeriesFrom(lex, s.(periodSeen := true), ks))
  {
    PeriodsLastCons(k, ks);
    assert ([k] + ks)[1..] == ks;
    if forall x :: x in ks ==> !ScalarNode(x) {
      FinalNow(s, ks);
      FinalNow(s.(periodSeen := true), ks);
      FinalNow(s, [k] + ks);
    }
  }

  /**
   The hard theorem: on every token stream the one-pass parser succeeds exactly when the
   TimeSeries is closed, its whole tree decodes and the cap holds, and then yields the tree's
   readings and stops right after the end tag.
   */
  lemma StreamingEqualsTree(lex: Lexis, toks: seq<Token>, self: Name, room: nat)
    ensures Agrees(Series(lex, toks, self, SERIES_START, room), Content(toks, self),
                   SeriesTree(lex, SERIES_START, Content(toks, self)), room)
    ensures forall c: Context ::
              Agrees(Period(lex, toks, self, c, PERIOD_START, room), Content(toks, self),
                     PeriodTree(lex, c, PERIOD_START, Content(toks, self)), room)
  {
    SeriesAgrees(lex, toks, self, SERIES_START, room);
    forall c: Context {
      PeriodAgrees(lex, toks, self, c, PERIOD_START, room);
    }
  }
}
