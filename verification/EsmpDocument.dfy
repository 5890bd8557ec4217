/** The whole document: agreement with its tree, error classes, cancellation, and what readings look like. */
module EsmpDocument {
  import opened Wrappers
  import opened Errors
  import opened Xml
  import opened Consumption
  import opened EsmpStream
  import opened EsmpTree

  /** Every TimeSeries of a forest, wherever it stands, in document order. */
  function TreeDocument(lex: Lexis, kids: seq<Node>): Option<seq<Reading>> {
    if kids == [] then Some([]) else Join(Head(lex, kids[0]), TreeDocument(lex, kids[1..]))
  }

  function Head(lex: Lexis, k: Node): Option<seq<Reading>> {
    match k
    case Text(_) => Some([])
    case Elem(n, inner) => if n.local.TimeSeriesTag? then TreeSeries(lex, inner) else TreeDocument(lex, inner)
  }

  /** Outside the TimeSeries no element is called like the root. */
  predicate NoInnerRoot(kids: seq<Node>, root: Tag) {
    forall k :: k in kids && k.Elem? && !k.name.local.TimeSeriesTag? ==>
                  k.name.local != root && NoInnerRoot(k.kids, root)
  }

  /** The readings up to where the pass ends, and whether an inner element called like the root ended it. */
  datatype Cut = Cut(readings: seq<Reading>, stopped: bool)

  const NOTHING := Some(Cut([], false))

  function Then(a: Option<Cut>, b: Option<Cut>): Option<Cut> {
    if a.None? || a.value.stopped then a
    else if b.None? then None
    else Some(Cut(a.value.readings + b.value.readings, b.value.stopped))
  }

  /** Every TimeSeries up to the first end tag called like the root. */
  function UpTo(lex: Lexis, kids: seq<Node>, root: Tag): Option<Cut> {
    if kids == [] then NOTHING else Then(HeadUpTo(lex, kids[0], root), UpTo(lex, kids[1..], root))
  }

  function HeadUpTo(lex: Lexis, k: Node, root: Tag): Option<Cut> {
    match k
    case Text(_) => NOTHING
    case Elem(n, inner) =>
      if n.local.TimeSeriesTag? then AllOf(TreeSeries(lex, inner)) else Closed(UpTo(lex, inner, root), n.local == root)
  }

  function AllOf(tree: Option<seq<Reading>>): Option<Cut> {
    if tree.None? then None else Some(Cut(tree.value, false))
  }

  function Closed(c: Option<Cut>, ends: bool): Option<Cut> {
    if c.Some? && ends then Some(c.value.(stopped := true)) else c
  }

  lemma {:induction false} TreeDocumentAppend(lex: Lexis, a: seq<Node>, b: seq<Node>)
    ensures TreeDocument(lex, a + b) == Join(TreeDocument(lex, a), TreeDocument(lex, b))
  {
    if a == [] {
      assert a + b == b;
      JoinEmpty(TreeDocument(lex, b));
    } else {
      assert (a + b)[0] == a[0] && (a + b)[1..] == a[1..] + b;
      TreeDocumentAppend(lex, a[1..], b);
      JoinAssociates(Head(lex, a[0]), TreeDocument(lex, a[1..]), TreeDocument(lex, b));
    }
  }

  lemma JoinAssociates(a: Option<seq<Reading>>, b: Option<seq<Reading>>, c: Option<seq<Reading>>)
    ensures Join(a, Join(b, c)) == Join(Join(a, b), c)
  {
    if a.Some? && b.Some? && c.Some? {
      assert a.value + (b.value + c.value) == (a.value + b.value) + c.value;
    }
  }

  lemma JoinEmpty(a: Option<seq<Reading>>)
    ensures Join(Some([]), a) == a && Join(a, Some([])) == a
  {
    if a.Some? {
      assert [] + a.value == a.value && a.value + [] == a.value;
    }
  }

  lemma DocumentAtSeries(lex: Lexis, n: Name, inner: seq<Node>, after: seq<Token>, open: seq<Name>,
                         root: Tag, cancelled: nat -> bool, room: nat)
    requires forall k :: !cancelled(k)
    requires n.local.TimeSeriesTag?
    ensures var run := Document(lex, [Start(n)] + (PrintAll(inner) + [End(n)] + after), open, root, cancelled, room);
            var tree := TreeSeries(lex, inner);
            if tree.Some? && |tree.value| <= room
            then run == Document(lex, after, open, root, cancelled, room - |tree.value|).After(tree.value)
            else run.end.Failed?
  {
    hide Series, Content, PrintAll, TreeSeriesFrom;
    var span := PrintAll(inner) + [End(n)] + after;
    assert ([Start(n)] + span)[1..] == span;
    ContentOfPrint(inner, n, after);
    SeriesAgrees(lex, span, n, SERIES_START, room);
  }

  lemma DocumentAtEnd(lex: Lexis, n: Name, after: seq<Token>, open: seq<Name>,
                      root: Tag, cancelled: nat -> bool, room: nat)
    requires forall k :: !cancelled(k)
    ensures Document(lex, [End(n)] + after, open + [n], root, cancelled, room)
            == if n.local == root then Run([], Done(after)) else Document(lex, after, open, root, cancelled, room)
  {
    assert ([End(n)] + after)[1..] == after && (open + [n])[..|open|] == open;
  }

  lemma AfterAfter(run: Run, a: seq<Reading>, b: seq<Reading>)
    ensures run.After(b).After(a) == run.After(a + b)
  {
    assert a + (b + run.produced) == (a + b) + run.produced;
  }

  /** The pass yields what `cut` holds and then stops or goes on at `tail`. */
  ghost predicate Reads(lex: Lexis, toks: seq<Token>, tail: seq<Token>, cut: Option<Cut>,
                        open: seq<Name>, root: Tag, cancelled: nat -> bool, room: nat) {
    var run := Document(lex, toks, open, root, cancelled, room);
    if cut.None? || |cut.value.readings| > room then run.end.Failed?
    else if cut.value.stopped then run.end.Done? && run.produced == cut.value.readings && |run.end.rest| >= |tail|
    else run == Document(lex, tail, open, root, cancelled, room - |cut.value.readings|).After(cut.value.readings)
  }

  lemma ReadsBoth(lex: Lexis, toks: seq<Token>, mid: seq<Token>, tail: seq<Token>,
                  a: Option<Cut>, b: Option<Cut>,
                  open: seq<Name>, root: Tag, cancelled: nat -> bool, room: nat)
    requires Reads(lex, toks, mid, a, open, root, cancelled, room) && |mid| >= |tail|
    requires a.Some? && |a.value.readings| <= room && !a.value.stopped ==>
               Reads(lex, mid, tail, b, open, root, cancelled, room - |a.value.readings|)
    ensures Reads(lex, toks, tail, Then(a, b), open, root, cancelled, room)
  {
    hide Document;
    if a.Some? && b.Some? && |a.value.readings + b.value.readings| <= room {
      var left := room - |a.value.readings + b.value.readings|;
      AfterAfter(Document(lex, tail, open, root, cancelled, left), a.value.readings, b.value.readings);
    }
  }

  lemma ReadsText(lex: Lexis, s: string, after: seq<Token>, open: seq<Name>,
                  root: Tag, cancelled: nat -> bool, room: nat)
    requires forall k :: !cancelled(k)
    ensures Document(lex, Print(Text(s)) + after, open, root, cancelled, room)
            == Document(lex, after, open, root, cancelled, room)
  {
    assert (Print(Text(s)) + after)[1..] == after;
  }

  lemma PrintElem(n: Name, inner: seq<Node>, after: seq<Token>)
    ensures Print(Elem(n, inner)) + after == [Start(n)] + (PrintAll(inner) + [End(n)] + after)
  {
    assert Print(Elem(n, inner)) == [Start(n)] + PrintAll(inner) + [End(n)];
  }

  lemma {:induction false} HeadAgrees(lex: Lexis, k: Node, after: seq<Token>, open: seq<Name>,
                                      root: Tag, cancelled: nat -> bool, room: nat)
    requires forall k :: !cancelled(k)
    ensures Reads(lex, Print(k) + after, after, HeadUpTo(lex, k, root), open, root, cancelled, room)
    decreases k, 0
  {
    match k
    case Text(s) => ReadsText(lex, s, after, open, root, cancelled, room);
    case Elem(n, inner) =>
      if n.local.TimeSeriesTag? {
        PrintElem(n, inner, after);
        DocumentAtSeries(lex, n, inner, after, open, root, cancelled, room);
      } else {
        ForestAgrees(lex, inner, [End(n)] + after, open + [n], root, cancelled, room);
        DocumentInside(lex, Print(k) + after, n, inner, after, open, root, cancelled, room);
      }
  }

  lemma {:induction false} ForestAgrees(lex: Lexis, kids: seq<Node>, tail: seq<Token>, open: seq<Name>,
                                        root: Tag, cancelled: nat -> bool, room: nat)
    requires forall k :: !cancelled(k)
    ensures Reads(lex, PrintAll(kids) + tail, tail, UpTo(lex, kids, root), open, root, cancelled, room)
    decreases kids, 1
  {
    if kids == [] {
      assert PrintAll(kids) + tail == tail;
    } else {
      var after := PrintAll(kids[1..]) + tail;
      assert PrintAll(kids) + tail == Print(kids[0]) + after;
      var head := HeadUpTo(lex, kids[0], root);
      HeadAgrees(lex, kids[0], after, open, root, cancelled, room);
      if head.Some? && |head.value.readings| <= room {
        ForestAgrees(lex, kids[1..], tail, open, root, cancelled, room - |head.value.readings|);
      }
      ReadsBoth(lex, PrintAll(kids) + tail, after, tail, head, UpTo(lex, kids[1..], root), open, root, cancelled, room);
    }
  }

  lemma DocumentInside(lex: Lexis, toks: seq<Token>, n: Name, inner: seq<Node>, after: seq<Token>, open: seq<Name>,
                       root: Tag, cancelled: nat -> bool, room: nat)
    requires forall k :: !cancelled(k)
    requires !n.local.TimeSeriesTag?
    requires toks == Print(Elem(n, inner)) + after
    requires Reads(lex, PrintAll(inner) + ([End(n)] + after), [End(n)] + after, UpTo(lex, inner, root),
                   open + [n], root, cancelled, room)
    ensures Reads(lex, toks, after, Closed(UpTo(lex, inner, root), n.local == root), open, root, cancelled, room)
  {
    assert toks[1..] == PrintAll(inner) + ([End(n)] + after);
    var cut := UpTo(lex, inner, root);
    if cut.Some? && |cut.value.readings| <= room {
      DocumentAtEnd(lex, n, after, open, root, cancelled, room - |cut.value.readings|);
    }
  }

  /**
   An uncancelled pass over a closed document yields every TimeSeries up to the first end tag
   called like the root, or fails when one of those does not decode or the cap does not hold.
   */
  lemma DocumentFollowsTree(lex: Lexis, toks: seq<Token>, root: Name, cancelled: nat -> bool, room: nat)
    requires forall k :: !cancelled(k)
    requires Content(toks, root).Some?
    ensures var run, el := Document(lex, toks, [root], root.local, cancelled, room), Content(toks, root).value;
            var cut := UpTo(lex, el.kids, root.local);
            if cut.None? || |cut.value.readings| > room then run.end.Failed?
            else
              && run.end.Done? && run.produced == cut.value.readings
              && (if cut.value.stopped then |run.end.rest| > |el.rest| else run.end.rest == el.rest)
  {
    var el := Content(toks, root).value;
    PrintOfContent(toks, root);
    var tail := [End(root)] + el.rest;
    assert toks == PrintAll(el.kids) + tail;
    ForestAgrees(lex, el.kids, tail, [root], root.local, cancelled, room);
    assert [root] == [] + [root];
    var cut := UpTo(lex, el.kids, root.local);
    if cut.Some? && |cut.value.readings| <= room {
      DocumentAtEnd(lex, root, el.rest, [], root.local, cancelled, room - |cut.value.readings|);
    }
  }

  lemma NoInnerRootSplits(kids: seq<Node>, root: Tag)
    requires kids != []
    ensures NoInnerRoot(kids, root) <==> NoInnerRoot([kids[0]], root) && NoInnerRoot(kids[1..], root)
  {
    assert kids == [kids[0]] + kids[1..];
    assert forall k :: k in kids <==> k in [kids[0]] || k in kids[1..];
  }

  predicate Exact(kids: seq<Node>, root: Tag, cut: Option<Cut>, tree: Option<seq<Reading>>) {
    && (NoInnerRoot(kids, root) ==> cut == AllOf(tree))
    && (cut.Some? ==> (cut.value.stopped <==> !NoInnerRoot(kids, root)))
  }

  lemma HeadIsExact(lex: Lexis, k: Node, root: Tag)
    requires k.Elem? && !k.name.local.TimeSeriesTag? ==>
               Exact(k.kids, root, UpTo(lex, k.kids, root), TreeDocument(lex, k.kids))
    ensures Exact([k], root, HeadUpTo(lex, k, root), Head(lex, k))
  {
    assert k in [k];
    assert NoInnerRoot([k], root)
           <==> (k.Elem? && !k.name.local.TimeSeriesTag? ==> k.name.local != root && NoInnerRoot(k.kids, root));
  }

  /** With no element inside called like the root that is the whole tree; only such an element stops the pass. */
  lemma {:induction false} InnerRootCuts(lex: Lexis, kids: seq<Node>, root: Tag)
    ensures Exact(kids, root, UpTo(lex, kids, root), TreeDocument(lex, kids))
    decreases kids
  {
    if kids != [] {
      hide NoInnerRoot, HeadUpTo, Head;
      var k := kids[0];
      NoInnerRootSplits(kids, root);
      if k.Elem? && !k.name.local.TimeSeriesTag? { InnerRootCuts(lex, k.kids, root); }
      HeadIsExact(lex, k, root);
      InnerRootCuts(lex, kids[1..], root);
    }
  }

  /** So when none is, the pass yields the tree's readings, or fails when the tree does. */
  lemma DocumentEqualsTree(lex: Lexis, toks: seq<Token>, root: Name, cancelled: nat -> bool, room: nat)
    requires forall k :: !cancelled(k)
    requires Content(toks, root).Some? && NoInnerRoot(Content(toks, root).value.kids, root.local)
    ensures var el := Content(toks, root);
            Agrees(Document(lex, toks, [root], root.local, cancelled, room), el,
                   TreeDocument(lex, el.value.kids), room)
  {
    DocumentFollowsTree(lex, toks, root, cancelled, room);
    InnerRootCuts(lex, Content(toks, root).value.kids, root.local);
  }

  // ----- how a pass can fail -----

  predicate ParseError(e: Error) {
    e == MALFORMED || e == MALFORMED_BY
  }

  lemma {:induction false} PeriodErrors(lex: Lexis, toks: seq<Token>, self: Name, c: Context, s: PeriodState, room: nat)
    requires s.pointSeen ==> Known(c, s)
    ensures var end := Period(lex, toks, self, c, s, room).end; end.Failed? ==> ParseError(end.error)
    decreases |toks|
  {
    if toks == [] || toks[0].End? { return; }
    if toks[0].Data? { PeriodErrors(lex, toks[1..], self, c, s, room); return; }
    var n := toks[0].name;
    var el := Content(toks[1..], n);
    if el.None? || (IsSetting(n.local) && s.pointSeen) { return; }
    if IsSetting(n.local) {
      var s' := Setting(lex, n.local, el.value.kids, s);
      if s'.Some? { PeriodErrors(lex, el.value.rest, self, c, s'.value, room); }
    } else if n.local.PointTag? {
      if Known(c, s) && room > 0 { PeriodErrors(lex, el.value.rest, self, c, s.(pointSeen := true), room - 1); }
    } else {
      PeriodErrors(lex, el.value.rest, self, c, s, room);
    }
  }

  lemma {:induction false} SeriesErrors(lex: Lexis, toks: seq<Token>, self: Name, s: SeriesState, room: nat)
    ensures var end := Series(lex, toks, self, s, room).end; end.Failed? ==> ParseError(end.error)
    decreases |toks|
  {
    if toks == [] || toks[0].End? { return; }
    if toks[0].Data? { SeriesErrors(lex, toks[1..], self, s, room); return; }
    var n := toks[0].name;
    if n.local.PeriodTag? {
      var p := Period(lex, toks[1..], n, ContextOf(s), PERIOD_START, room);
      PeriodErrors(lex, toks[1..], n, ContextOf(s), PERIOD_START, room);
      if p.end.Done? { SeriesErrors(lex, p.end.rest, self, s.(periodSeen := true), room - |p.produced|); }
    } else if Content(toks[1..], n).Some? {
      var el := Content(toks[1..], n).value;
      SeriesErrors(lex, el.rest, self, if IsScalar(n.local) then Scalar(n.local, el.kids, s) else s, room);
    }
  }

  /** The same run, or a cut one with a prefix of the readings. */
  predicate CutOf(cut: Run, whole: Run) {
    cut == whole || (cut.end == Failed(CANCELLED) && cut.produced <= whole.produced)
  }

  lemma CutOfAfter(cut: Run, whole: Run, before: seq<Reading>)
    requires CutOf(cut, whole)
    ensures CutOf(cut.After(before), whole.After(before))
  {
  }

  lemma {:induction false} CutIsPrefix(lex: Lexis, toks: seq<Token>, open: seq<Name>, root: Tag,
                                       cancelled: nat -> bool, never: nat -> bool, room: nat)
    requires forall k :: !never(k)
    ensures CutOf(Document(lex, toks, open, root, cancelled, room), Document(lex, toks, open, root, never, room))
    decreases |toks|
  {
    hide Series;
    if cancelled(|toks|) || toks == [] { return; }
    match toks[0]
    case Data(_) => CutIsPrefix(lex, toks[1..], open, root, cancelled, never, room);
    case End(n) =>
      if open != [] { CutIsPrefix(lex, toks[1..], open[..|open| - 1], root, cancelled, never, room); }
    case Start(n) =>
      if !n.local.TimeSeriesTag? {
        CutIsPrefix(lex, toks[1..], open + [n], root, cancelled, never, room);
      } else {
        var p := Series(lex, toks[1..], n, SERIES_START, room);
        if p.end.Done? {
          var left := room - |p.produced|;
          CutIsPrefix(lex, p.end.rest, open, root, cancelled, never, left);
          CutOfAfter(Document(lex, p.end.rest, open, root, cancelled, left),
                     Document(lex, p.end.rest, open, root, never, left), p.produced);
        }
      }
  }

  /**
   Cancellation only cuts a pass short: it yields a prefix of the readings and the cancelled
   error, or nothing changes. Every other failure is a malformed document.
   */
  lemma CancellationCuts(lex: Lexis, toks: seq<Token>, open: seq<Name>, root: Tag,
                         cancelled: nat -> bool, never: nat -> bool, room: nat)
    requires forall k :: !never(k)
    ensures var cut := Document(lex, toks, open, root, cancelled, room);
            var whole := Document(lex, toks, open, root, never, room);
            && (cut == whole || (cut.end == Failed(CANCELLED) && cut.produced <= whole.produced))
            && (whole.end.Failed? ==> ParseError(whole.end.error))
            && (cut.end == Failed(CANCELLED) ==> exists k :: cancelled(k))
  {
    hide Document, ParseError;
    CutIsPrefix(lex, toks, open, root, cancelled, never, room);
    CancellationCutsNever(lex, toks, open, root, never, room);
    CutExactly(lex, toks, open, root, cancelled, room);
  }

  lemma {:induction false} CancellationCutsNever(lex: Lexis, toks: seq<Token>, open: seq<Name>, root: Tag,
                                                 never: nat -> bool, room: nat)
    requires forall k :: !never(k)
    ensures var whole := Document(lex, toks, open, root, never, room);
            whole.end.Failed? ==> ParseError(whole.end.error)
    decreases |toks|
  {
    hide Series;
    if toks == [] { return; }
    match toks[0]
    case Data(_) => CancellationCutsNever(lex, toks[1..], open, root, never, room);
    case End(n) =>
      if open != [] { CancellationCutsNever(lex, toks[1..], open[..|open| - 1], root, never, room); }
    case Start(n) =>
      if !n.local.TimeSeriesTag? {
        CancellationCutsNever(lex, toks[1..], open + [n], root, never, room);
      } else {
        var p := Series(lex, toks[1..], n, SERIES_START, room);
        SeriesErrors(lex, toks[1..], n, SERIES_START, room);
        if p.end.Done? { CancellationCutsNever(lex, p.end.rest, open, root, never, room - |p.produced|); }
      }
  }

  /** The pass, as long as nothing stops it, reaches the check made with k tokens left. */
  predicate Checked(lex: Lexis, toks: seq<Token>, open: seq<Name>, root: Tag, room: nat, k: nat)
    decreases |toks|
  {
    || k == |toks|
    || (toks != []
        && match toks[0]
           case Data(_) => Checked(lex, toks[1..], open, root, room, k)
           case End(n) =>
             && open != [] && open[|open| - 1] == n && n.local != root
             && Checked(lex, toks[1..], open[..|open| - 1], root, room, k)
           case Start(n) =>
             if !n.local.TimeSeriesTag? then Checked(lex, toks[1..], open + [n], root, room, k)
             else
               var p := Series(lex, toks[1..], n, SERIES_START, room);
               p.end.Done? && Checked(lex, p.end.rest, open, root, room - |p.produced|, k))
  }

  lemma {:induction false} CutAtCheck(lex: Lexis, toks: seq<Token>, open: seq<Name>, root: Tag,
                                      cancelled: nat -> bool, room: nat, k: nat)
    requires Checked(lex, toks, open, root, room, k) && cancelled(k)
    ensures Document(lex, toks, open, root, cancelled, room).end == Failed(CANCELLED)
    decreases |toks|
  {
    hide Series;
    if cancelled(|toks|) { return; }
    match toks[0]
    case Data(_) => CutAtCheck(lex, toks[1..], open, root, cancelled, room, k);
    case End(n) => CutAtCheck(lex, toks[1..], open[..|open| - 1], root, cancelled, room, k);
    case Start(n) =>
      if !n.local.TimeSeriesTag? {
        CutAtCheck(lex, toks[1..], open + [n], root, cancelled, room, k);
      } else {
        var p := Series(lex, toks[1..], n, SERIES_START, room);
        CutAtCheck(lex, p.end.rest, open, root, cancelled, room - |p.produced|, k);
      }
  }

  lemma {:induction false} CutHasCheck(lex: Lexis, toks: seq<Token>, open: seq<Name>, root: Tag,
                                       cancelled: nat -> bool, room: nat) returns (k: nat)
    requires Document(lex, toks, open, root, cancelled, room).end == Failed(CANCELLED)
    ensures Checked(lex, toks, open, root, room, k) && cancelled(k)
    decreases |toks|
  {
    hide Series;
    if cancelled(|toks|) { return |toks|; }
    match toks[0]
    case Data(_) => k := CutHasCheck(lex, toks[1..], open, root, cancelled, room);
    case End(n) => k := CutHasCheck(lex, toks[1..], open[..|open| - 1], root, cancelled, room);
    case Start(n) =>
      if !n.local.TimeSeriesTag? {
        k := CutHasCheck(lex, toks[1..], open + [n], root, cancelled, room);
      } else {
        var p := Series(lex, toks[1..], n, SERIES_START, room);
        SeriesErrors(lex, toks[1..], n, SERIES_START, room);
        k := CutHasCheck(lex, p.end.rest, open, root, cancelled, room - |p.produced|);
      }
  }

  /** A pass is cut short exactly by a context that is done at a check it reaches. */
  lemma CutExactly(lex: Lexis, toks: seq<Token>, open: seq<Name>, root: Tag, cancelled: nat -> bool, room: nat)
    ensures Document(lex, toks, open, root, cancelled, room).end == Failed(CANCELLED)
            <==> exists k :: Checked(lex, toks, open, root, room, k) && cancelled(k)
  {
    hide Document, Checked;
    if Document(lex, toks, open, root, cancelled, room).end == Failed(CANCELLED) {
      var _ := CutHasCheck(lex, toks, open, root, cancelled, room);
    }
    if k :| Checked(lex, toks, open, root, room, k) && cancelled(k) {
      CutAtCheck(lex, toks, open, root, cancelled, room, k);
    }
  }

  // ----- what a produced reading looks like -----

  /** The rules an ESMP reading keeps by construction. */
  predicate Shaped(r: Reading) {
    r.meter != "" && r.unit != "" && r.measure == MEASURE_GROSS && r.resolution >= 900 * SECOND
    && r.resolution % SECOND == 0 && r.sourceId == "" && r.ingestedAt == ZERO_TIME
  }

  predicate AllShaped(rs: seq<Reading>) {
    forall r :: r in rs ==> Shaped(r)
  }

  lemma {:induction false} PeriodShaped(lex: Lexis, toks: seq<Token>, self: Name, c: Context, s: PeriodState, room: nat)
    requires s.pointSeen ==> Known(c, s)
    requires s.resolution.Some? ==> s.resolution.value >= 900 * SECOND && s.resolution.value % SECOND == 0
    ensures AllShaped(Period(lex, toks, self, c, s, room).produced)
    decreases |toks|
  {
    if toks == [] || toks[0].End? { return; }
    if toks[0].Data? { PeriodShaped(lex, toks[1..], self, c, s, room); return; }
    var n := toks[0].name;
    var el := Content(toks[1..], n);
    if el.None? || (IsSetting(n.local) && s.pointSeen) { return; }
    if IsSetting(n.local) {
      var s' := Setting(lex, n.local, el.value.kids, s);
      if s'.Some? {
        if n.local.ResolutionTag? { Interval.ResolutionIsWholeSeconds(TextOf(el.value.kids)); }
        PeriodShaped(lex, el.value.rest, self, c, s'.value, room);
      }
    } else if n.local.PointTag? {
      if Known(c, s) && room > 0 { PeriodShaped(lex, el.value.rest, self, c, s.(pointSeen := true), room - 1); }
    } else {
      PeriodShaped(lex, el.value.rest, self, c, s, room);
    }
  }

  lemma {:induction false} SeriesShaped(lex: Lexis, toks: seq<Token>, self: Name, s: SeriesState, room: nat)
    ensures AllShaped(Series(lex, toks, self, s, room).produced)
    decreases |toks|
  {
    if toks == [] || toks[0].End? { return; }
    if toks[0].Data? { SeriesShaped(lex, toks[1..], self, s, room); return; }
    var n := toks[0].name;
    if n.local.PeriodTag? {
      var p := Period(lex, toks[1..], n, ContextOf(s), PERIOD_START, room);
      PeriodShaped(lex, toks[1..], n, ContextOf(s), PERIOD_START, room);
      if p.end.Done? { SeriesShaped(lex, p.end.rest, self, s.(periodSeen := true), room - |p.produced|); }
    } else if Content(toks[1..], n).Some? {
      var el := Content(toks[1..], n).value;
      SeriesShaped(lex, el.rest, self, if IsScalar(n.local) then Scalar(n.local, el.kids, s) else s, room);
    }
  }

  lemma {:induction false} DocumentShaped(lex: Lexis, toks: seq<Token>, open: seq<Name>, root: Tag,
                                          cancelled: nat -> bool, room: nat)
    ensures AllShaped(Document(lex, toks, open, root, cancelled, room).produced)
    decreases |toks|
  {
    if cancelled(|toks|) || toks == [] { return; }
    match toks[0]
    case Data(_) => DocumentShaped(lex, toks[1..], open, root, cancelled, room);
    case End(n) =>
      if open != [] { DocumentShaped(lex, toks[1..], open[..|open| - 1], root, cancelled, room); }
    case Start(n) =>
      if !n.local.TimeSeriesTag? {
        DocumentShaped(lex, toks[1..], open + [n], root, cancelled, room);
      } else {
        var p := Series(lex, toks[1..], n, SERIES_START, room);
        SeriesShaped(lex, toks[1..], n, SERIES_START, room);
        if p.end.Done? { DocumentShaped(lex, p.end.rest, open, root, cancelled, room - |p.produced|); }
      }
  }

  /** Of the six validation rules an ESMP reading can break only three, whatever stamp it carries. */
  lemma OnlyThreeRules(lex: Lexis, toks: seq<Token>, open: seq<Name>, root: Tag,
                       cancelled: nat -> bool, room: nat, r: Reading, id: string, at: int)
    requires r in Document(lex, toks, open, root, cancelled, room).produced
    ensures Valid(r.(sourceId := id, ingestedAt := at))
            <==> (exists c :: c in r.meter && !IsSpace(c)) && r.start != ZERO_TIME && r.value.Finite?
  {
    DocumentShaped(lex, toks, open, root, cancelled, room);
  }
}
