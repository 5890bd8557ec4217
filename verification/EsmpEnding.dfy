/** Where a pass ends: exactly which token streams succeed, and what an element called like the root costs. */
module EsmpEnding {
  import opened Wrappers
  import opened Xml
  import opened Consumption
  import opened EsmpStream
  import opened EsmpTree
  import opened EsmpDocument

  // ----- closed documents -----

  /** A successful pass reads a closed document to its end exactly when no element inside is called like the root. */
  lemma EndsAtRootExactly(lex: Lexis, toks: seq<Token>, root: Name, cancelled: nat -> bool, room: nat)
    requires forall k :: !cancelled(k)
    requires Content(toks, root).Some?
    ensures var run, el := Document(lex, toks, [root], root.local, cancelled, room), Content(toks, root).value;
            run.end.Done? ==> (run.end.rest == el.rest <==> NoInnerRoot(el.kids, root.local))
  {
    hide Document;
    DocumentFollowsTree(lex, toks, root, cancelled, room);
    InnerRootCuts(lex, Content(toks, root).value.kids, root.local);
  }

  predicate Stops(k: Node, root: Tag) {
    k.Elem? && !k.name.local.TimeSeriesTag? && (k.name.local == root || !NoInnerRoot(k.kids, root))
  }

  /** What stands after the first end tag called like the root. */
  function Beyond(kids: seq<Node>, root: Tag): seq<Node> {
    if kids == [] then []
    else if !Stops(kids[0], root) then Beyond(kids[1..], root)
    else BeyondIn(kids[0], root) + kids[1..]
  }

  function BeyondIn(k: Node, root: Tag): seq<Node>
    requires Stops(k, root)
  {
    if NoInnerRoot(k.kids, root) then [] else Beyond(k.kids, root)
  }

  function ReadingsOf(cut: Option<Cut>): Option<seq<Reading>> {
    if cut.None? then None else Some(cut.value.readings)
  }

  /**
   What an element called like the root costs is exactly the readings beyond its end tag: a
   decodable tree is read in full if and only if none stand there.
   */
  lemma LosesWhatIsBeyond(lex: Lexis, kids: seq<Node>, root: Tag)
    ensures TreeDocument(lex, kids) == Join(ReadingsOf(UpTo(lex, kids, root)), TreeDocument(lex, Beyond(kids, root)))
    ensures TreeDocument(lex, kids).Some? ==>
              (UpTo(lex, kids, root).value.readings == TreeDocument(lex, kids).value
               <==> TreeDocument(lex, Beyond(kids, root)) == Some([]))
  {
    SplitsBeyond(lex, kids, root);
    if TreeDocument(lex, kids).Some? {
      var read, lost := UpTo(lex, kids, root).value.readings, TreeDocument(lex, Beyond(kids, root)).value;
      assert |read + lost| == |read| + |lost|;
      if lost == [] { assert read + lost == read; }
    }
  }

  lemma HeadGoesOn(lex: Lexis, k: Node, root: Tag, after: Option<Cut>)
    requires !Stops(k, root)
    ensures ReadingsOf(Then(HeadUpTo(lex, k, root), after)) == Join(Head(lex, k), ReadingsOf(after))
  {
    if k.Elem? { InnerRootCuts(lex, k.kids, root); }
    if k.Text? { JoinEmpty(ReadingsOf(after)); }
  }

  lemma HeadSplits(lex: Lexis, k: Node, root: Tag)
    requires Stops(k, root)
    requires TreeDocument(lex, k.kids)
             == Join(ReadingsOf(UpTo(lex, k.kids, root)), TreeDocument(lex, Beyond(k.kids, root)))
    ensures Head(lex, k) == Join(ReadingsOf(HeadUpTo(lex, k, root)), TreeDocument(lex, BeyondIn(k, root)))
    ensures HeadUpTo(lex, k, root).Some? ==> HeadUpTo(lex, k, root).value.stopped
  {
    hide Beyond, NoInnerRoot;
    InnerRootCuts(lex, k.kids, root);
    JoinEmpty(TreeDocument(lex, k.kids));
    assert TreeDocument(lex, []) == Some([]);
  }

  lemma {:induction false} SplitsBeyond(lex: Lexis, kids: seq<Node>, root: Tag)
    ensures TreeDocument(lex, kids) == Join(ReadingsOf(UpTo(lex, kids, root)), TreeDocument(lex, Beyond(kids, root)))
    decreases kids
  {
    hide NoInnerRoot, Stops, HeadUpTo, Head, BeyondIn;
    if kids == [] {
      JoinEmpty(Some([]));
      return;
    }
    var k, ks := kids[0], kids[1..];
    if !Stops(k, root) {
      SplitsBeyond(lex, ks, root);
      HeadGoesOn(lex, k, root, UpTo(lex, ks, root));
      JoinAssociates(Head(lex, k), ReadingsOf(UpTo(lex, ks, root)), TreeDocument(lex, Beyond(ks, root)));
    } else {
      StopsIsElem(k, root);
      SplitsBeyond(lex, k.kids, root);
      HeadSplits(lex, k, root);
      var lost := BeyondIn(k, root);
      JoinAssociates(ReadingsOf(HeadUpTo(lex, k, root)), TreeDocument(lex, lost), TreeDocument(lex, ks));
      TreeDocumentAppend(lex, lost, ks);
    }
  }

  lemma StopsIsElem(k: Node, root: Tag)
    requires Stops(k, root)
    ensures k.Elem?
  {
  }

  /** Such a loss: a closed document whose TimeSeries all follow an empty element called like the root. */
  lemma InnerRootLosesReadings(lex: Lexis, root: Name, series: seq<Node>, after: seq<Token>,
                               cancelled: nat -> bool, room: nat)
    requires forall k :: !cancelled(k)
    requires !root.local.TimeSeriesTag?
    requires TreeSeries(lex, series).Some? && TreeSeries(lex, series).value != []
    ensures var kids := [Elem(root, []), Elem(Name("", TimeSeriesTag), series)];
            var run := Document(lex, PrintAll(kids) + [End(root)] + after, [root], root.local, cancelled, room);
            && TreeDocument(lex, kids) == TreeSeries(lex, series)
            && run.end.Done? && run.produced == []
  {
    hide Document, TreeSeries;
    var inner, last := Elem(root, []), Elem(Name("", TimeSeriesTag), series);
    var kids := [inner, last];
    ContentOfPrint(kids, root, after);
    DocumentFollowsTree(lex, PrintAll(kids) + [End(root)] + after, root, cancelled, room);
    assert kids[1..] == [last] && [last][1..] == [];
    assert TreeDocument(lex, [last]) == Join(TreeSeries(lex, series), Some([]));
    assert Head(lex, inner) == TreeDocument(lex, []) == Some([]);
    JoinEmpty(TreeSeries(lex, series));
    assert HeadUpTo(lex, inner, root.local) == Closed(UpTo(lex, [], root.local), true);
    assert UpTo(lex, kids, root.local) == Some(Cut([], true));
  }

  // ----- any token stream -----

  /** What is read up to and including the end tag that ends the pass, the elements it leaves open, and what follows. */
  datatype Stop = Stop(read: seq<Token>, open: seq<Name>, rest: seq<Token>)

  function Further(more: seq<Token>, s: Option<Stop>): Option<Stop> {
    if s.None? then None else Some(s.value.(read := more + s.value.read))
  }

  /** The first end tag called like the root outside every TimeSeries, on properly nested tokens. */
  function FirstStop(toks: seq<Token>, open: seq<Name>, root: Tag): Option<Stop>
    decreases |toks|
  {
    if toks == [] then None
    else match toks[0]
         case Data(_) => Further([toks[0]], FirstStop(toks[1..], open, root))
         case End(n) =>
           if open == [] || open[|open| - 1] != n then None
           else if n.local == root then Some(Stop([End(n)], open[..|open| - 1], toks[1..]))
           else Further([toks[0]], FirstStop(toks[1..], open[..|open| - 1], root))
         case Start(n) =>
           if !n.local.TimeSeriesTag? then Further([toks[0]], FirstStop(toks[1..], open + [n], root))
           else match Content(toks[1..], n)
                case None => None
                case Some(el) => Further(Print(Elem(n, el.kids)), FirstStop(el.rest, open, root))
  }

  /** A stop of toks: what is read ends in an end tag called like the root, and the rest follows. */
  predicate Splits(toks: seq<Token>, s: Stop, root: Tag) {
    toks == s.read + s.rest && s.read != [] && IsEnd(s.read[|s.read| - 1], root)
  }

  lemma FurtherSplits(more: seq<Token>, toks: seq<Token>, s: Stop, root: Tag)
    requires Splits(toks, s, root)
    ensures Splits(more + toks, Further(more, Some(s)).value, root)
  {
    assert more + (s.read + s.rest) == (more + s.read) + s.rest;
    assert (more + s.read)[|more + s.read| - 1] == s.read[|s.read| - 1];
  }

  lemma {:induction false} StopSplits(toks: seq<Token>, open: seq<Name>, root: Tag)
    requires FirstStop(toks, open, root).Some?
    ensures Splits(toks, FirstStop(toks, open, root).value, root)
    decreases |toks|
  {
    hide Print, Content, Splits;
    assert toks == [toks[0]] + toks[1..];
    if toks[0].Start? && toks[0].name.local.TimeSeriesTag? {
      var el := Content(toks[1..], toks[0].name).value;
      StopSplits(el.rest, open, root);
      SpanIsRead(toks, toks[0].name);
      FurtherSplits(Print(Elem(toks[0].name, el.kids)), el.rest, FirstStop(el.rest, open, root).value, root);
    } else if toks[0].End? && toks[0].name.local == root {
      TagSplits(toks, open, root);
    } else {
      var next := match toks[0]
                  case Data(_) => open
                  case End(_) => open[..|open| - 1]
                  case Start(n) => open + [n];
      StopSplits(toks[1..], next, root);
      FurtherSplits([toks[0]], toks[1..], FirstStop(toks[1..], next, root).value, root);
    }
  }

  lemma TagSplits(toks: seq<Token>, open: seq<Name>, root: Tag)
    requires FirstStop(toks, open, root).Some? && toks[0].End? && toks[0].name.local == root
    ensures Splits(toks, FirstStop(toks, open, root).value, root)
  {
    assert toks == [toks[0]] + toks[1..];
  }

  predicate IsEnd(t: Token, root: Tag) {
    t.End? && t.name.local == root
  }

  lemma SpanIsRead(toks: seq<Token>, n: Name)
    requires toks != [] && toks[0] == Start(n) && Content(toks[1..], n).Some?
    ensures var el := Content(toks[1..], n).value; toks == Print(Elem(n, el.kids)) + el.rest
  {
    hide Content, PrintAll;
    var kids := Content(toks[1..], n).value.kids;
    PrintOfContent(toks[1..], n);
    assert Print(Elem(n, kids)) == [Start(n)] + (PrintAll(kids) + [End(n)]);
  }

  /** The end tags that close what is open, innermost first. */
  function Ends(open: seq<Name>): seq<Token> {
    if open == [] then [] else [End(open[|open| - 1])] + Ends(open[..|open| - 1])
  }

  /** What was read, completed to a whole document. */
  function Completed(s: Stop): seq<Token> {
    s.read + Ends(s.open)
  }

  /** The tokens close all that is open, and nothing follows. */
  predicate Closes(toks: seq<Token>, open: seq<Name>)
    decreases |open|
  {
    if open == [] then toks == []
    else
      var el := Content(toks, open[|open| - 1]);
      el.Some? && Closes(el.value.rest, open[..|open| - 1])
  }

  lemma {:induction false} EndsClose(open: seq<Name>)
    ensures Closes(Ends(open), open)
    decreases |open|
  {
    if open != [] {
      EndsClose(open[..|open| - 1]);
      assert Ends(open)[1..] == Ends(open[..|open| - 1]);
    }
  }

  lemma SpanSwaps(toks: seq<Token>, n: Name, read: seq<Token>, other: seq<Token>)
    requires toks != [] && Content(toks[1..], n).Some?
    ensures var kids := Content(toks[1..], n).value.kids;
            var swapped := Print(Elem(n, kids)) + read + other;
            && swapped != [] && swapped[0] == Start(n)
            && Content(swapped[1..], n) == Some(Element(kids, read + other))
  {
    hide Content;
    var kids := Content(toks[1..], n).value.kids;
    var swapped := Print(Elem(n, kids)) + read + other;
    ContentOfPrint(kids, n, read + other);
    assert Print(Elem(n, kids)) == [Start(n)] + (PrintAll(kids) + [End(n)]);
    assert swapped[1..] == PrintAll(kids) + [End(n)] + (read + other);
  }

  /** The completed tokens are a whole document. */
  lemma {:induction false} CompletedCloses(toks: seq<Token>, open: seq<Name>, root: Tag)
    requires open != [] && open[0].local == root && FirstStop(toks, open, root).Some?
    ensures Closes(Completed(FirstStop(toks, open, root).value), open)
    decreases |toks|
  {
    hide Print, PrintAll, Ends;
    var all := Completed(FirstStop(toks, open, root).value);
    match toks[0]
    case Data(_) =>
      CompletedCloses(toks[1..], open, root);
      assert all[1..] == Completed(FirstStop(toks[1..], open, root).value);
    case End(n) =>
      var outer := open[..|open| - 1];
      if n.local == root {
        EndsClose(outer);
        assert all[1..] == Ends(outer);
      } else {
        CompletedCloses(toks[1..], outer, root);
        assert all[1..] == Completed(FirstStop(toks[1..], outer, root).value);
      }
    case Start(n) =>
      if !n.local.TimeSeriesTag? {
        CompletedCloses(toks[1..], open + [n], root);
        assert all[1..] == Completed(FirstStop(toks[1..], open + [n], root).value);
        assert (open + [n])[..|open|] == open;
      } else {
        var el := Content(toks[1..], n).value;
        var next := FirstStop(el.rest, open, root).value;
        CompletedCloses(el.rest, open, root);
        SpanSwaps(toks, n, next.read, Ends(next.open));
      }
  }

  /** Without such an end tag a pass fails, however far it got and however it is cancelled. */
  lemma {:induction false} NoStopFails(lex: Lexis, toks: seq<Token>, open: seq<Name>, root: Tag,
                                       cancelled: nat -> bool, room: nat)
    requires FirstStop(toks, open, root).None?
    ensures Document(lex, toks, open, root, cancelled, room).end.Failed?
    decreases |toks|
  {
    hide Series, TreeSeriesFrom;
    if cancelled(|toks|) || toks == [] { return; }
    match toks[0]
    case Data(_) => NoStopFails(lex, toks[1..], open, root, cancelled, room);
    case End(n) =>
      if open != [] && open[|open| - 1] == n && n.local != root {
        NoStopFails(lex, toks[1..], open[..|open| - 1], root, cancelled, room);
      }
    case Start(n) =>
      if !n.local.TimeSeriesTag? {
        NoStopFails(lex, toks[1..], open + [n], root, cancelled, room);
      } else {
        var p := Series(lex, toks[1..], n, SERIES_START, room);
        SeriesAgrees(lex, toks[1..], n, SERIES_START, room);
        if p.end.Done? { NoStopFails(lex, p.end.rest, open, root, cancelled, room - |p.produced|); }
      }
  }

  /** Two runs that end the same way but for what follows. */
  predicate SameButRest(a: Run, restA: seq<Token>, b: Run, restB: seq<Token>) {
    && (a.end.Done? <==> b.end.Done?)
    && (a.end.Done? ==> a.produced == b.produced && a.end.rest == restA && b.end.rest == restB)
  }

  /** At a TimeSeries the pass does what its tree says and goes on after it. */
  lemma SeriesDecides(lex: Lexis, toks: seq<Token>, after: seq<Token>, n: Name, open: seq<Name>, root: Tag,
                      cancelled: nat -> bool, room: nat)
    requires forall k :: !cancelled(k)
    requires toks != [] && toks[0] == Start(n) && n.local.TimeSeriesTag?
    requires Content(toks[1..], n).Some? && Content(toks[1..], n).value.rest == after
    ensures var run := Document(lex, toks, open, root, cancelled, room);
            var tree := TreeSeries(lex, Content(toks[1..], n).value.kids);
            if tree.Some? && |tree.value| <= room
            then run == Document(lex, after, open, root, cancelled, room - |tree.value|).After(tree.value)
            else run.end.Failed?
  {
    hide Document, Content, PrintAll;
    var inner := Content(toks[1..], n).value.kids;
    PrintOfContent(toks[1..], n);
    assert toks == [Start(n)] + (PrintAll(inner) + [End(n)] + after);
    DocumentAtSeries(lex, n, inner, after, open, root, cancelled, room);
  }

  /** The run ends alike, whatever follows the first stop. */
  predicate Alike(lex: Lexis, toks: seq<Token>, other: seq<Token>, open: seq<Name>, root: Tag,
                  cancelled: nat -> bool, room: nat)
    requires FirstStop(toks, open, root).Some?
  {
    var s := FirstStop(toks, open, root).value;
    SameButRest(Document(lex, toks, open, root, cancelled, room), s.rest,
                Document(lex, s.read + other, open, root, cancelled, room), other)
  }

  lemma SeriesSwaps(lex: Lexis, toks: seq<Token>, other: seq<Token>, n: Name, open: seq<Name>, root: Tag,
                    cancelled: nat -> bool, room: nat)
    requires forall k :: !cancelled(k)
    requires toks != [] && toks[0] == Start(n) && n.local.TimeSeriesTag?
    requires FirstStop(toks, open, root).Some? && Content(toks[1..], n).Some?
    requires var el := Content(toks[1..], n).value;
             var tree := TreeSeries(lex, el.kids);
             && FirstStop(el.rest, open, root).Some?
             && (tree.Some? && |tree.value| <= room ==>
                   Alike(lex, el.rest, other, open, root, cancelled, room - |tree.value|))
    ensures Alike(lex, toks, other, open, root, cancelled, room)
  {
    hide Document, Series, Content, Print, PrintAll, TreeSeries;
    var el := Content(toks[1..], n).value;
    var next := FirstStop(el.rest, open, root).value;
    var swapped := FirstStop(toks, open, root).value.read + other;
    SeriesDecides(lex, toks, el.rest, n, open, root, cancelled, room);
    SpanSwaps(toks, n, next.read, other);
    SeriesDecides(lex, swapped, next.read + other, n, open, root, cancelled, room);
  }

  /** The token t neither ends the pass nor starts a TimeSeries; after it `next` is open. */
  predicate Passes(t: Token, open: seq<Name>, next: seq<Name>, root: Tag) {
    match t
    case Data(_) => next == open
    case End(n) => open != [] && open[|open| - 1] == n && n.local != root && next == open[..|open| - 1]
    case Start(n) => !n.local.TimeSeriesTag? && next == open + [n]
  }

  lemma PassesOn(lex: Lexis, t: Token, tail: seq<Token>, open: seq<Name>, next: seq<Name>, root: Tag,
                 cancelled: nat -> bool, room: nat)
    requires forall k :: !cancelled(k)
    requires Passes(t, open, next, root)
    ensures Document(lex, [t] + tail, open, root, cancelled, room) == Document(lex, tail, next, root, cancelled, room)
    ensures FirstStop([t] + tail, open, root) == Further([t], FirstStop(tail, next, root))
  {
    assert ([t] + tail)[1..] == tail;
  }

  lemma TokenSwaps(lex: Lexis, toks: seq<Token>, other: seq<Token>, open: seq<Name>, next: seq<Name>, root: Tag,
                   cancelled: nat -> bool, room: nat)
    requires forall k :: !cancelled(k)
    requires toks != [] && Passes(toks[0], open, next, root)
    requires FirstStop(toks[1..], next, root).Some? && Alike(lex, toks[1..], other, next, root, cancelled, room)
    ensures FirstStop(toks, open, root).Some? && Alike(lex, toks, other, open, root, cancelled, room)
  {
    hide Document, FirstStop;
    var read := FirstStop(toks[1..], next, root).value.read;
    assert toks == [toks[0]] + toks[1..];
    assert [toks[0]] + read + other == [toks[0]] + (read + other);
    PassesOn(lex, toks[0], toks[1..], open, next, root, cancelled, room);
    PassesOn(lex, toks[0], read + other, open, next, root, cancelled, room);
  }

  /** What follows the first stop does not matter. */
  lemma {:induction false} ReadDecides(lex: Lexis, toks: seq<Token>, other: seq<Token>, open: seq<Name>, root: Tag,
                                       cancelled: nat -> bool, room: nat)
    requires forall k :: !cancelled(k)
    requires FirstStop(toks, open, root).Some?
    ensures Alike(lex, toks, other, open, root, cancelled, room)
    decreases |toks|
  {
    hide Document, Alike, Content, TreeSeries;
    if toks[0].Start? && toks[0].name.local.TimeSeriesTag? {
      var el := Content(toks[1..], toks[0].name).value;
      var tree := TreeSeries(lex, el.kids);
      if tree.Some? && |tree.value| <= room {
        ReadDecides(lex, el.rest, other, open, root, cancelled, room - |tree.value|);
      }
      SeriesSwaps(lex, toks, other, toks[0].name, open, root, cancelled, room);
    } else if toks[0].End? && toks[0].name.local == root {
      StopIsAlike(lex, toks, other, open, root, cancelled, room);
    } else {
      var next := match toks[0]
                  case Data(_) => open
                  case End(_) => open[..|open| - 1]
                  case Start(n) => open + [n];
      ReadDecides(lex, toks[1..], other, next, root, cancelled, room);
      TokenSwaps(lex, toks, other, open, next, root, cancelled, room);
    }
  }

  lemma StopIsAlike(lex: Lexis, toks: seq<Token>, other: seq<Token>, open: seq<Name>, root: Tag,
                    cancelled: nat -> bool, room: nat)
    requires forall k :: !cancelled(k)
    requires FirstStop(toks, open, root).Some? && toks[0].End? && toks[0].name.local == root
    ensures Alike(lex, toks, other, open, root, cancelled, room)
  {
    assert ([toks[0]] + other)[1..] == other;
  }

  /** The readings up to the first stop, by the tree of what was read. */
  function ReadUpTo(lex: Lexis, s: Stop, root: Name): Option<Cut> {
    var el := Content(Completed(s), root);
    if el.None? then None else UpTo(lex, el.value.kids, root.local)
  }

  /**
   On every token stream: an uncancelled pass succeeds exactly when the tokens, properly
   nested, reach an end tag called like the root outside every TimeSeries, and the document
   they are once completed decodes up to there within the cap. It yields those readings and
   stops right after that tag.
   */
  lemma DocumentExactly(lex: Lexis, toks: seq<Token>, root: Name, cancelled: nat -> bool, room: nat)
    requires forall k :: !cancelled(k)
    ensures var run := Document(lex, toks, [root], root.local, cancelled, room);
            var stop := FirstStop(toks, [root], root.local);
            && (stop.Some? ==> Splits(toks, stop.value, root.local) && Closes(Completed(stop.value), [root]))
            && (run.end.Done? <==>
                  stop.Some? && var cut := ReadUpTo(lex, stop.value, root);
                                cut.Some? && |cut.value.readings| <= room)
            && (run.end.Done? ==>
                  run.produced == ReadUpTo(lex, stop.value, root).value.readings && run.end.rest == stop.value.rest)
  {
    hide Document, FirstStop, UpTo;
    var stop := FirstStop(toks, [root], root.local);
    if stop.None? {
      NoStopFails(lex, toks, [root], root.local, cancelled, room);
    } else {
      StopSplits(toks, [root], root.local);
      CompletedCloses(toks, [root], root.local);
      ReadDecides(lex, toks, Ends(stop.value.open), [root], root.local, cancelled, room);
      DocumentFollowsTree(lex, Completed(stop.value), root, cancelled, room);
    }
  }

  /** Success does not mean that the root was closed: an inner element called like it is enough. */
  lemma UnclosedCanSucceed(lex: Lexis, root: Name, cancelled: nat -> bool, room: nat)
    requires forall k :: !cancelled(k)
    requires !root.local.TimeSeriesTag?
    ensures Content([Start(root), End(root)], root).None?
    ensures Document(lex, [Start(root), End(root)], [root], root.local, cancelled, room) == Run([], Done([]))
  {
    var toks := [Start(root), End(root)];
    assert toks[1..] == [End(root)] && [End(root)][1..] == [];
    assert ([root] + [root])[..1] == [root];
  }
}
