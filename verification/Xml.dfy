/**
 Go's `encoding/xml` decoder, from its tokens up: a cursor that checks tag nesting itself,
 over an arbitrary token sequence.
 */
module Xml {
  import opened Wrappers
  import opened Errors

  // Local names are only ever compared with these; any other one is OtherTag.
  datatype Tag =
    | DocumentTag      // GL_MarketDocument
    | TimeSeriesTag
    | MridTag
    | BusinessTypeTag
    | UnitTag          // quantity_Measure_Unit.name
    | MarketPointTag   // MarketEvaluationPoint
    | PeriodTag
    | IntervalTag      // timeInterval
    | StartTag
    | ResolutionTag
    | PointTag
    | PositionTag
    | QuantityTag
    | QualityTag
    | OtherTag(text: string)

  datatype Name = Name(space: string, local: Tag)

  // A comment, directive or processing instruction is Data(""): it carries no text.
  datatype Token = Start(name: Name) | End(name: Name) | Data(text: string)

  datatype Node = Elem(name: Name, kids: seq<Node>) | Text(text: string)

  /** What one payload lexes to: its tokens, and whether the bytes end without a lexical error. */
  datatype Input = Input(toks: seq<Token>, clean: bool)

  datatype Element = Element(kids: seq<Node>, rest: seq<Token>)

  /** The children up to the end tag of `self`, or None when that tag never matches. */
  function Content(toks: seq<Token>, self: Name): (r: Option<Element>)
    ensures r.Some? ==> |r.value.rest| < |toks|
    decreases |toks|
  {
    if toks == [] then None
    else match toks[0]
         case End(n) => if n == self then Some(Element([], toks[1..])) else None
         case Data(s) => Before(Text(s), Content(toks[1..], self))
         case Start(n) =>
           match Content(toks[1..], n)
           case None => None
           case Some(inner) => Before(Elem(n, inner.kids), Content(inner.rest, self))
  }

  function Before(k: Node, after: Option<Element>): Option<Element> {
    if after.None? then None else Some(Element([k] + after.value.kids, after.value.rest))
  }

  function Print(k: Node): seq<Token> {
    match k
    case Text(s) => [Data(s)]
    case Elem(n, kids) => [Start(n)] + PrintAll(kids) + [End(n)]
  }

  function PrintAll(kids: seq<Node>): seq<Token> {
    if kids == [] then [] else Print(kids[0]) + PrintAll(kids[1..])
  }

  /** Reading inverts printing, whatever follows the element. */
  lemma {:induction false} ContentOfPrint(kids: seq<Node>, self: Name, rest: seq<Token>)
    ensures Content(PrintAll(kids) + [End(self)] + rest, self) == Some(Element(kids, rest))
    decreases kids
  {
    var toks := PrintAll(kids) + [End(self)] + rest;
    if kids == [] {
      assert toks[1..] == rest;
    } else {
      var after := PrintAll(kids[1..]) + [End(self)] + rest;
      ContentOfPrint(kids[1..], self, rest);
      assert kids == [kids[0]] + kids[1..];
      assert toks == Print(kids[0]) + after;
      match kids[0]
      case Text(s) =>
        assert toks[1..] == after;
      case Elem(n, inner) =>
        ContentOfPrint(inner, n, after);
        assert Print(kids[0]) == [Start(n)] + (PrintAll(inner) + [End(n)]);
        assert toks[1..] == PrintAll(inner) + [End(n)] + after;
    }
  }

  /** Printing inverts reading: a read consumes exactly one balanced span. */
  lemma {:induction false} PrintOfContent(toks: seq<Token>, self: Name)
    requires Content(toks, self).Some?
    ensures var el := Content(toks, self).value;
            toks == PrintAll(el.kids) + [End(self)] + el.rest
    decreases |toks|
  {
    hide PrintAll;
    var el := Content(toks, self).value;
    match toks[0]
    case End(_) => PrintNone();
    case Data(s) =>
      var after := Content(toks[1..], self).value;
      PrintOfContent(toks[1..], self);
      PrintCons(Text(s), after.kids);
    case Start(n) =>
      var inner := Content(toks[1..], n).value;
      var after := Content(inner.rest, self).value;
      PrintOfContent(toks[1..], n);
      PrintOfContent(inner.rest, self);
      PrintCons(Elem(n, inner.kids), after.kids);
      assert toks == [Start(n)] + (PrintAll(inner.kids) + [End(n)] + inner.rest);
  }

  lemma PrintNone()
    ensures PrintAll([]) == []
  {
  }

  lemma PrintCons(k: Node, ks: seq<Node>)
    ensures PrintAll([k] + ks) == Print(k) + PrintAll(ks)
  {
    assert ([k] + ks)[1..] == ks;
  }

  predicate IsElem(k: Node, local: Tag) {
    k.Elem? && k.name.local == local
  }

  /** The children of the last child element called `local`. */
  function Last(kids: seq<Node>, local: Tag): Option<seq<Node>> {
    if kids == [] then None
    else if Last(kids[1..], local).Some? then Last(kids[1..], local)
    else if IsElem(kids[0], local) then Some(kids[0].kids)
    else None
  }

  /** The character data directly inside an element; nested elements contribute nothing. */
  function TextOf(kids: seq<Node>): string {
    if kids == [] then ""
    else (if kids[0].Text? then kids[0].text else "") + TextOf(kids[1..])
  }

  /** A string field of a struct: the last matching child decides, an absent one leaves the zero value. */
  function Field(kids: seq<Node>, local: Tag): string {
    match Last(kids, local)
    case Some(inner) => TextOf(inner)
    case None => ""
  }

  /** Every child called `local` converts. */
  predicate Converts<T>(kids: seq<Node>, local: Tag, parse: string -> Option<T>) {
    forall k :: k in kids && IsElem(k, local) ==> parse(TextOf(k.kids)).Some?
  }

  lemma {:induction false} LastIsAChild(kids: seq<Node>, local: Tag)
    requires Last(kids, local).Some?
    ensures exists k :: k in kids && IsElem(k, local) && k.kids == Last(kids, local).value
  {
    if Last(kids[1..], local).Some? {
      LastIsAChild(kids[1..], local);
    } else {
      assert kids[0] in kids;
    }
  }

  class Decoder {
    var toks: seq<Token>      // what is still to be read
    var open: seq<Name>       // elements started and not yet ended, outermost first
    const clean: bool

    constructor (input: Input)
      ensures toks == input.toks && open == [] && clean == input.clean
    {
      toks, open, clean := input.toks, [], input.clean;
    }

    /** Token: delivers the next token, or fails at the end of input and on a mismatched end tag. */
    method Token() returns (tok: Option<Token>, err: Error)
      modifies this
      ensures tok.Some? ==> old(toks) == [tok.value] + toks
      ensures tok.Some? && tok.value.Start? ==> open == old(open) + [tok.value.name]
      ensures tok.Some? && tok.value.Data? ==> open == old(open)
      ensures tok.Some? && tok.value.End? ==> old(open) == open + [tok.value.name]
      ensures tok.None? <==>
              || old(toks) == []
              || (old(toks)[0].End? && (old(open) == [] || old(open)[|old(open)| - 1] != old(toks)[0].name))
      ensures err == if old(toks) == [] && old(open) == [] && clean then Eof else Plain
    {
      err := if toks == [] && open == [] && clean then Eof else Plain;
      if toks == [] {
        return None, err;
      }
      var t := toks[0];
      if t.End? {
        if open == [] || open[|open| - 1] != t.name {
          return None, err;
        }
        open := open[..|open| - 1];
      } else if t.Start? {
        open := open + [t.name];
      }
      toks := toks[1..];
      tok := Some(t);
    }

    /** DecodeElement and Skip: consume the rest of the element just started. */
    method Element() returns (kids: Option<seq<Node>>)
      requires open != []
      modifies this
      ensures var el := Content(old(toks), old(open)[|old(open)| - 1]);
              if el.Some?
              then kids == Some(el.value.kids) && toks == el.value.rest && open == old(open)[..|old(open)| - 1]
              else kids == None
    {
      var el := Content(toks, open[|open| - 1]);
      if el.None? {
        return None;
      }
      toks, open := el.value.rest, open[..|open| - 1];
      kids := Some(el.value.kids);
    }
  }
}
