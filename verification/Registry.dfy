/** Root-element dispatch, on the cursor the parser then continues from. */
module Registry {
  import opened Wrappers
  import opened Errors
  import opened Xml
  import opened EsmpParser

  datatype Opened = Found(parser: Esmp, root: Name, rest: seq<Token>) | Refused(error: Error)

  /** What the first start element of a document selects. */
  function Open(parsers: map<Name, Esmp>, toks: seq<Token>, clean: bool): Opened {
    if toks == [] then Refused(if clean then MALFORMED else MALFORMED_BY)
    else match toks[0]
         case Data(_) => Open(parsers, toks[1..], clean)
         case End(_) => Refused(MALFORMED_BY)
         case Start(n) => if n in parsers then Found(parsers[n], n, toks[1..]) else Refused(UNKNOWN_FORMAT)
  }

  /** The prolog is skipped, whatever it is; the full name of the root decides. */
  lemma {:induction false} RootDecides(parsers: map<Name, Esmp>, prolog: seq<Token>, root: Name, rest: seq<Token>,
                                       clean: bool)
    requires forall t :: t in prolog ==> t.Data?
    ensures Open(parsers, prolog + [Start(root)] + rest, clean)
            == if root in parsers then Found(parsers[root], root, rest) else Refused(UNKNOWN_FORMAT)
  {
    var toks := prolog + [Start(root)] + rest;
    if prolog == [] {
      assert toks[1..] == rest;
    } else {
      assert toks[0] == prolog[0] && prolog[0] in prolog;
      assert toks[1..] == prolog[1..] + [Start(root)] + rest;
      RootDecides(parsers, prolog[1..], root, rest, clean);
    }
  }

  /** A refusal is permanent: a malformed document or an unknown format, never transient. */
  lemma {:induction false} RefusalIsPermanent(parsers: map<Name, Esmp>, toks: seq<Token>, clean: bool)
    ensures var o := Open(parsers, toks, clean);
            o.Refused? ==> !Is(o.error, Transient) && (Is(o.error, Malformed) || Is(o.error, UnknownFormat))
  {
    FixedClasses();
    if toks != [] && toks[0].Data? { RefusalIsPermanent(parsers, toks[1..], clean); }
  }

  /** The name of the first start element, if no end tag stands before it. */
  function RootOf(toks: seq<Token>): Option<Name> {
    if toks == [] || toks[0].End? then None
    else if toks[0].Start? then Some(toks[0].name)
    else RootOf(toks[1..])
  }

  /**
   A document is opened exactly when its root is registered; without a root it is malformed,
   else of unknown format.
   */
  lemma {:induction false} OpensExactly(parsers: map<Name, Esmp>, toks: seq<Token>, clean: bool)
    ensures var o, root := Open(parsers, toks, clean), RootOf(toks);
            && (o.Found? <==> root.Some? && root.value in parsers)
            && (o.Found? ==> o.root == root.value && o.parser == parsers[root.value])
            && (o.Refused? ==> (Is(o.error, Malformed) <==> root.None?) && (Is(o.error, UnknownFormat) <==> root.Some?))
  {
    RefusalsDiffer();
    if toks != [] && toks[0].Data? { OpensExactly(parsers, toks[1..], clean); }
  }

  lemma {:induction false} OpenedIsRegistered(parsers: map<Name, Esmp>, toks: seq<Token>, clean: bool)
    requires Open(parsers, toks, clean).Found?
    ensures Open(parsers, toks, clean).root in parsers
    ensures Open(parsers, toks, clean).parser == parsers[Open(parsers, toks, clean).root]
  {
    if toks[0].Data? { OpenedIsRegistered(parsers, toks[1..], clean); }
  }

  class Registry {
    var parsers: map<Name, Esmp>

    constructor ()
      ensures parsers == map[]
    {
      parsers := map[];
    }

    /** Registering an element again replaces its parser. */
    method Register(name: Name, p: Esmp)
      modifies this
      ensures parsers == old(parsers)[name := p]
    {
      parsers := parsers[name := p];
    }

    /** Advances the decoder past the first start element and selects its parser. */
    method For(d: Decoder) returns (found: Option<Esmp>, root: Name, err: Error)
      requires d.open == []
      modifies d
      ensures var o := Open(parsers, old(d.toks), d.clean);
              if o.Found?
              then found == Some(o.parser) && root == o.root && d.toks == o.rest && d.open == [o.root]
              else found == None && err == o.error
    {
      root, err := Name("", OtherTag("")), MALFORMED;
      while true
        invariant d.open == [] && Open(parsers, d.toks, d.clean) == Open(parsers, old(d.toks), d.clean)
        decreases |d.toks|
      {
        var tok, failure := d.Token();
        if tok.None? {
          return None, root, if failure == Eof then MALFORMED else MALFORMED_BY;
        }
        if tok.value.Start? {
          root := tok.value.name;
          if root !in parsers {
            return None, root, UNKNOWN_FORMAT;
          }
          return Some(parsers[root]), root, err;
        }
      }
    }
  }
}
