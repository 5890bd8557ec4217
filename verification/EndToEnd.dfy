/** From the document in a message to the rows the view shows. */
module EndToEnd {
  import opened Xml
  import opened Consumption
  import opened Interval
  import opened Wire
  import opened EsmpStream
  import opened EsmpDocument
  import opened EsmpEnding
  import opened View
  import opened EsmpParser
  import opened Registry
  import opened Handler
  import opened Delivery
  import opened Convergence
  import opened Refinement

  /** The document a message holds: an element of a registered format, as its tree. */
  predicate Holds(codec: Codec, parsers: map<Name, Esmp>, bytes: seq<nat>, id: string, doc: Node) {
    && codec.unmarshal(bytes).Some? && codec.unmarshal(bytes).value.id == id
    && doc.Elem?
    && var o := Opens(codec, parsers, codec.unmarshal(bytes).value);
       o.Found? && o.root == doc.name && Content(o.rest, o.root).Some? && Content(o.rest, o.root).value.kids == doc.kids
  }

  /** What the protocol knows of a message is what the tree of its document means. */
  lemma MailIsTree(codec: Codec, parsers: map<Name, Esmp>, bytes: seq<nat>, id: string, doc: Node)
    requires Holds(codec, parsers, bytes, id, doc) && NoInnerRoot(doc.kids, doc.name.local)
    ensures var mail, tree := MailIn(codec, parsers, bytes), TreeDocument(codec.lex, doc.kids);
            && mail.id == id
            && (mail.end.None? <==> tree.Some? && |tree.value| <= MAX_READINGS)
            && (mail.end.None? ==> mail.produced == tree.value)
  {
    hide Document, Content, TreeDocument, Open;
    var o := Opens(codec, parsers, codec.unmarshal(bytes).value);
    DocumentEqualsTree(codec.lex, o.rest, o.root, _ => false, MAX_READINGS);
  }

  /** What the protocol knows of any message whose document could be opened. */
  lemma MailIsRead(codec: Codec, parsers: map<Name, Esmp>, bytes: seq<nat>)
    requires MailIn(codec, parsers, bytes).end.None?
    ensures codec.unmarshal(bytes).Some? && Opens(codec, parsers, codec.unmarshal(bytes).value).Found?
    ensures var mail, o := MailIn(codec, parsers, bytes), Opens(codec, parsers, codec.unmarshal(bytes).value);
            var stop := FirstStop(o.rest, [o.root], o.root.local);
            && mail.id == codec.unmarshal(bytes).value.id
            && stop.Some? && ReadUpTo(codec.lex, stop.value, o.root).Some?
            && mail.produced == ReadUpTo(codec.lex, stop.value, o.root).value.readings
  {
    hide Document, Content, Open, FirstStop, ReadUpTo;
    var o := Opens(codec, parsers, codec.unmarshal(bytes).value);
    DocumentExactly(codec.lex, o.rest, o.root, _ => false, MAX_READINGS);
  }

  lemma StoredIsDelivered(inbox: seq<Mail>, limit: nat, steps: seq<Step>, w: World, m: nat) returns (time: int)
    requires Runs(inbox, Initial(inbox, limit), steps, w) && m < |inbox| && m < |w.fate| && w.fate[m] == Stored
    ensures inbox[m].end.None?
    ensures forall r :: r in inbox[m].produced ==> ToRow(r.(sourceId := inbox[m].id, ingestedAt := time)) in w.table
  {
    hide Plan, Kept, Traced, Runs, ToRow;
    InitialInvariant(inbox, limit);
    RunsKeepInvariant(inbox, Initial(inbox, limit), steps, w);
    assert Caused(inbox, w, m);
    var i: nat :| i < |w.births| && w.births[i].mail == m && w.at[i].Answered204?;
    AnsweredIsComplete(inbox, w, i);
    StoredIsDurable(inbox, w, i);
    time := w.births[i].at;
    forall r | r in inbox[m].produced ensures ToRow(r.(sourceId := inbox[m].id, ingestedAt := time)) in w.table {
      assert RowAt(inbox[m], time, r) in w.table;
    }
  }

  /**
   Whatever a message holds: if it was acknowledged as stored, in whatever run, its tokens
   reach an end tag called like their root, what stands before it decodes, and every reading of
   that is a row of the table.
   */
  lemma StoredIsWhatWasRead(inbox: seq<Mail>, limit: nat, steps: seq<Step>, w: World, m: nat,
                            codec: Codec, parsers: map<Name, Esmp>, bytes: seq<nat>) returns (time: int)
    requires Runs(inbox, Initial(inbox, limit), steps, w) && m < |inbox| && m < |w.fate| && w.fate[m] == Stored
    requires inbox[m] == MailIn(codec, parsers, bytes)
    ensures codec.unmarshal(bytes).Some? && Opens(codec, parsers, codec.unmarshal(bytes).value).Found?
    ensures var msg := codec.unmarshal(bytes).value;
            var o := Opens(codec, parsers, msg);
            var stop := FirstStop(o.rest, [o.root], o.root.local);
            && stop.Some? && ReadUpTo(codec.lex, stop.value, o.root).Some?
            && forall r :: r in ReadUpTo(codec.lex, stop.value, o.root).value.readings ==>
                             ToRow(r.(sourceId := msg.id, ingestedAt := time)) in w.table
  {
    hide MailIn, FirstStop, ReadUpTo, Runs, ToRow;
    time := StoredIsDelivered(inbox, limit, steps, w, m);
    MailIsRead(codec, parsers, bytes);
  }

  /** A closed document without an inner element called like the root is stored as its whole tree. */
  lemma StoredIsTheDocument(inbox: seq<Mail>, limit: nat, steps: seq<Step>, w: World, m: nat,
                            codec: Codec, parsers: map<Name, Esmp>, bytes: seq<nat>, id: string, doc: Node)
    returns (time: int)
    requires Runs(inbox, Initial(inbox, limit), steps, w) && m < |inbox| && m < |w.fate| && w.fate[m] == Stored
    requires inbox[m] == MailIn(codec, parsers, bytes)
    requires Holds(codec, parsers, bytes, id, doc) && NoInnerRoot(doc.kids, doc.name.local)
    ensures TreeDocument(codec.lex, doc.kids).Some?
    ensures forall r :: r in TreeDocument(codec.lex, doc.kids).value ==>
                          ToRow(r.(sourceId := id, ingestedAt := time)) in w.table
  {
    hide Holds, MailIn, TreeDocument, Runs, ToRow;
    time := StoredIsDelivered(inbox, limit, steps, w, m);
    MailIsTree(codec, parsers, bytes, id, doc);
  }

  /** And while no other message has newer rows on its keys, the view shows the tree and nothing else there. */
  lemma ViewShowsTheDocument(inbox: seq<Mail>, limit: nat, steps: seq<Step>, w: World, i: nat, order: seq<nat>,
                             codec: Codec, parsers: map<Name, Esmp>, bytes: seq<nat>, id: string, doc: Node)
    requires Runs(inbox, Initial(inbox, limit), steps, w)
    requires WellFormed(inbox, w) && Latest(inbox, w, i) && KeysAgree(inbox[w.births[i].mail])
    requires inbox[w.births[i].mail] == MailIn(codec, parsers, bytes)
    requires Holds(codec, parsers, bytes, id, doc) && NoInnerRoot(doc.kids, doc.name.local)
    requires Ranks(w.table, order)
    ensures TreeDocument(codec.lex, doc.kids).Some?
    ensures Shown(w.table, order, Keys(inbox[w.births[i].mail]))
            == set r | r in TreeDocument(codec.lex, doc.kids).value :: Untimed(ToRow(r.(sourceId := id)))
  {
    hide MailIn, TreeDocument, Plan, Runs, ToRow, Shown, KeysAgree;
    var mail := inbox[w.births[i].mail];
    InitialInvariant(inbox, limit);
    RunsKeepInvariant(inbox, Initial(inbox, limit), steps, w);
    LatestPrevails(inbox, w, i);
    PrevailingIsShown(w.table, order, mail, w.births[i].at);
    MailIsTree(codec, parsers, bytes, id, doc);
    var tree := TreeDocument(codec.lex, doc.kids).value;
    forall r ensures Untimed(RowAt(mail, 0, r)) == Untimed(ToRow(r.(sourceId := id))) { UntimedIgnoresTime(mail, r); }
    assert Means(mail) == set r | r in tree :: Untimed(ToRow(r.(sourceId := id)));
  }

  /**
   Readings at distinct positions of one Period, within the exact bound, do not hide each
   other: once their rows are in the table, two different rows are shown for them.
   */
  lemma PositionsBothShown(table: seq<Row>, order: seq<nat>, c: Context, s: PeriodState, p: Point, q: Point,
                           text: string, id: string, at: int) returns (v: Row, w: Row)
    requires Ranks(table, order) && Known(c, s) && ParseResolution(text).Some? && s.resolution == ParseResolution(text)
    requires 1 <= p.position < q.position && q.position - 1 <= MAX_INT64 / s.resolution.value
    requires ToRow(PointReading(c, s, p).value.(sourceId := id, ingestedAt := at)) in table
    requires ToRow(PointReading(c, s, q).value.(sourceId := id, ingestedAt := at)) in table
    ensures v in Current(table, order) && w in Current(table, order) && v.start < w.start
    ensures v.meter == w.meter == c.meter && v.direction == w.direction && v.measure == w.measure == "gross"
    ensures v.start * 1000 <= s.start.value + (p.position - 1) * s.resolution.value < (v.start + 1) * 1000
    ensures w.start * 1000 <= s.start.value + (q.position - 1) * s.resolution.value < (w.start + 1) * 1000
  {
    hide Current, Ranks, ParseResolution, Quality, Direction, UnixMicro;
    var a := PointReading(c, s, p).value.(sourceId := id, ingestedAt := at);
    var b := PointReading(c, s, q).value.(sourceId := id, ingestedAt := at);
    ResolutionIsWholeSeconds(text);
    PositionsStayApart(s.start.value, p.position, q.position, text);
    WithinBound(p.position - 1, q.position - 1, s.resolution.value);
    IntervalStartExact(s.start.value, p.position, s.resolution.value);
    IntervalStartExact(s.start.value, q.position, s.resolution.value);
    MicroFloors(a.start);
    MicroFloors(b.start);
    RowHasShown(table, order, ToRow(a));
    RowHasShown(table, order, ToRow(b));
    v :| v in Current(table, order) && v.meter == ToRow(a).meter && v.start == ToRow(a).start
         && v.direction == ToRow(a).direction && v.measure == ToRow(a).measure;
    w :| w in Current(table, order) && w.meter == ToRow(b).meter && w.start == ToRow(b).start
         && w.direction == ToRow(b).direction && w.measure == ToRow(b).measure;
  }

  lemma WithinBound(p: int, q: int, d: int)
    requires d > 0 && p < q && q <= MAX_INT64 / d
    ensures p <= MAX_INT64 / d
  {
  }

  lemma UntimedIgnoresTime(mail: Mail, r: Reading)
    ensures Untimed(RowAt(mail, 0, r)) == Untimed(ToRow(r.(sourceId := mail.id)))
  {
  }
}
