/** Service.Ingest: open the document, parse it with one timestamp, report what was stored. */
module Ingest {
  import opened Wrappers
  import opened Errors
  import opened Xml
  import opened Consumption
  import opened EsmpStream
  import opened EsmpDocument
  import opened Batching
  import opened BigQuerySink
  import opened Service
  import opened EsmpParser
  import opened Registry

  /** Every batch handed to the sink, the count reported and the error returned. */
  datatype Outcome = Outcome(writes: seq<seq<Reading>>, stored: nat, err: Option<Error>)

  /** What the one-pass parser makes of an opened document. */
  function Pass(lex: Lexis, o: Opened, cancelled: nat -> bool): Run
    requires o.Found?
  {
    Document(lex, o.rest, [o.root], o.root.local, cancelled, MAX_READINGS)
  }

  /** The attempt as a whole: parse everything, then emit batch by batch. */
  function Attempt(lex: Lexis, o: Opened, cancelled: nat -> bool, e: Env): Outcome {
    if o.Refused? then Outcome([], 0, Some(o.error))
    else
      var run := Pass(lex, o, cancelled);
      var out := Conclude(e, PushAll(e, o.parser.batchRows, EMPTY, run.produced), run.end.Done?);
      Outcome(out.writes, out.stored, if out.err.Some? then out.err else run.Error())
  }

  method Ingest(registry: Registry, sink: Sink, lex: Lexis, input: Input, id: string, now: int,
                cancelled: nat -> bool)
    returns (stored: nat, err: Option<Error>)
    modifies sink
    ensures var e := Env(id, now, old(sink.calls), sink.reply);
            var out := Attempt(lex, Open(registry.parsers, input.toks, input.clean), cancelled, e);
            && stored == out.stored && err == out.err
            && sink.table == old(sink.table) + Persisted(e, out.writes)
            && sink.calls == old(sink.calls) + |out.writes|
  {
    hide Document, PushAll, Conclude, Persisted, Open;
    var d := new Decoder(input);
    var found, root, failure := registry.For(d);
    if found.None? {
      PersistedNothing(Env(id, now, sink.calls, sink.reply));
      return 0, Some(failure);
    }
    OpenedIsRegistered(registry.parsers, input.toks, input.clean);
    var emitter := new Emitter(id, now, sink);
    PersistedNothing(emitter.env);
    err := Parse(found.value, lex, d, root, cancelled, emitter);
    stored := emitter.stored;
  }

  lemma PersistedNothing(e: Env)
    ensures Persisted(e, []) == []
  {
  }

  // ----- what an attempt guarantees -----

  /** A closed document that decodes is read exactly when it holds at most five million readings. */
  lemma CapExactly(lex: Lexis, o: Opened, cancelled: nat -> bool)
    requires o.Found? && forall k :: !cancelled(k)
    requires Content(o.rest, o.root).Some?
    requires UpTo(lex, Content(o.rest, o.root).value.kids, o.root.local).Some?
    ensures var readings := UpTo(lex, Content(o.rest, o.root).value.kids, o.root.local).value.readings;
            && (Pass(lex, o, cancelled).end.Done? <==> |readings| <= 5_000_000)
            && (Pass(lex, o, cancelled).end.Failed? ==> Is(Pass(lex, o, cancelled).end.error, Malformed))
  {
    hide Document, Content, UpTo;
    DocumentFollowsTree(lex, o.rest, o.root, cancelled, MAX_READINGS);
    CancellationCutsNever(lex, o.rest, [o.root], o.root.local, cancelled, MAX_READINGS);
    FixedClasses();
  }

  /** Rejected with Canceled, DeadlineExceeded, ResourceExhausted, Internal or Unavailable as its first status. */
  predicate Retryable(r: Reply) {
    r.Rejected? && Retried(FirstStatusLeaf(Leaves(r.cause)))
  }

  /**
   Success means that every reading of the document, in order and stamped with the message
   id and the one timestamp, was in a batch the table accepted, and is now a row of it.
   */
  lemma SuccessIsDurable(lex: Lexis, o: Opened, cancelled: nat -> bool, e: Env)
    requires Attempt(lex, o, cancelled, e).err.None?
    ensures o.Found? && Pass(lex, o, cancelled).end.Done?
    ensures var out := Attempt(lex, o, cancelled, e);
            var produced := Pass(lex, o, cancelled).produced;
            && Concat(out.writes) == StampAll(e, produced) && out.stored == |produced|
            && (forall j :: 0 <= j < |out.writes| ==> Answer(e, j).Accepted?)
            && Landed(e, Persisted(e, out.writes), ToRows(StampAll(e, produced)))
  {
    SuccessStoresEverything(e, o.parser.batchRows, Pass(lex, o, cancelled).produced);
    AcceptedArePersisted(e, Attempt(lex, o, cancelled, e).writes);
  }

  /** Every batch handed to the sink is valid, stamped and of at most the parser's size. */
  lemma WritesAreSound(lex: Lexis, o: Opened, cancelled: nat -> bool, e: Env)
    requires o.Found?
    ensures forall w :: w in Attempt(lex, o, cancelled, e).writes ==> WellStamped(e, o.parser.batchRows, w)
  {
    var run := Pass(lex, o, cancelled);
    AttemptSound(e, o.parser.batchRows, run.produced, run.end.Done?);
  }

  /** The batches an attempt would emit if nothing failed. */
  function BatchesOf(lex: Lexis, o: Opened, cancelled: nat -> bool): seq<seq<Reading>>
    requires o.Found?
  {
    var run := Pass(lex, o, cancelled);
    Batches(o.parser.batchRows, run.produced, run.end.Done?)
  }

  /** The context is done at a check the pass reaches, and every batch before it was valid and accepted. */
  ghost predicate Interrupted(lex: Lexis, o: Opened, cancelled: nat -> bool, e: Env) {
    && o.Found?
    && (exists k :: Checked(lex, o.rest, [o.root], o.root.local, MAX_READINGS, k) && cancelled(k))
    && AllGo(e, BatchesOf(lex, o, cancelled), 0)
  }

  /**
   The error class survives the whole stack: an attempt's error is transient exactly when an
   append was rejected with a retryable code, or the context was done at one of the checks
   before anything else failed.
   */
  lemma TransientExactly(parsers: map<Name, Esmp>, input: Input, lex: Lexis, cancelled: nat -> bool, e: Env)
    requires forall n :: e.reply(n).Rejected? ==> Foreign(e.reply(n).cause)
    ensures var o := Open(parsers, input.toks, input.clean);
            var out := Attempt(lex, o, cancelled, e);
            (out.err.Some? && Is(out.err.value, Transient))
            <==> (exists j :: 0 <= j < |out.writes| && Retryable(Answer(e, j))) || Interrupted(lex, o, cancelled, e)
  {
    hide Document, Checked, PushAll, Conclude, Open, Batches, AllGo;
    var o := Open(parsers, input.toks, input.clean);
    RefusalIsPermanent(parsers, input.toks, input.clean);
    FixedClasses();
    if o.Found? {
      var run, b := Pass(lex, o, cancelled), o.parser.batchRows;
      AttemptSound(e, b, run.produced, run.end.Done?);
      WritesFollowPlan(e, b, run.produced, run.end.Done?);
      CancellationCuts(lex, o.rest, [o.root], o.root.local, cancelled, _ => false, MAX_READINGS);
      CutExactly(lex, o.rest, [o.root], o.root.local, cancelled, MAX_READINGS);
      StoppedBy(e, b, Conclude(e, PushAll(e, b, EMPTY, run.produced), run.end.Done?));
    }
  }

  /** An attempt succeeds exactly when the document ends properly, every batch is valid and every append accepted. */
  lemma SucceedsExactly(lex: Lexis, o: Opened, cancelled: nat -> bool, e: Env)
    ensures Attempt(lex, o, cancelled, e).err.None?
            <==> o.Found? && Pass(lex, o, cancelled).end.Done? && AllGo(e, BatchesOf(lex, o, cancelled), 0)
  {
    hide Document, PushAll, Conclude, Batches, AllGo;
    if o.Found? {
      var run := Pass(lex, o, cancelled);
      WritesFollowPlan(e, o.parser.batchRows, run.produced, run.end.Done?);
    }
  }

  /** However appends are answered, the batches handed to the sink are the first of the document's, in order. */
  lemma WritesAreFirst(lex: Lexis, o: Opened, cancelled: nat -> bool, e: Env)
    requires o.Found?
    ensures var out, plan := Attempt(lex, o, cancelled, e), BatchesOf(lex, o, cancelled);
            |out.writes| <= |plan| && out.writes == StampEach(e, plan[..|out.writes|])
  {
    var run := Pass(lex, o, cancelled);
    WritesFollowPlan(e, o.parser.batchRows, run.produced, run.end.Done?);
  }

  /**
   Exact durable prefix of a document: when appends are accepted, what a parse error, a done
   context or an invalid reading leaves in the table is the whole batches before it, and that
   many are reported.
   */
  lemma StoredExactly(lex: Lexis, o: Opened, cancelled: nat -> bool, e: Env) returns (bad: nat)
    requires o.Found? && forall n :: Answer(e, n).Accepted?
    ensures FirstBad(StampAll(e, Pass(lex, o, cancelled).produced), bad)
    ensures var out, run, b := Attempt(lex, o, cancelled, e), Pass(lex, o, cancelled), o.parser.batchRows;
            var n := |run.produced|;
            var kept := if run.end.Done? && bad == n then n else b * (bad / b);
            && kept <= n && out.stored == kept
            && Landed(e, Persisted(e, out.writes), ToRows(StampAll(e, run.produced)[..kept]))
            && var emitted := if run.end.Done? then n else b * (n / b);
               out.err == if bad < emitted then Some(INVALID_READING) else run.Error()
  {
    hide Document, PushAll, Conclude, Persisted;
    var run, b := Pass(lex, o, cancelled), o.parser.batchRows;
    var n := |run.produced|;
    bad := FirstBadExists(StampAll(e, run.produced));
    DurablePrefix(e, b, run.produced, run.end.Done?, bad, if run.end.Done? && bad == n then n else b * (bad / b));
    AcceptedArePersisted(e, Attempt(lex, o, cancelled, e).writes);
  }

  /** The state's own error is transient exactly when one of its appends was answered so. */
  lemma StoppedBy(e: Env, b: nat, st: State)
    requires Sound(e, b, st)
    requires forall n :: e.reply(n).Rejected? ==> Foreign(e.reply(n).cause)
    ensures (st.err.Some? && Is(st.err.value, Transient))
            <==> exists j :: 0 <= j < |st.writes| && Retryable(Answer(e, j))
    ensures st.err != Some(CANCELLED)
  {
    hide Concat, WellStamped, Retried, Leaves;
    FixedClasses();
    if st.err.Some? && st.err != Some(INVALID_READING) {
      var last := |st.writes| - 1;
      assert Answer(e, last).Rejected? && Foreign(Answer(e, last).cause);
      ClassifyIsTransient(Answer(e, last).cause);
      if Retryable(Answer(e, last)) {
        assert 0 <= last < |st.writes|;
        ForeignIsNothing(Plain, Transient);
      }
    }
  }
}
