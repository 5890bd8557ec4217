/** One request, as the endpoint handles it, is a run of steps of the delivery protocol. */
module Refinement {
  import opened Wrappers
  import opened Errors
  import opened Xml
  import opened Consumption
  import opened Wire
  import opened EsmpStream
  import opened EsmpDocument
  import opened Batching
  import opened Registry
  import opened Ingest
  import opened EsmpParser
  import opened Handler
  import opened Delivery
  import opened Merging

  lemma {:induction false} PlanOfPrefix(b: nat, cut: seq<Reading>, whole: seq<Reading>, done: bool)
    requires b >= 1 && cut <= whole
    ensures Batches(b, cut, false) <= Batches(b, whole, done)
    decreases |cut|
  {
    if |cut| >= b {
      assert cut[..b] == whole[..b] && cut[b..] <= whole[b..];
      PlanOfPrefix(b, cut[b..], whole[b..], done);
    }
  }

  /** Delivery i is at batch n of its plan. */
  predicate AtBatch(inbox: seq<Mail>, w: World, i: nat, e: Env, n: nat)
    requires WellFormed(inbox, w)
  {
    && i < |w.births| && w.at[i] == Running(n)
    && e.id == inbox[w.births[i].mail].id && e.at == w.births[i].at
  }

  /** Only delivery i moved. */
  predicate Alone(w: World, w': World, i: nat)
    requires i < |w.at|
  {
    w'.births == w.births && w'.left == w.left && |w'.at| == |w.at| && w'.at == w.at[i := w'.at[i]]
  }

  /** Delivery i answered as the endpoint answers an attempt that ended in err. */
  predicate Replied(inbox: seq<Mail>, w: World, w': World, i: nat, err: Option<Error>)
    requires WellFormed(inbox, w) && i < |w.births|
  {
    && Alone(w, w', i)
    && match Verdict(err)
       case 204 =>
         && w'.at[i].Answered204? && w'.parked == w.parked
         && w'.fate == Acknowledge(w, w.births[i].mail, Stored).fate
       case 503 => w'.at[i].Answered503? && w'.parked == w.parked && w'.fate == w.fate
       case _ =>
         && w'.at[i].Answered200? && w'.parked == w.parked + [i]
         && w'.fate == Acknowledge(w, w.births[i].mail, Quarantined).fate
  }

  /** Delivery i emitted up to batch n, or was stopped and replied. */
  predicate Moved(inbox: seq<Mail>, w: World, w': World, i: nat, n: nat, err: Option<Error>)
    requires WellFormed(inbox, w) && i < |w.births|
  {
    if err.Some? then Replied(inbox, w, w', i, err)
    else Alone(w, w', i) && w'.at[i] == Running(n) && w'.parked == w.parked && w'.fate == w.fate
  }

  lemma StampedRows(e: Env, mail: Mail, rs: seq<Reading>)
    requires e.id == mail.id
    ensures RowsOf(mail, e.at, rs) == ToRows(StampAll(e, rs))
    ensures ValidBatch(mail, e.at, rs) <==> AllValid(StampAll(e, rs))
  {
    hide Consumption.Valid;
    forall k | 0 <= k < |rs| ensures Stamp(e, rs[k]) == rs[k].(sourceId := mail.id, ingestedAt := e.at) {}
    assert AllValid(StampAll(e, rs)) ==> forall k :: 0 <= k < |rs| ==> Valid(StampAll(e, rs)[k]);
  }

  /** Emitting one batch is one step. */
  lemma EmitIsStep(inbox: seq<Mail>, w: World, i: nat, e: Env, st: State, n: nat, table0: seq<Row>) returns (step: Step)
    requires WellFormed(inbox, w) && AtBatch(inbox, w, i, e, n) && n < |Plan(inbox, w.births[i])|
    requires st.err.None? && w.table == table0 + Persisted(e, st.writes) && Plan(inbox, w.births[i])[n] != []
    ensures Enabled(inbox, w, step) && WellFormed(inbox, Apply(inbox, w, step)) && OfDelivery(step) && step.i == i
    ensures var w', next := Apply(inbox, w, step), Flush(e, st.(pending := Plan(inbox, w.births[i])[n]));
            && w'.table == table0 + Persisted(e, next.writes)
            && Moved(inbox, w, w', i, n + 1, next.err)
            && next.pending == []
  {
    hide Plan, Classify, Is, Consumption.Valid, Persisted, ValidBatch, RowsOf, Repeat, StampAll, AllValid, ToRows;
    var batch, mail := Plan(inbox, w.births[i])[n], inbox[w.births[i].mail];
    var rows := StampAll(e, batch);
    StampedRows(e, mail, batch);
    FixedClasses();
    step := if AllValid(rows) then Append(i, Answer(e, |st.writes|)) else Invalid(i);
    StepKeepsForm(inbox, w, step);
    if AllValid(rows) {
      PersistedPush(e, st.writes, rows);
      Associative(table0, Persisted(e, st.writes), Repeat(ToRows(rows), Copies(Answer(e, |st.writes|))));
    }
  }

  /** Emitting batches until one fails is a run. */
  lemma {:induction false} EmitsAreRun(inbox: seq<Mail>, w: World, i: nat, e: Env, st: State, n: nat, m: nat,
                                       table0: seq<Row>)
    returns (steps: seq<Step>, w': World)
    requires WellFormed(inbox, w) && AtBatch(inbox, w, i, e, n) && n <= m <= |Plan(inbox, w.births[i])|
    requires st.err.None? && st.pending == [] && w.table == table0 + Persisted(e, st.writes)
    ensures AllOwn(steps, i) && Runs(inbox, w, steps, w') && WellFormed(inbox, w')
    ensures var out := EmitAll(e, st, Plan(inbox, w.births[i])[n..m]);
            w'.table == table0 + Persisted(e, out.writes) && Moved(inbox, w, w', i, m, out.err)
    decreases m - n
  {
    hide Plan, Persisted, Apply, Enabled, Flush;
    var plan := Plan(inbox, w.births[i]);
    if n == m { return [], w; }
    BatchIsNotEmpty(inbox, w.births[i], n);
    var step := EmitIsStep(inbox, w, i, e, st, n, table0);
    var w1, next := Apply(inbox, w, step), Flush(e, st.(pending := plan[n]));
    assert plan[n..m][1..] == plan[n + 1..m];
    var rest: seq<Step>;
    if next.err.Some? {
      rest, w' := [], w1;
    } else {
      rest, w' := EmitsAreRun(inbox, w1, i, e, next, n + 1, m, table0);
    }
    steps := [step] + rest;
    assert steps[1..] == rest;
  }

  lemma BatchIsNotEmpty(inbox: seq<Mail>, b: Birth, n: nat)
    requires b.mail < |inbox| && b.rows >= 1 && n < |Plan(inbox, b)|
    ensures Plan(inbox, b)[n] != []
  {
    PlanHasNoEmpty(b.rows, inbox[b.mail].produced, inbox[b.mail].end.None?);
  }

  lemma RunsOneMore(inbox: seq<Mail>, w: World, steps: seq<Step>, w': World, step: Step)
    requires WellFormed(inbox, w) && Runs(inbox, w, steps, w') && WellFormed(inbox, w') && Enabled(inbox, w', step)
    ensures Runs(inbox, w, steps + [step], Apply(inbox, w', step))
  {
    hide Apply, Enabled;
    StepKeepsForm(inbox, w', step);
    RunsFirst(inbox, w', step, [], Apply(inbox, w', step));
    assert [step] + [] == [step];
    RunsJoin(inbox, w, steps, w', [step], Apply(inbox, w', step));
  }

  /** What the protocol needs to know of an opened document. */
  function Contents(lex: Lexis, o: Opened, id: string): Mail {
    if o.Refused? then Mail(id, [], Some(o.error))
    else
      var run := Pass(lex, o, _ => false);
      Mail(id, run.produced, run.Error())
  }

  function RowsPerBatch(o: Opened): (b: nat)
    ensures b >= 1
  {
    if o.Found? then o.parser.batchRows else 1
  }

  /** The step with which a delivery that emitted everything ends. */
  lemma LastStep(inbox: seq<Mail>, w: World, w1: World, i: nat, m: nat, cut: bool, err: Option<Error>)
    returns (step: Step)
    requires WellFormed(inbox, w) && WellFormed(inbox, w1) && i < |w.births| && Moved(inbox, w, w1, i, m, None)
    requires if cut then err == Some(CANCELLED)
             else m == |Plan(inbox, w.births[i])| && err == inbox[w.births[i].mail].end
                  && (err.Some? ==> !Is(err.value, Transient))
    ensures OfDelivery(step) && step.i == i && Enabled(inbox, w1, step)
    ensures Replied(inbox, w, Apply(inbox, w1, step), i, err)
    ensures Apply(inbox, w1, step).table == w1.table
  {
    hide Plan, ValidBatch, RowsOf, Classify, Is, Repeat, Runs;
    FixedClasses();
    step := if cut then Cancel(i) else Finish(i);
  }

  /** The pass an attempt makes either is the whole one, or was cut short by its context. */
  predicate PassOf(run: Run, mail: Mail, cut: bool) {
    if cut then run.end == Failed(CANCELLED) && run.produced <= mail.produced
    else run.produced == mail.produced && run.Error() == mail.end && (mail.end.Some? ==> !Is(mail.end.value, Transient))
  }

  /** Emitting what a pass produced, and its last step, are a run. */
  lemma PassIsRun(inbox: seq<Mail>, w: World, i: nat, run: Run, cut: bool, e: Env) returns (steps: seq<Step>, w': World)
    requires WellFormed(inbox, w) && AtBatch(inbox, w, i, e, 0) && PassOf(run, inbox[w.births[i].mail], cut)
    ensures AllOwn(steps, i) && Runs(inbox, w, steps, w')
    ensures var out := Conclude(e, PushAll(e, w.births[i].rows, EMPTY, run.produced), run.end.Done?);
            && w'.table == w.table + Persisted(e, out.writes)
            && Replied(inbox, w, w', i, if out.err.Some? then out.err else run.Error())
  {
    hide PushAll, Conclude, Apply, Enabled, Persisted, Flush, Batches, Moved, Replied, EmitAll;
    var b, done := w.births[i], run.end.Done?;
    var mail := inbox[b.mail];
    var plan := Batches(b.rows, run.produced, done);
    if cut { PlanOfPrefix(b.rows, run.produced, mail.produced, mail.end.None?); }
    assert plan == Plan(inbox, b)[0..|plan|];
    BufferFollowsPlan(e, b.rows, EMPTY, run.produced, done);
    assert EMPTY.pending + run.produced == run.produced && EMPTY.(pending := []) == EMPTY;
    PersistedNothing(e);
    steps, w' := EmitsAreRun(inbox, w, i, e, EMPTY, 0, |plan|, w.table);
    var out := EmitAll(e, EMPTY, plan);
    if out.err.None? {
      var step := LastStep(inbox, w, w', i, |plan|, cut, run.Error());
      RunsOneMore(inbox, w, steps, w', step);
      steps, w' := steps + [step], Apply(inbox, w', step);
    } else {
      MovedIsReplied(inbox, w, w', i, |plan|, out.err);
    }
  }

  lemma MovedIsReplied(inbox: seq<Mail>, w: World, w': World, i: nat, n: nat, err: Option<Error>)
    requires WellFormed(inbox, w) && i < |w.births| && Moved(inbox, w, w', i, n, err) && err.Some?
    ensures Replied(inbox, w, w', i, err)
  {
  }

  /** An attempt is a run: the same rows reach the table, and the delivery gets the answer it is given. */
  lemma AttemptIsRun(inbox: seq<Mail>, w: World, i: nat, parsers: map<Name, Esmp>, input: Input, lex: Lexis,
                     cancelled: nat -> bool, e: Env) returns (steps: seq<Step>, w': World)
    requires WellFormed(inbox, w) && AtBatch(inbox, w, i, e, 0)
    requires inbox[w.births[i].mail] == Contents(lex, Open(parsers, input.toks, input.clean), e.id)
    requires w.births[i].rows == RowsPerBatch(Open(parsers, input.toks, input.clean))
    ensures AllOwn(steps, i) && Runs(inbox, w, steps, w')
    ensures var out := Attempt(lex, Open(parsers, input.toks, input.clean), cancelled, e);
            w'.table == w.table + Persisted(e, out.writes) && Replied(inbox, w, w', i, out.err)
  {
    hide Document, PushAll, Open, Persisted, AtBatch, Replied, Runs;
    var o := Open(parsers, input.toks, input.clean);
    RefusalIsPermanent(parsers, input.toks, input.clean);
    FixedClasses();
    if o.Refused? {
      assert Conclude(e, PushAll(e, 1, EMPTY, []), false) == EMPTY by { PushNone(e); }
      steps, w' := PassIsRun(inbox, w, i, Run([], Failed(o.error)), false, e);
    } else {
      var run, whole := Pass(lex, o, cancelled), Pass(lex, o, _ => false);
      CancellationCuts(lex, o.rest, [o.root], o.root.local, cancelled, _ => false, MAX_READINGS);
      steps, w' := PassIsRun(inbox, w, i, run, run != whole, e);
    }
  }

  lemma PushNone(e: Env)
    ensures PushAll(e, 1, EMPTY, []) == EMPTY
  {
  }

  /** What the protocol needs to know of a request's body: one that is no envelope has nothing to store. */
  function MailIn(codec: Codec, parsers: map<Name, Esmp>, bytes: seq<nat>): Mail {
    match codec.unmarshal(bytes)
    case None => Mail("", [], Some(MALFORMED))
    case Some(msg) => Contents(codec.lex, Opens(codec, parsers, msg), msg.id)
  }

  function Opens(codec: Codec, parsers: map<Name, Esmp>, msg: Message): Opened {
    var input := codec.scan(msg.payload);
    Open(parsers, input.toks, input.clean)
  }

  /** The delivery a request past the first checks is. */
  function BirthOf(codec: Codec, parsers: map<Name, Esmp>, bytes: seq<nat>, m: nat, now: int): Birth {
    match codec.unmarshal(bytes)
    case None => Birth(m, 1, now)
    case Some(msg) => Birth(m, RowsPerBatch(Opens(codec, parsers, msg)), now)
  }

  /** The error a request ends in, once past the first checks. */
  function ErrorOf(codec: Codec, registry: Registry, req: Request, cancelled: nat -> bool, e: Env): Option<Error>
    reads registry
  {
    if Early(codec, req) == None then OutcomeOf(codec, registry, req, cancelled, e).err else Some(MALFORMED)
  }

  /** The batches it hands to the sink. */
  function WritesOf(codec: Codec, registry: Registry, req: Request, cancelled: nat -> bool, e: Env): seq<seq<Reading>>
    reads registry
  {
    if Early(codec, req) == None then OutcomeOf(codec, registry, req, cancelled, e).writes else []
  }

  /** The delivery ended with this answer. */
  predicate Gives(p: Progress, status: int) {
    match status
    case 204 => p.Answered204?
    case 503 => p.Answered503?
    case _ => p.Answered200?
  }

  lemma BodyIsRun(inbox: seq<Mail>, w: World, i: nat, codec: Codec, registry: Registry, req: Request,
                  cancelled: nat -> bool, e: Env) returns (steps: seq<Step>, w': World)
    requires Early(codec, req) in {None, Some(OK)}
    requires WellFormed(inbox, w) && i < |w.births| && w.at[i] == Running(0)
    requires inbox[w.births[i].mail] == MailIn(codec, registry.parsers, req.body.bytes)
    requires w.births[i] == BirthOf(codec, registry.parsers, req.body.bytes, w.births[i].mail, e.at)
    requires Early(codec, req) == None ==> e.id == MessageOf(codec, req).id
    ensures AllOwn(steps, i) && Runs(inbox, w, steps, w')
    ensures w'.table == w.table + Persisted(e, WritesOf(codec, registry, req, cancelled, e))
    ensures Replied(inbox, w, w', i, ErrorOf(codec, registry, req, cancelled, e))
  {
    hide Attempt, Persisted, Plan, Replied, Runs, Open, Pass;
    PersistedNothing(e);
    if Early(codec, req) == None {
      var input := codec.scan(MessageOf(codec, req).payload);
      steps, w' := AttemptIsRun(inbox, w, i, registry.parsers, input, codec.lex, cancelled, e);
    } else {
      var unread := Env("", e.at, 0, e.reply);
      PersistedNothing(unread);
      PushNone(unread);
      FixedClasses();
      steps, w' := PassIsRun(inbox, w, i, Run([], Failed(MALFORMED)), false, unread);
    }
  }

  /**
   What the endpoint does with a request is a run of the delivery protocol: it starts a
   delivery, leaves the same rows in the table and as many quarantine writes, its own, and that
   delivery ends with the endpoint's answer. 401, 413 and 503 for an unread body change
   nothing but the deliveries left.
   */
  lemma RequestIsRun(inbox: seq<Mail>, w: World, m: nat, codec: Codec, registry: Registry, req: Request,
                     cancelled: nat -> bool, e: Env, status: int) returns (steps: seq<Step>, w': World)
    requires WellFormed(inbox, w) && m < |inbox| && w.left[m] > 0 && w.fate[m] != DeadLettered
    requires inbox[m] == MailIn(codec, registry.parsers, req.body.bytes)
    requires Early(codec, req) == None ==> e.id == MessageOf(codec, req).id
    requires status == if Early(codec, req).Some? then Early(codec, req).value
                       else Verdict(OutcomeOf(codec, registry, req, cancelled, e).err)
    ensures Runs(inbox, w, steps, w')
    ensures Early(codec, req).Some? && status != OK ==> w' == Use(w, m)
    ensures Early(codec, req) == None || status == OK ==>
              && w'.births == w.births + [BirthOf(codec, registry.parsers, req.body.bytes, m, e.at)]
              && w'.left == Use(w, m).left && |w'.at| == |w.at| + 1 && w'.at[..|w.at|] == w.at
              && Gives(w'.at[|w.at|], status)
    ensures w'.parked == w.parked + if status == OK then [|w.births|] else []
    ensures |w'.parked| == |w.parked| + |Parks(codec, req, status)|
    ensures w'.table == w.table + Persisted(e, WritesOf(codec, registry, req, cancelled, e))
  {
    hide Attempt, Persisted, Plan, ValidBatch, RowsOf, Classify, Is, Open, Pass, Contents;
    PersistedNothing(e);
    if Early(codec, req).Some? && status != OK {
      steps, w' := [Refuse(m)], Use(w, m);
      assert steps[1..] == [];
    } else {
      var b := BirthOf(codec, registry.parsers, req.body.bytes, m, e.at);
      var step := Deliver(m, b.rows, e.at);
      StepKeepsForm(inbox, w, step);
      var rest: seq<Step>;
      rest, w' := BodyIsRun(inbox, Apply(inbox, w, step), |w.births|, codec, registry, req, cancelled, e);
      steps := [step] + rest;
      assert steps[1..] == rest;
      FixedClasses();
    }
  }
}
