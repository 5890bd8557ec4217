/** The push endpoint: what it answers Pub/Sub and what it quarantines. */
module Handler {
  import opened Wrappers
  import opened Errors
  import opened Xml
  import opened Consumption
  import opened EsmpStream
  import opened Batching
  import opened BigQuerySink
  import opened Registry
  import opened Ingest

  const MAX_BODY: nat := 0x100_0000  // 16 << 20

  const NO_CONTENT := 204
  const OK := 200
  const UNAUTHORIZED := 401
  const TOO_LARGE := 413
  const UNAVAILABLE := 503

  /** The bytes that arrive, and whether the connection fails after them instead of ending. */
  datatype Body = Body(bytes: seq<nat>, broken: bool)

  /** Whether the bearer token verifies, and the body. */
  datatype Request = Request(trusted: bool, body: Body)

  /** JSON and XML lexing, which stay abstract. */
  datatype Codec = Codec(unmarshal: seq<nat> -> Option<Message>, scan: seq<nat> -> Input, lex: Lexis)

  datatype Parked = Parked(messageId: string, payload: seq<nat>)

  class Quarantine {
    const accepts: nat -> bool  // whether the n-th write succeeds
    var attempts: seq<Parked>

    constructor (accepts: nat -> bool)
      ensures attempts == [] && this.accepts == accepts
    {
      attempts, this.accepts := [], accepts;
    }

    method Put(messageId: string, payload: seq<nat>) returns (ok: bool)
      modifies this
      ensures attempts == old(attempts) + [Parked(messageId, payload)]
      ensures ok == accepts(|old(attempts)|)
    {
      ok := accepts(|attempts|);
      attempts := attempts + [Parked(messageId, payload)];
    }
  }

  /** What the outcome of an ingest is answered with. */
  function Verdict(err: Option<Error>): int {
    if err.None? then NO_CONTENT else if Is(err.value, Transient) then UNAVAILABLE else OK
  }

  /** What the endpoint answers before it has a message, if it gets none. */
  function Early(codec: Codec, req: Request): Option<int> {
    if !req.trusted then Some(UNAUTHORIZED)
    else if |req.body.bytes| > MAX_BODY then Some(TOO_LARGE)
    else if req.body.broken then Some(UNAVAILABLE)
    else if codec.unmarshal(req.body.bytes) == None then Some(OK)
    else None
  }

  /** The message of a request that gets past those answers. */
  function MessageOf(codec: Codec, req: Request): Message
    requires Early(codec, req) == None
  {
    codec.unmarshal(req.body.bytes).value
  }

  function OutcomeOf(codec: Codec, registry: Registry, req: Request, cancelled: nat -> bool, e: Env): Outcome
    requires Early(codec, req) == None
    reads registry
  {
    var input := codec.scan(MessageOf(codec, req).payload);
    Attempt(codec.lex, Open(registry.parsers, input.toks, input.clean), cancelled, e)
  }

  /** The quarantine writes a request causes. */
  function Parks(codec: Codec, req: Request, status: int): seq<Parked> {
    if status != OK then []
    else if Early(codec, req) == None then
      var msg := MessageOf(codec, req);
      [Parked(msg.id, msg.payload)]
    else [Parked("", req.body.bytes)]
  }

  class Endpoint {
    const codec: Codec
    const registry: Registry
    const sink: Sink
    const quarantine: Quarantine

    constructor (codec: Codec, registry: Registry, sink: Sink, quarantine: Quarantine)
      ensures this.codec == codec && this.registry == registry
      ensures this.sink == sink && this.quarantine == quarantine
    {
      this.codec, this.registry, this.sink, this.quarantine := codec, registry, sink, quarantine;
    }

    /** A failed quarantine write is logged and otherwise ignored. */
    method Park(messageId: string, payload: seq<nat>)
      modifies quarantine
      ensures quarantine.attempts == old(quarantine.attempts) + [Parked(messageId, payload)]
    {
      var _ := quarantine.Put(messageId, payload);
    }

    method Consume(req: Request, now: int, cancelled: nat -> bool) returns (status: int)
      modifies sink, quarantine
      ensures quarantine.attempts == old(quarantine.attempts) + Parks(codec, req, status)
      ensures Early(codec, req).Some? ==>
                status == Early(codec, req).value && sink.table == old(sink.table) && sink.calls == old(sink.calls)
      ensures Early(codec, req) == None ==>
                var e := Env(MessageOf(codec, req).id, now, old(sink.calls), sink.reply);
                var out := OutcomeOf(codec, registry, req, cancelled, e);
                status == Verdict(out.err) && sink.table == old(sink.table) + Persisted(e, out.writes)
      ensures status in {200, 204, 401, 413, 503}
      ensures status == 401 <==> !req.trusted
      ensures status == 413 <==> req.trusted && |req.body.bytes| > 16_777_216
      ensures req.trusted && |req.body.bytes| <= 16_777_216 && req.body.broken ==> status == 503
      ensures !req.trusted || |req.body.bytes| > 16_777_216 || req.body.broken ==>
                sink.table == old(sink.table) && sink.calls == old(sink.calls)
                && quarantine.attempts == old(quarantine.attempts)
      ensures var envelope := codec.unmarshal(req.body.bytes);
              quarantine.attempts == old(quarantine.attempts)
                                     + if status != 200 then []
                                       else if envelope.None? then [Parked("", req.body.bytes)]
                                       else [Parked(envelope.value.id, envelope.value.payload)]
      ensures codec.unmarshal(req.body.bytes).None? ==> status != 204 && sink.table == old(sink.table)
    {
      hide Attempt, Persisted;
      if !req.trusted {
        return UNAUTHORIZED;
      }
      if |req.body.bytes| > MAX_BODY {
        return TOO_LARGE;
      }
      if req.body.broken {
        return UNAVAILABLE;
      }
      var envelope := codec.unmarshal(req.body.bytes);
      if envelope.None? {
        Park("", req.body.bytes);
        return OK;
      }
      var msg := envelope.value;
      var _, err := Ingest.Ingest(registry, sink, codec.lex, codec.scan(msg.payload), msg.id, now, cancelled);
      if err.None? {
        return NO_CONTENT;
      }
      if Is(err.value, Transient) {
        return UNAVAILABLE;
      }
      Park(msg.id, msg.payload);
      status := OK;
    }
  }

  /** Which requests are answered before there is a message, and how. */
  lemma EarlyExactly(codec: Codec, req: Request)
    ensures Early(codec, req) == Some(401) <==> !req.trusted
    ensures Early(codec, req) == Some(413) <==> req.trusted && |req.body.bytes| > 16_777_216
    ensures Early(codec, req) == Some(503)
            <==> req.trusted && |req.body.bytes| <= 16_777_216 && req.body.broken
    ensures Early(codec, req) == Some(200)
            <==> && req.trusted && |req.body.bytes| <= 16_777_216 && !req.body.broken
                 && codec.unmarshal(req.body.bytes).None?
    ensures Early(codec, req).None?
            <==> && req.trusted && |req.body.bytes| <= 16_777_216 && !req.body.broken
                 && codec.unmarshal(req.body.bytes).Some?
  {
  }

  /** No error is 204, a transient one 503 and any other 200. */
  lemma VerdictExactly(err: Option<Error>)
    ensures Verdict(err) == 204 <==> err.None?
    ensures Verdict(err) == 503 <==> err.Some? && Mark(Transient) in Leaves(err.value)
    ensures Verdict(err) == 200 <==> err.Some? && Mark(Transient) !in Leaves(err.value)
  {
    if err.Some? { IsALeaf(err.value, Transient); }
  }

  /**
   Safety of the answers: 204 only when every reading of the document was in an accepted
   batch; 200 with exactly one quarantine write, of the payload or of the raw body; anything
   else with none.
   */
  lemma AnswersAreSafe(codec: Codec, registry: Registry, req: Request, cancelled: nat -> bool, e: Env, status: int)
    requires status == if Early(codec, req).Some? then Early(codec, req).value
                       else Verdict(OutcomeOf(codec, registry, req, cancelled, e).err)
    ensures status in {200, 204, 401, 413, 503}
    ensures status == 401 <==> !req.trusted
    ensures status == 413 <==> req.trusted && |req.body.bytes| > 16_777_216
    ensures |Parks(codec, req, status)| == if status == 200 then 1 else 0
    ensures status == 204 ==>
              && req.trusted && |req.body.bytes| <= 16_777_216 && !req.body.broken && Early(codec, req) == None
              && var input := codec.scan(MessageOf(codec, req).payload);
                 var o := Open(registry.parsers, input.toks, input.clean);
                 var out := OutcomeOf(codec, registry, req, cancelled, e);
                 && o.Found? && Pass(codec.lex, o, cancelled).end.Done?
                 && Concat(out.writes) == StampAll(e, Pass(codec.lex, o, cancelled).produced)
                 && (forall j :: 0 <= j < |out.writes| ==> Answer(e, j).Accepted?)
                 && Landed(e, Persisted(e, out.writes), ToRows(StampAll(e, Pass(codec.lex, o, cancelled).produced)))
  {
    hide Attempt, Open;
    if status == 204 {
      var input := codec.scan(MessageOf(codec, req).payload);
      SuccessIsDurable(codec.lex, Open(registry.parsers, input.toks, input.clean), cancelled, e);
    }
  }

  /**
   Past the envelope, the answer asks for a retry exactly when an append was answered with a
   retryable code or the context was done at a check before anything else failed.
   */
  lemma RetriesExactlyTransient(codec: Codec, registry: Registry, req: Request, cancelled: nat -> bool, e: Env)
    requires Early(codec, req) == None
    requires forall n :: e.reply(n).Rejected? ==> Foreign(e.reply(n).cause)
    ensures var out := OutcomeOf(codec, registry, req, cancelled, e);
            var input := codec.scan(MessageOf(codec, req).payload);
            Verdict(out.err) == 503
            <==> || (exists j :: 0 <= j < |out.writes| && Answer(e, j).Rejected?
                                 && StatusOf(Answer(e, j).cause).Some?
                                 && StatusOf(Answer(e, j).cause).value in {1, 4, 8, 13, 14})
                 || Interrupted(codec.lex, Open(registry.parsers, input.toks, input.clean), cancelled, e)
  {
    hide Attempt, Open, Interrupted, StatusOf, Leaves, FirstStatusLeaf;
    forall j | Answer(e, j).Rejected?
      ensures Retryable(Answer(e, j)) <==> StatusOf(Answer(e, j).cause).Some?
                                           && StatusOf(Answer(e, j).cause).value in {1, 4, 8, 13, 14}
    {
      StatusIsFirstLeaf(Answer(e, j).cause);
    }
    TransientExactly(registry.parsers, codec.scan(MessageOf(codec, req).payload), codec.lex, cancelled, e);
  }
}
