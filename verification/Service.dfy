/** The closure Service.Ingest hands to the parser: stamp, validate, write, count. */
module Service {
  import opened Wrappers
  import opened Errors
  import opened Consumption
  import opened Wire
  import opened Batching
  import opened BigQuerySink

  class Emitter {
    const id: string
    const at: int
    const sink: Sink
    var stored: nat
    ghost const env: Env                 // this attempt, for the specification
    ghost const table0: seq<Row>
    ghost var writes: seq<seq<Reading>>  // every batch handed to the sink
    ghost var err: Option<Error>         // what the last emit returned

    constructor (id: string, at: int, sink: Sink)
      ensures Valid() && this.id == id && this.at == at && this.sink == sink
      ensures stored == 0 && writes == [] && err == None
      ensures env.first == sink.calls && table0 == sink.table
    {
      this.id, this.at, this.sink, stored := id, at, sink, 0;
      env := Env(id, at, sink.calls, sink.reply);
      table0, writes, err := sink.table, [], None;
    }

    ghost predicate Valid()
      reads this, sink
    {
      && env == Env(id, at, env.first, sink.reply)
      && sink.calls == env.first + |writes| && sink.table == table0 + Persisted(env, writes)
    }

    /** Stamps and validates the first n readings in place, stopping at the first invalid one. */
    method StampBatch(batch: array<Reading>, n: nat) returns (invalid: Option<Error>)
      requires n <= batch.Length && env.id == id && env.at == at
      modifies batch
      ensures var rows := StampAll(env, old(batch[..n]));
              if AllValid(rows) then invalid == None && batch[..n] == rows else invalid == Some(INVALID_READING)
    {
      ghost var raw := batch[..n];
      ghost var rows := StampAll(env, raw);
      for i := 0 to n
        invariant forall k :: 0 <= k < i ==> batch[k] == rows[k] && Consumption.Valid(rows[k])
        invariant forall k :: i <= k < n ==> batch[k] == raw[k]
      {
        batch[i] := batch[i].(sourceId := id, ingestedAt := at);
        invalid := Validate(batch[i]);
        if invalid.Some? {
          assert batch[i] == rows[i];
          return;
        }
      }
      invalid := None;
    }

    /** Emits the first n readings of the parser's buffer. */
    method Emit(batch: array<Reading>, n: nat) returns (e: Option<Error>)
      requires Valid() && err.None? && 1 <= n <= batch.Length
      modifies this, sink, batch
      ensures Valid()
      ensures var next := Flush(env, State(old(batch[..n]), old(writes), old(stored), None));
              writes == next.writes && stored == next.stored && err == next.err && e == next.err
    {
      hide Persisted, Repeat, Copies, ToRows, StampAll, AllValid, Classify;
      ghost var rows := StampAll(env, batch[..n]);
      e := StampBatch(batch, n);
      if e.None? {
        e := sink.Write(batch, n);
        PersistedPush(env, writes, rows);
        Associative(table0, Persisted(env, writes), Repeat(ToRows(rows), Copies(Answer(env, |writes|))));
        writes := writes + [rows];
        if e.None? {
          stored := stored + n;
        }
      }
      err := e;
    }
  }
}
