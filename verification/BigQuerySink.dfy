/** The table's write side: one append per batch, at least once. */
module BigQuerySink {
  import opened Wrappers
  import opened Errors
  import opened Consumption
  import opened Wire
  import opened Batching

  class Sink {
    const reply: nat -> Reply   // how the table answers its n-th append
    var calls: nat
    var table: seq<Row>

    constructor (reply: nat -> Reply, table: seq<Row>)
      ensures this.reply == reply && this.table == table && calls == 0
    {
      this.reply, this.table, calls := reply, table, 0;
    }

    /** Encodes the first n readings of the caller's buffer and appends them in one call. */
    method Write(readings: array<Reading>, n: nat) returns (err: Option<Error>)
      requires n <= readings.Length
      modifies this
      ensures n == 0 ==> err == None && calls == old(calls) && table == old(table)
      ensures n > 0 ==> calls == old(calls) + 1 && err == WriteError(reply(old(calls)))
      ensures n > 0 ==>
                table == old(table) + Repeat(ToRows(readings[..n]), Copies(reply(old(calls))))
    {
      if n == 0 {
        return None;
      }
      var rows: seq<Row> := [];
      for i := 0 to n
        invariant rows == ToRows(readings[..i])
      {
        rows := rows + [ToRow(readings[i])];
      }
      var answer := reply(calls);
      calls := calls + 1;
      table := table + Repeat(rows, Copies(answer));
      err := WriteError(answer);
    }
  }
}
