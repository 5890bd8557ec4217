/** What the view shows of a message, over every run of the delivery protocol. */
module Convergence {
  import opened Consumption
  import opened Wire
  import opened View
  import opened Batching
  import opened Delivery

  /** A row but for the time it was ingested. */
  function Untimed(w: Row): Row {
    w.(ingestedAt := 0)
  }

  /** Two rows are the same but for that exactly when they agree in every other column. */
  lemma UntimedExactly(v: Row, w: Row)
    ensures Untimed(v) == Untimed(w)
            <==> && v.meter == w.meter && v.start == w.start && v.resolution == w.resolution && v.value == w.value
                 && v.unit == w.unit && v.quality == w.quality && v.direction == w.direction
                 && v.measure == w.measure && v.sourceId == w.sourceId
  {
  }

  function Keys(mail: Mail): set<Key> {
    set r | r in mail.produced :: KeyOf(RowAt(mail, 0, r))
  }

  /** The rows a message means. */
  function Means(mail: Mail): set<Row> {
    set r | r in mail.produced :: Untimed(RowAt(mail, 0, r))
  }

  /** Readings of the document that share a key are the same row. */
  predicate KeysAgree(mail: Mail) {
    forall r, s :: r in mail.produced && s in mail.produced && KeyOf(RowAt(mail, 0, r)) == KeyOf(RowAt(mail, 0, s)) ==>
                     Untimed(RowAt(mail, 0, r)) == Untimed(RowAt(mail, 0, s))
  }

  /** What the view shows under the keys of a message. */
  function Shown(table: seq<Row>, order: seq<nat>, keys: set<Key>): set<Row>
    requires Ranks(table, order)
  {
    set v | v in Current(table, order) && KeyOf(v) in keys :: Untimed(v)
  }

  /** Some delivery of the message got all its rows in, and other rows on its keys are strictly older. */
  predicate Prevails(table: seq<Row>, mail: Mail, time: int) {
    && (forall r :: r in mail.produced ==> RowAt(mail, time, r) in table)
    && (forall w :: w in table && KeyOf(w) in Keys(mail) ==>
                      Untimed(w) in Means(mail) || w.ingestedAt < UnixMicro(time))
  }

  lemma SameUntimed(mail: Mail, time: int, r: Reading)
    ensures Untimed(RowAt(mail, time, r)) == Untimed(RowAt(mail, 0, r))
    ensures KeyOf(RowAt(mail, time, r)) == KeyOf(RowAt(mail, 0, r))
    ensures RowAt(mail, time, r).ingestedAt == UnixMicro(time)
  {
  }

  lemma KeyOfUntimed(mail: Mail, v: Row, r: Reading)
    requires Untimed(v) == Untimed(RowAt(mail, 0, r))
    ensures KeyOf(v) == KeyOf(RowAt(mail, 0, r))
  {
  }

  /**
   Exactly: with a row under each of its keys, a message is what the view shows there,
   however ties are broken, if and only if every newest row there is one it means.
   */
  lemma ShownExactly(table: seq<Row>, mail: Mail)
    requires KeysAgree(mail)
    requires forall key :: key in Keys(mail) ==> key in TableKeys(table)
    ensures (forall order :: Ranks(table, order) ==> Shown(table, order, Keys(mail)) == Means(mail))
            <==> forall w :: Newest(table, w) && KeyOf(w) in Keys(mail) ==> Untimed(w) in Means(mail)
  {
    hide KeyOf, Untimed, RowAt, Current, Newest;
    if forall w :: Newest(table, w) && KeyOf(w) in Keys(mail) ==> Untimed(w) in Means(mail) {
      forall order | Ranks(table, order) ensures Shown(table, order, Keys(mail)) == Means(mail) {
        NewestAreShown(table, order, mail);
      }
    }
    if forall order :: Ranks(table, order) ==> Shown(table, order, Keys(mail)) == Means(mail) {
      forall w | Newest(table, w) && KeyOf(w) in Keys(mail) ensures Untimed(w) in Means(mail) {
        var order := NewestCanBeFirst(table, w);
        assert Untimed(w) in Shown(table, order, Keys(mail));
      }
    }
  }

  lemma KeyIsShown(table: seq<Row>, order: seq<nat>, key: Key) returns (v: Row)
    requires Ranks(table, order) && key in TableKeys(table)
    ensures v in Current(table, order) && KeyOf(v) == key && Newest(table, v)
  {
    hide Current;
    var w :| w in table && KeyOf(w) == key;
    OneNewestRowPerKey(table, order);
    assert key in ShownKeys(table, order);
    v :| v in Current(table, order) && KeyOf(v) == key;
  }

  lemma NewestAreShown(table: seq<Row>, order: seq<nat>, mail: Mail)
    requires Ranks(table, order) && KeysAgree(mail)
    requires forall key :: key in Keys(mail) ==> key in TableKeys(table)
    requires forall w :: Newest(table, w) && KeyOf(w) in Keys(mail) ==> Untimed(w) in Means(mail)
    ensures Shown(table, order, Keys(mail)) == Means(mail)
  {
    hide Current, KeyOf, Untimed, RowAt, Ranks, Newest, TableKeys;
    forall x | x in Shown(table, order, Keys(mail)) ensures x in Means(mail) {
      var v :| v in Current(table, order) && KeyOf(v) in Keys(mail) && x == Untimed(v);
      ShownIsNewest(table, order, v);
    }
    forall x | x in Means(mail) ensures x in Shown(table, order, Keys(mail)) {
      var r :| r in mail.produced && x == Untimed(RowAt(mail, 0, r));
      var v := KeyIsShown(table, order, KeyOf(RowAt(mail, 0, r)));
      var s :| s in mail.produced && Untimed(v) == Untimed(RowAt(mail, 0, s));
      KeyOfUntimed(mail, v, s);
    }
  }

  lemma ShownIsNewest(table: seq<Row>, order: seq<nat>, v: Row)
    requires Ranks(table, order) && v in Current(table, order)
    ensures Newest(table, v)
  {
    OneNewestRowPerKey(table, order);
  }

  /** A prevailing message is what the view shows, however ties are broken. */
  lemma PrevailingIsShown(table: seq<Row>, order: seq<nat>, mail: Mail, time: int)
    requires Ranks(table, order) && KeysAgree(mail) && Prevails(table, mail, time)
    ensures Shown(table, order, Keys(mail)) == Means(mail)
  {
    hide KeyOf, Untimed, RowAt;
    forall r | r in mail.produced
      ensures RowAt(mail, time, r) in table && KeyOf(RowAt(mail, time, r)) == KeyOf(RowAt(mail, 0, r))
      ensures RowAt(mail, time, r).ingestedAt == UnixMicro(time)
    {
      SameUntimed(mail, time, r);
    }
    forall w | Newest(table, w) && KeyOf(w) in Keys(mail) ensures Untimed(w) in Means(mail) {
      var r :| r in mail.produced && KeyOf(w) == KeyOf(RowAt(mail, 0, r));
      assert RowAt(mail, time, r) in table;
    }
    NewestAreShown(table, order, mail);
  }

  /** Delivery i had every batch of its document accepted. */
  predicate Complete(inbox: seq<Mail>, w: World, i: nat)
    requires WellFormed(inbox, w)
  {
    i < |w.births| && w.at[i].next == |Plan(inbox, w.births[i])| && inbox[w.births[i].mail].end.None?
  }

  /** A delivery that answered 204 is complete. */
  lemma AnsweredIsComplete(inbox: seq<Mail>, w: World, i: nat)
    requires Invariant(inbox, w) && i < |w.births| && w.at[i].Answered204?
    ensures Complete(inbox, w, i)
  {
    assert Answered(inbox, w, i);
  }

  /** Delivery i is complete and everything other messages wrote on its keys is strictly older. */
  predicate Latest(inbox: seq<Mail>, w: World, i: nat)
    requires WellFormed(inbox, w)
  {
    && Complete(inbox, w, i)
    && forall k :: 0 <= k < |w.table| && w.origin[k] < |w.births| && w.births[w.origin[k]].mail != w.births[i].mail
                   && KeyOf(w.table[k]) in Keys(inbox[w.births[i].mail]) ==>
                     w.table[k].ingestedAt < UnixMicro(w.births[i].at)
  }

  /** A complete delivery has every row of its message in the table, under one timestamp. */
  lemma StoredIsDurable(inbox: seq<Mail>, w: World, i: nat)
    requires Invariant(inbox, w) && Complete(inbox, w, i)
    ensures forall r :: r in inbox[w.births[i].mail].produced ==>
                          RowAt(inbox[w.births[i].mail], w.births[i].at, r) in w.table
  {
    var b := w.births[i];
    assert Kept(inbox, w, i);
    var plan := Plan(inbox, b);
    PlanCovers(b.rows, inbox[b.mail].produced, true);
    assert plan[..|plan|] == plan;
  }

  /**
   Safety of every run, however deliveries overlap and fail: a row of the table is a valid
   reading of its message, with its id and its delivery's one timestamp; a delivery answered
   204 has all its rows in the table; one answered 200, and no other, wrote to quarantine, once.
   */
  lemma EveryRunIsSafe(inbox: seq<Mail>, limit: nat, steps: seq<Step>, w: World)
    requires Runs(inbox, Initial(inbox, limit), steps, w)
    ensures WellFormed(inbox, w)
    ensures forall k :: 0 <= k < |w.table| ==> Traced(inbox, w, k)
    ensures forall i, r :: 0 <= i < |w.births| && w.at[i].Answered204? && r in inbox[w.births[i].mail].produced ==>
                             RowAt(inbox[w.births[i].mail], w.births[i].at, r) in w.table
    ensures forall i :: 0 <= i < |w.births| ==> multiset(w.parked)[i] == if w.at[i].Answered200? then 1 else 0
  {
    hide Runs, Traced, Kept, Caused, Plan, RowAt;
    InitialInvariant(inbox, limit);
    RunsKeepInvariant(inbox, Initial(inbox, limit), steps, w);
    forall i | 0 <= i < |w.births|
      ensures multiset(w.parked)[i] == if w.at[i].Answered200? then 1 else 0
      ensures w.at[i].Answered204? ==> forall r :: r in inbox[w.births[i].mail].produced ==>
                                                     RowAt(inbox[w.births[i].mail], w.births[i].at, r) in w.table
    {
      assert Answered(inbox, w, i);
      if w.at[i].Answered204? { StoredIsDurable(inbox, w, i); }
    }
  }

  lemma LatestPrevails(inbox: seq<Mail>, w: World, i: nat)
    requires Invariant(inbox, w) && Latest(inbox, w, i)
    ensures Prevails(w.table, inbox[w.births[i].mail], w.births[i].at)
  {
    var mail, time := inbox[w.births[i].mail], w.births[i].at;
    StoredIsDurable(inbox, w, i);
    forall x | x in w.table && KeyOf(x) in Keys(mail)
      ensures Untimed(x) in Means(mail) || x.ingestedAt < UnixMicro(time)
    {
      var k :| 0 <= k < |w.table| && w.table[k] == x;
      assert Traced(inbox, w, k);
      var b := w.births[w.origin[k]];
      if b.mail == w.births[i].mail {
        var r :| r in mail.produced && x == RowAt(mail, b.at, r);
        SameUntimed(mail, b.at, r);
      }
    }
  }

  /**
   Redelivery converges: take any run, of any number of overlapping and failing deliveries,
   any batch sizes and any appends that fail with or without persisting. Once one delivery of
   a message is complete and other messages' rows on its keys are strictly older, the view
   shows under those keys, times of ingest apart, what one clean delivery alone would show.
   */
  lemma RedeliveryConverges(inbox: seq<Mail>, limit: nat, steps: seq<Step>, w: World, i: nat, order: seq<nat>,
                            time: int, cleanOrder: seq<nat>)
    requires Runs(inbox, Initial(inbox, limit), steps, w)
    requires WellFormed(inbox, w) && Latest(inbox, w, i) && KeysAgree(inbox[w.births[i].mail])
    requires Ranks(w.table, order)
    requires var mail := inbox[w.births[i].mail]; Ranks(RowsOf(mail, time, mail.produced), cleanOrder)
    ensures var mail := inbox[w.births[i].mail];
            Shown(w.table, order, Keys(mail)) == Shown(RowsOf(mail, time, mail.produced), cleanOrder, Keys(mail))
  {
    var mail := inbox[w.births[i].mail];
    InitialInvariant(inbox, limit);
    RunsKeepInvariant(inbox, Initial(inbox, limit), steps, w);
    LatestPrevails(inbox, w, i);
    PrevailingIsShown(w.table, order, mail, w.births[i].at);
    CleanPrevails(mail, time);
    PrevailingIsShown(RowsOf(mail, time, mail.produced), cleanOrder, mail, time);
  }

  lemma CleanPrevails(mail: Mail, time: int)
    ensures Prevails(RowsOf(mail, time, mail.produced), mail, time)
  {
    var clean := RowsOf(mail, time, mail.produced);
    forall r | r in mail.produced ensures RowAt(mail, time, r) in clean {
      var k :| 0 <= k < |mail.produced| && mail.produced[k] == r;
      assert clean[k] == RowAt(mail, time, r);
    }
    forall x | x in clean ensures Untimed(x) in Means(mail) {
      var k :| 0 <= k < |clean| && clean[k] == x;
      SameUntimed(mail, time, mail.produced[k]);
    }
  }

  /**
   Corrections win by when their ingest started, not by write order: once a delivery that
   took a strictly later timestamp than every delivery of other messages is complete,
   the view shows its message on all its keys, in every interleaving of the appends, also
   when those of the others land later.
   */
  lemma CorrectionWins(inbox: seq<Mail>, limit: nat, steps: seq<Step>, w: World, i: nat, order: seq<nat>)
    requires Runs(inbox, Initial(inbox, limit), steps, w)
    requires WellFormed(inbox, w) && Complete(inbox, w, i) && KeysAgree(inbox[w.births[i].mail])
    requires forall j :: 0 <= j < |w.births| && w.births[j].mail != w.births[i].mail ==>
                           UnixMicro(w.births[j].at) < UnixMicro(w.births[i].at)
    requires Ranks(w.table, order)
    ensures Shown(w.table, order, Keys(inbox[w.births[i].mail])) == Means(inbox[w.births[i].mail])
  {
    InitialInvariant(inbox, limit);
    RunsKeepInvariant(inbox, Initial(inbox, limit), steps, w);
    forall k | 0 <= k < |w.table| && w.origin[k] < |w.births| && w.births[w.origin[k]].mail != w.births[i].mail
      ensures w.table[k].ingestedAt < UnixMicro(w.births[i].at)
    {
      assert Traced(inbox, w, k);
      var b := w.births[w.origin[k]];
      var r :| r in inbox[b.mail].produced && w.table[k] == RowAt(inbox[b.mail], b.at, r);
      SameUntimed(inbox[b.mail], b.at, r);
    }
    LatestPrevails(inbox, w, i);
    PrevailingIsShown(w.table, order, inbox[w.births[i].mail], w.births[i].at);
  }

  /**
   The promise that a later correction stays is limited by this: a redelivery of the old
   message that starts after every delivery of the correction takes the keys back, so the
   corrected row is no longer shown.
   */
  lemma LateRedeliveryUndoesCorrection(inbox: seq<Mail>, limit: nat, steps: seq<Step>, w: World, stale: nat,
                                       correction: nat, r: Reading, order: seq<nat>)
    requires Runs(inbox, Initial(inbox, limit), steps, w)
    requires WellFormed(inbox, w) && Complete(inbox, w, stale)
    requires KeysAgree(inbox[w.births[stale].mail])
    requires forall j :: 0 <= j < |w.births| && w.births[j].mail != w.births[stale].mail ==>
                           UnixMicro(w.births[j].at) < UnixMicro(w.births[stale].at)
    requires Complete(inbox, w, correction)
    requires w.births[correction].mail != w.births[stale].mail
    requires var mail := inbox[w.births[correction].mail];
             && r in mail.produced && KeyOf(RowAt(mail, 0, r)) in Keys(inbox[w.births[stale].mail])
             && Untimed(RowAt(mail, 0, r)) !in Means(inbox[w.births[stale].mail])
    requires Ranks(w.table, order)
    ensures var mail := inbox[w.births[correction].mail];
            && RowAt(mail, w.births[correction].at, r) in w.table
            && forall v :: v in Current(w.table, order) ==> Untimed(v) != Untimed(RowAt(mail, 0, r))
  {
    var mail := inbox[w.births[correction].mail];
    InitialInvariant(inbox, limit);
    RunsKeepInvariant(inbox, Initial(inbox, limit), steps, w);
    StoredIsDurable(inbox, w, correction);
    CorrectionWins(inbox, limit, steps, w, stale, order);
    forall v | v in Current(w.table, order) ensures Untimed(v) != Untimed(RowAt(mail, 0, r)) {
      var keys := Keys(inbox[w.births[stale].mail]);
      if KeyOf(v) in keys {
        assert Untimed(v) in Shown(w.table, order, keys);
      } else if Untimed(v) == Untimed(RowAt(mail, 0, r)) {
        KeyOfUntimed(mail, v, r);
        assert false;
      }
    }
  }
}
