/**
 The readings_current view: ROW_NUMBER per key, newest ingest first, row number one kept.
 Rows that tie are numbered in an order the query leaves open; `order` is that choice.
 */
module View {
  import opened Wire

  datatype Key = Key(meter: string, start: int, direction: string, measure: string)

  function KeyOf(w: Row): Key {
    Key(w.meter, w.start, w.direction, w.measure)
  }

  function TableKeys(table: seq<Row>): set<Key> {
    set w | w in table :: KeyOf(w)
  }

  function ShownKeys(table: seq<Row>, order: seq<nat>): set<Key>
    requires Ranks(table, order)
  {
    set v | v in Current(table, order) :: KeyOf(v)
  }

  /** One distinct rank for every row. */
  predicate Ranks(table: seq<Row>, order: seq<nat>) {
    |order| == |table| && forall i, j :: 0 <= i < |order| && 0 <= j < |order| && i != j ==> order[i] != order[j]
  }

  /** Row i is numbered before row j of the same partition. */
  predicate Precedes(table: seq<Row>, order: seq<nat>, i: nat, j: nat)
    requires Ranks(table, order) && i < |table| && j < |table|
  {
    && KeyOf(table[i]) == KeyOf(table[j])
    && (table[i].ingestedAt > table[j].ingestedAt
        || (table[i].ingestedAt == table[j].ingestedAt && order[i] < order[j]))
  }

  function RowNumber(table: seq<Row>, order: seq<nat>, i: nat): nat
    requires Ranks(table, order) && i < |table|
  {
    1 + |set j: nat | j < |table| && Precedes(table, order, j, i)|
  }

  function Current(table: seq<Row>, order: seq<nat>): set<Row>
    requires Ranks(table, order)
  {
    set i: nat | i < |table| && RowNumber(table, order, i) == 1 :: table[i]
  }

  lemma NumberOne(table: seq<Row>, order: seq<nat>, i: nat)
    requires Ranks(table, order) && i < |table|
    ensures RowNumber(table, order, i) == 1 <==> forall j: nat :: j < |table| ==> !Precedes(table, order, j, i)
  {
    var before := set j: nat | j < |table| && Precedes(table, order, j, i);
    if j: nat :| j < |table| && Precedes(table, order, j, i) {
      assert j in before;
    }
    assert |before| == 0 <==> before == {};
  }

  /** Of any rows with one key, some row precedes all the others. */
  lemma {:induction false} Best(table: seq<Row>, order: seq<nat>, s: set<nat>) returns (m: nat)
    requires Ranks(table, order) && s != {}
    requires forall i :: i in s ==> i < |table|
    requires forall i, j :: i in s && j in s ==> KeyOf(table[i]) == KeyOf(table[j])
    ensures m in s && forall j :: j in s && j != m ==> Precedes(table, order, m, j)
    decreases s
  {
    var i :| i in s;
    if s == {i} { return i; }
    var rest := s - {i};
    var other := Best(table, order, rest);
    m := if Precedes(table, order, other, i) then other else i;
    assert Precedes(table, order, other, i) || Precedes(table, order, i, other);
    forall j | j in s && j != m ensures Precedes(table, order, m, j) {
      assert j == i || j == other || Precedes(table, order, other, j);
    }
  }

  lemma SomeRowIsFirst(table: seq<Row>, order: seq<nat>, w: Row)
    requires Ranks(table, order) && w in table
    ensures exists v :: v in Current(table, order) && KeyOf(v) == KeyOf(w)
  {
    var i :| 0 <= i < |table| && table[i] == w;
    var peers := set j: nat | j < |table| && KeyOf(table[j]) == KeyOf(w);
    assert i in peers;
    var m := Best(table, order, peers);
    forall j: nat | j < |table| ensures !Precedes(table, order, j, m) {
      if j in peers && j != m { assert Precedes(table, order, m, j); }
    }
    NumberOne(table, order, m);
    assert table[m] in Current(table, order);
  }

  lemma FirstIsNewest(table: seq<Row>, order: seq<nat>, i: nat, j: nat)
    requires Ranks(table, order) && i < |table| && j < |table|
    requires KeyOf(table[i]) == KeyOf(table[j]) && RowNumber(table, order, i) == 1
    ensures table[j].ingestedAt <= table[i].ingestedAt
    ensures RowNumber(table, order, j) == 1 ==> i == j
  {
    NumberOne(table, order, i);
    NumberOne(table, order, j);
    assert !Precedes(table, order, j, i);
    if RowNumber(table, order, j) == 1 { assert !Precedes(table, order, i, j); }
  }

  lemma ViewRowIsNewest(table: seq<Row>, order: seq<nat>, v: Row, w: Row)
    requires Ranks(table, order)
    requires v in Current(table, order) && w in table && KeyOf(v) == KeyOf(w)
    ensures w.ingestedAt <= v.ingestedAt
    ensures w in Current(table, order) ==> v == w
  {
    var i: nat :| i < |table| && RowNumber(table, order, i) == 1 && table[i] == v;
    if w in Current(table, order) {
      var j: nat :| j < |table| && RowNumber(table, order, j) == 1 && table[j] == w;
      FirstIsNewest(table, order, i, j);
    } else {
      var j: nat :| j < |table| && table[j] == w;
      FirstIsNewest(table, order, i, j);
    }
  }

  lemma ShownRowsAreNewest(table: seq<Row>, order: seq<nat>)
    requires Ranks(table, order)
    ensures forall v :: v in Current(table, order) ==> v in table
    ensures forall v, w :: v in Current(table, order) && w in table && KeyOf(v) == KeyOf(w) ==>
                             w.ingestedAt <= v.ingestedAt && (w in Current(table, order) ==> v == w)
  {
    assert forall v :: v in Current(table, order) ==> v in table;
    hide Current, KeyOf;
    forall v, w | v in Current(table, order) && w in table && KeyOf(v) == KeyOf(w)
      ensures w.ingestedAt <= v.ingestedAt
      ensures w in Current(table, order) ==> v == w
    {
      ViewRowIsNewest(table, order, v, w);
    }
  }

  /** The view has exactly one row for every key of the table, and it is one of the newest. */
  lemma OneNewestRowPerKey(table: seq<Row>, order: seq<nat>)
    requires Ranks(table, order)
    ensures ShownKeys(table, order) == TableKeys(table)
    ensures forall v :: v in Current(table, order) ==> v in table
    ensures forall v, w :: v in Current(table, order) && w in table && KeyOf(v) == KeyOf(w) ==>
                             w.ingestedAt <= v.ingestedAt
    ensures forall v, w :: v in Current(table, order) && w in Current(table, order) && KeyOf(v) == KeyOf(w) ==> v == w
  {
    hide Current, KeyOf, Ranks;
    ShownRowsAreNewest(table, order);
    forall key | key in TableKeys(table) ensures key in ShownKeys(table, order) {
      var w :| w in table && KeyOf(w) == key;
      SomeRowIsFirst(table, order, w);
    }
  }

  /**
   In the columns themselves: every row has a shown row of its metering point, interval start,
   direction and measure, which is no older, and there is only one of those.
   */
  lemma OneNewestRowPerCell(table: seq<Row>, order: seq<nat>)
    requires Ranks(table, order)
    ensures forall w :: w in table ==> HasShown(table, order, w)
    ensures forall v :: v in Current(table, order) ==> v in table
    ensures forall v, w :: && v in Current(table, order) && w in table
                           && v.meter == w.meter && v.start == w.start
                           && v.direction == w.direction && v.measure == w.measure
                           ==> w.ingestedAt <= v.ingestedAt
    ensures forall v, w :: && v in Current(table, order) && w in Current(table, order)
                           && v.meter == w.meter && v.start == w.start
                           && v.direction == w.direction && v.measure == w.measure
                           ==> v == w
  {
    hide Current, Ranks, HasShown, ShownKeys, TableKeys;
    OneNewestRowPerKey(table, order);
    forall w | w in table ensures HasShown(table, order, w) { RowHasShown(table, order, w); }
  }

  /** Some shown row has its meter, start, direction and measure. */
  ghost predicate HasShown(table: seq<Row>, order: seq<nat>, w: Row)
    requires Ranks(table, order)
  {
    exists v :: v in Current(table, order)
                && v.meter == w.meter && v.start == w.start && v.direction == w.direction && v.measure == w.measure
  }

  lemma RowHasShown(table: seq<Row>, order: seq<nat>, w: Row)
    requires Ranks(table, order) && w in table
    ensures HasShown(table, order, w)
  {
    hide Current, Ranks;
    SomeRowIsFirst(table, order, w);
  }

  /** Every other row of its key is strictly older, or a copy of it. */
  predicate Dominant(table: seq<Row>, w: Row) {
    w in table && forall x :: x in table && KeyOf(x) == KeyOf(w) ==> x == w || x.ingestedAt < w.ingestedAt
  }

  /** No row of its key is newer. */
  predicate Newest(table: seq<Row>, w: Row) {
    w in table && forall x :: x in table && KeyOf(x) == KeyOf(w) ==> x.ingestedAt <= w.ingestedAt
  }

  /** Whichever newest row the query happens to number first is shown. */
  lemma NewestCanBeFirst(table: seq<Row>, w: Row) returns (order: seq<nat>)
    requires Newest(table, w)
    ensures Ranks(table, order) && w in Current(table, order)
  {
    var i: nat :| i < |table| && table[i] == w;
    order := seq(|table|, k requires 0 <= k < |table| => if k == i then 0 else k + 1);
    forall j: nat | j < |table| ensures !Precedes(table, order, j, i) {
      assert table[j] in table;
    }
    NumberOne(table, order, i);
  }

  /** A dominant row is what the view shows for its key, however ties elsewhere fall. */
  lemma DominantWins(table: seq<Row>, order: seq<nat>, w: Row)
    requires Ranks(table, order) && Dominant(table, w)
    ensures forall v :: v in Current(table, order) && KeyOf(v) == KeyOf(w) <==> v == w
  {
    OneNewestRowPerKey(table, order);
    assert KeyOf(w) in ShownKeys(table, order);
    var v :| v in Current(table, order) && KeyOf(v) == KeyOf(w);
    assert v == w;
  }

  /** And only a dominant row is sure to be: any other can lose a tie, or is not the newest. */
  lemma ShownUnderEveryOrder(table: seq<Row>, w: Row)
    requires w in table
    ensures (forall order :: Ranks(table, order) ==> w in Current(table, order)) <==> Dominant(table, w)
  {
    hide Current, RowNumber;
    forall order | Ranks(table, order) && Dominant(table, w) ensures w in Current(table, order) {
      DominantWins(table, order, w);
    }
    if !Dominant(table, w) {
      var x :| x in table && KeyOf(x) == KeyOf(w) && x != w && x.ingestedAt >= w.ingestedAt;
      var order := seq(|table|, k requires 0 <= k < |table| => k);
      if Newest(table, x) {
        order := NewestCanBeFirst(table, x);
      }
      OneNewestRowPerKey(table, order);
      assert KeyOf(x) in ShownKeys(table, order);
      assert w !in Current(table, order);
    }
  }

  /** Only what rows there are matters, not the order they were appended in. */
  lemma PermutationInvisible(a: seq<Row>, b: seq<Row>, w: Row)
    requires multiset(a) == multiset(b)
    ensures Dominant(a, w) <==> Dominant(b, w)
  {
    assert forall x :: x in a <==> x in multiset(a);
    assert forall x :: x in b <==> x in multiset(b);
  }

  /** Rows added anywhere that are strictly older, or copies, change nothing for that key. */
  lemma OlderRowsInvisible(a: seq<Row>, b: seq<Row>, w: Row)
    requires Dominant(a, w)
    requires forall x :: x in a ==> x in b
    requires forall x :: x in b && KeyOf(x) == KeyOf(w) ==> x in a || x.ingestedAt < w.ingestedAt
    ensures Dominant(b, w)
  {
  }

  /** On one table the view of an untied key is the same under every choice among ties. */
  lemma UntiedKeyIsStable(a: seq<Row>, b: seq<Row>, orderA: seq<nat>, orderB: seq<nat>, w: Row)
    requires Ranks(a, orderA) && Ranks(b, orderB) && Dominant(a, w)
    requires forall x :: x in a ==> x in b
    requires forall x :: x in b && KeyOf(x) == KeyOf(w) ==> x in a || x.ingestedAt < w.ingestedAt
    ensures (set v | v in Current(a, orderA) && KeyOf(v) == KeyOf(w)) == {w}
    ensures (set v | v in Current(b, orderB) && KeyOf(v) == KeyOf(w)) == {w}
  {
    OlderRowsInvisible(a, b, w);
    DominantWins(a, orderA, w);
    DominantWins(b, orderB, w);
  }
}
