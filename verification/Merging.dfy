/** Many requests at once: any merge of the steps that deliveries can take alone is a run. */
module Merging {
  import opened Errors
  import opened Wire
  import opened Batching
  import opened Delivery
  import opened Interleaving

  /** The steps of delivery i, in order. */
  function Own(steps: seq<Step>, i: nat): seq<Step> {
    if steps == [] then []
    else (if OfDelivery(steps[0]) && steps[0].i == i then [steps[0]] else []) + Own(steps[1..], i)
  }

  predicate AllOwn(steps: seq<Step>, i: nat) {
    forall s :: s in steps ==> OfDelivery(s) && s.i == i
  }

  ghost predicate CanRun(inbox: seq<Mail>, w: World, steps: seq<Step>)
    requires WellFormed(inbox, w)
  {
    exists v :: Runs(inbox, w, steps, v)
  }

  /** The rows of the table that delivery i appended, in order. */
  function RowsFrom(w: World, i: nat): seq<Row>
    requires |w.origin| == |w.table|
  {
    Filtered(w.table, w.origin, i)
  }

  function Filtered(table: seq<Row>, origin: seq<nat>, i: nat): seq<Row>
    requires |origin| == |table|
  {
    if table == [] then []
    else
      var n := |table| - 1;
      Filtered(table[..n], origin[..n], i) + if origin[n] == i then [table[n]] else []
  }

  lemma {:induction false} FilteredAppend(table: seq<Row>, origin: seq<nat>, rows: seq<Row>, j: nat, i: nat)
    requires |origin| == |table|
    ensures Filtered(table + rows, origin + seq(|rows|, _ => j), i)
            == Filtered(table, origin, i) + if i == j then rows else []
  {
    if rows == [] {
      assert table + rows == table && origin + seq(|rows|, _ => j) == origin;
    } else {
      var n := |rows| - 1;
      FilteredAppend(table, origin, rows[..n], j, i);
      var all, from := table + rows, origin + seq(|rows|, _ => j);
      assert all[..|all| - 1] == table + rows[..n] && from[..|all| - 1] == origin + seq(n, _ => j);
      assert rows == rows[..n] + [rows[n]];
    }
  }

  /** A step adds its rows to its own delivery's, and to no other's. */
  lemma StepRows(inbox: seq<Mail>, w: World, step: Step, i: nat)
    requires WellFormed(inbox, w) && OfDelivery(step) && Enabled(inbox, w, step)
    ensures WellFormed(inbox, Apply(inbox, w, step))
    ensures Apply(inbox, w, step).table == w.table + Added(inbox, w, step)
    ensures RowsFrom(Apply(inbox, w, step), i) == RowsFrom(w, i) + if i == step.i then Added(inbox, w, step) else []
  {
    hide Plan, Apply, Enabled, Repeat, RowsOf, ValidBatch, Filtered;
    StepKeepsForm(inbox, w, step);
    StepAdds(inbox, w, step);
    var added := Added(inbox, w, step);
    FilteredAppend(w.table, w.origin, added, step.i, i);
    if added == [] { assert w.table + added == w.table && w.origin + seq(|added|, _ => step.i) == w.origin; }
  }

  lemma AddedIsLocal(inbox: seq<Mail>, w: World, v: World, s: Step)
    requires WellFormed(inbox, w) && WellFormed(inbox, v) && w.births == v.births
    requires OfDelivery(s) && Enabled(inbox, w, s) && Enabled(inbox, v, s) && v.at[s.i] == w.at[s.i]
    ensures Added(inbox, v, s) == Added(inbox, w, s)
  {
    hide Plan, ValidBatch, RowsOf, Repeat;
  }

  /** What one delivery does alone it does from any world in which it stands where it stood. */
  lemma {:induction false} RunIsLocal(inbox: seq<Mail>, w: World, v: World, steps: seq<Step>, i: nat, w': World)
    returns (v': World)
    requires WellFormed(inbox, w) && WellFormed(inbox, v) && w.births == v.births && i < |w.births|
    requires w.at[i] == v.at[i] && RowsFrom(w, i) == RowsFrom(v, i)
    requires AllOwn(steps, i) && Runs(inbox, w, steps, w')
    ensures WellFormed(inbox, w') && WellFormed(inbox, v') && w'.births == v'.births == w.births
    ensures Runs(inbox, v, steps, v') && v'.at[i] == w'.at[i] && RowsFrom(v', i) == RowsFrom(w', i)
    decreases |steps|
  {
    hide Plan, Apply, Enabled, Added, RowsFrom;
    if steps == [] { return v; }
    var s := steps[0];
    StepIsLocal(inbox, w, v, s);
    StepIsLocal(inbox, v, w, s);
    StepRows(inbox, w, s, i);
    StepRows(inbox, v, s, i);
    AddedIsLocal(inbox, w, v, s);
    v' := RunIsLocal(inbox, Apply(inbox, w, s), Apply(inbox, v, s), steps[1..], i, w');
  }

  /** What a delivery adds alone are its own rows. */
  lemma {:induction false} OwnRows(inbox: seq<Mail>, w: World, steps: seq<Step>, i: nat, w': World)
    returns (added: seq<Row>)
    requires WellFormed(inbox, w) && AllOwn(steps, i) && Runs(inbox, w, steps, w')
    ensures WellFormed(inbox, w') && w'.births == w.births
    ensures w'.table == w.table + added && RowsFrom(w', i) == RowsFrom(w, i) + added
    decreases |steps|
  {
    hide Plan, Apply, Enabled, Added, RowsFrom;
    if steps == [] { return []; }
    var s := steps[0];
    var first := Added(inbox, w, s);
    StepRows(inbox, w, s, i);
    StepMovesOne(inbox, w, s);
    var more := OwnRows(inbox, Apply(inbox, w, s), steps[1..], i, w');
    added := first + more;
  }

  lemma {:induction false} OwnIsOwn(steps: seq<Step>, i: nat)
    ensures AllOwn(Own(steps, i), i)
  {
    if steps != [] { OwnIsOwn(steps[1..], i); }
  }

  lemma OwnHead(steps: seq<Step>, i: nat)
    requires steps != [] && OfDelivery(steps[0])
    ensures Own(steps, i) == if steps[0].i == i then [steps[0]] + Own(steps[1..], i) else Own(steps[1..], i)
  {
  }

  predicate AllMoves(steps: seq<Step>, births: nat) {
    forall s :: s in steps ==> OfDelivery(s) && s.i < births
  }

  /** The run ends for delivery i, and with its rows, as its own steps alone would end. */
  ghost predicate EndsAsAlone(inbox: seq<Mail>, w: World, steps: seq<Step>, i: nat, w': World)
    requires WellFormed(inbox, w) && |w'.origin| == |w'.table|
  {
    forall v :: Runs(inbox, w, Own(steps, i), v) ==>
                  |v.origin| == |v.table| && i < |w'.at| && i < |v.at|
                  && w'.at[i] == v.at[i] && RowsFrom(w', i) == RowsFrom(v, i)
  }

  /** Any merge of what started deliveries can do alone is a run, and each ends as it would alone. */
  lemma {:induction false} MovesMerge(inbox: seq<Mail>, w: World, steps: seq<Step>) returns (w': World)
    requires WellFormed(inbox, w) && AllMoves(steps, |w.births|)
    requires forall i :: 0 <= i < |w.births| ==> CanRun(inbox, w, Own(steps, i))
    ensures Runs(inbox, w, steps, w') && WellFormed(inbox, w') && w'.births == w.births
    ensures forall i :: 0 <= i < |w.births| ==> EndsAsAlone(inbox, w, steps, i, w')
    decreases |steps|
  {
    if steps == [] { return w; }
    hide Plan, Apply, Enabled, Added, RowsFrom, EndsAsAlone, CanRun;
    var s, rest := steps[0], steps[1..];
    assert s in steps;
    FirstCanRun(inbox, w, steps);
    StepKeepsForm(inbox, w, s);
    var w1 := Apply(inbox, w, s);
    StepMovesOne(inbox, w, s);
    forall i | 0 <= i < |w.births| ensures CanRun(inbox, w1, Own(rest, i)) {
      RestCanRun(inbox, w, steps, i);
    }
    w' := MovesMerge(inbox, w1, rest);
    forall i | 0 <= i < |w.births| ensures EndsAsAlone(inbox, w, steps, i, w') {
      RestEndsAsAlone(inbox, w, steps, i, w');
    }
  }

  lemma StepMovesOne(inbox: seq<Mail>, w: World, s: Step)
    requires WellFormed(inbox, w) && OfDelivery(s) && Enabled(inbox, w, s)
    ensures Apply(inbox, w, s).births == w.births
    ensures forall i :: 0 <= i < |w.births| && i != s.i ==>
                          i < |Apply(inbox, w, s).at| && Apply(inbox, w, s).at[i] == w.at[i]
  {
    hide Plan, Apply, Enabled;
    StepMoves(inbox, w, s);
  }

  lemma FirstCanRun(inbox: seq<Mail>, w: World, steps: seq<Step>)
    requires WellFormed(inbox, w) && steps != [] && AllMoves(steps, |w.births|)
    requires OfDelivery(steps[0]) && CanRun(inbox, w, Own(steps, steps[0].i))
    ensures Enabled(inbox, w, steps[0])
  {
    hide Enabled, Apply, Plan;
    var own := Own(steps, steps[0].i);
    assert steps[0] in steps && own[0] == steps[0];
  }

  lemma RestCanRun(inbox: seq<Mail>, w: World, steps: seq<Step>, i: nat)
    requires WellFormed(inbox, w) && steps != [] && AllMoves(steps, |w.births|) && Enabled(inbox, w, steps[0])
    requires i < |w.births| && CanRun(inbox, w, Own(steps, i)) && WellFormed(inbox, Apply(inbox, w, steps[0]))
    ensures CanRun(inbox, Apply(inbox, w, steps[0]), Own(steps[1..], i))
  {
    hide Enabled, Apply, Plan, RowsFrom;
    var s, rest := steps[0], steps[1..];
    assert s in steps;
    var v :| Runs(inbox, w, Own(steps, i), v);
    OwnHead(steps, i);
    if s.i == i {
      assert Own(steps, i)[1..] == Own(rest, i);
      assert Runs(inbox, Apply(inbox, w, s), Own(rest, i), v);
    } else {
      StepMovesOne(inbox, w, s);
      StepRows(inbox, w, s, i);
      OwnIsOwn(rest, i);
      var _ := RunIsLocal(inbox, w, Apply(inbox, w, s), Own(rest, i), i, v);
    }
  }

  lemma RestEndsAsAlone(inbox: seq<Mail>, w: World, steps: seq<Step>, i: nat, w': World)
    requires WellFormed(inbox, w) && steps != [] && AllMoves(steps, |w.births|) && Enabled(inbox, w, steps[0])
    requires i < |w.births| && WellFormed(inbox, Apply(inbox, w, steps[0])) && |w'.origin| == |w'.table|
    requires EndsAsAlone(inbox, Apply(inbox, w, steps[0]), steps[1..], i, w')
    ensures EndsAsAlone(inbox, w, steps, i, w')
  {
    hide Enabled, Apply, Plan, RowsFrom;
    var s, rest := steps[0], steps[1..];
    assert s in steps;
    forall v | Runs(inbox, w, Own(steps, i), v)
      ensures |v.origin| == |v.table| && i < |w'.at| && i < |v.at|
      ensures w'.at[i] == v.at[i] && RowsFrom(w', i) == RowsFrom(v, i)
    {
      OwnHead(steps, i);
      if s.i == i {
        assert Own(steps, i)[1..] == Own(rest, i);
      } else {
        StepMovesOne(inbox, w, s);
        StepRows(inbox, w, s, i);
        OwnIsOwn(rest, i);
        var _ := RunIsLocal(inbox, w, Apply(inbox, w, s), Own(rest, i), i, v);
      }
    }
  }

  // ----- deliveries that start in between -----

  function Starts(steps: seq<Step>): seq<Step> {
    if steps == [] then [] else (if IsStart(steps[0]) then [steps[0]] else []) + Starts(steps[1..])
  }

  function Moves(steps: seq<Step>): seq<Step> {
    if steps == [] then [] else (if OfDelivery(steps[0]) then [steps[0]] else []) + Moves(steps[1..])
  }

  /** Deliveries start and move, and none moves before it has started; n have started already. */
  predicate InTime(steps: seq<Step>, n: nat) {
    steps == []
    || (if OfDelivery(steps[0]) then steps[0].i < n && InTime(steps[1..], n)
        else IsStart(steps[0]) && InTime(steps[1..], if steps[0].Deliver? then n + 1 else n))
  }

  /** What a start changes. */
  function Started(w: World, t: Step): World
    requires IsStart(t) && t.m < |w.left| && w.left[t.m] > 0
  {
    if t.Refuse? then Use(w, t.m)
    else Use(w, t.m).(births := w.births + [Birth(t.m, t.rows, t.time)], at := w.at + [Running(0)])
  }

  lemma StartIs(inbox: seq<Mail>, w: World, t: Step)
    requires WellFormed(inbox, w) && IsStart(t) && Enabled(inbox, w, t)
    ensures t.m < |w.left| && w.left[t.m] > 0 && Apply(inbox, w, t) == Started(w, t)
  {
    hide Plan, ValidBatch;
  }

  lemma MoveIsEnabledBefore(inbox: seq<Mail>, w: World, v: World, s: Step)
    requires WellFormed(inbox, w) && WellFormed(inbox, v) && w.births <= v.births && w.at <= v.at
    requires OfDelivery(s) && s.i < |w.births| && Enabled(inbox, v, s)
    ensures Enabled(inbox, w, s)
  {
    hide Plan, ValidBatch;
    assert v.at[s.i] == w.at[s.i] && v.births[s.i] == w.births[s.i];
  }

  /** A move of an earlier delivery leaves a start what it is. */
  lemma StartIsEnabledAfter(inbox: seq<Mail>, w: World, t: Step, s: Step)
    requires WellFormed(inbox, w) && IsStart(t) && Enabled(inbox, w, t)
    requires OfDelivery(s) && Enabled(inbox, w, s) && WellFormed(inbox, Apply(inbox, w, s))
    ensures Enabled(inbox, Apply(inbox, w, s), t)
  {
    hide Plan, Classify, Is, Repeat, ValidBatch, RowsOf, Apply;
    StepMoves(inbox, w, s);
  }

  /** A move that says where its delivery stands afterwards, what it adds and decides. */
  lemma MoveIs(inbox: seq<Mail>, w: World, v: World, s: Step)
    requires WellFormed(inbox, w) && WellFormed(inbox, v) && w.births <= v.births && w.at <= v.at
    requires OfDelivery(s) && s.i < |w.births| && Enabled(inbox, w, s) && Enabled(inbox, v, s)
    requires w.table == v.table && w.origin == v.origin && w.fate == v.fate && w.parked == v.parked
    ensures var w', v' := Apply(inbox, w, s), Apply(inbox, v, s);
            && w'.table == v'.table && w'.origin == v'.origin && w'.fate == v'.fate && w'.parked == v'.parked
            && s.i < |w.at| && w'.at == w.at[s.i := w'.at[s.i]] && v'.at == v.at[s.i := w'.at[s.i]]
            && w'.births == w.births && v'.births == v.births && w'.left == w.left && v'.left == v.left
  {
    hide Plan, Classify, Is, Repeat, ValidBatch, RowsOf;
    assert v.at[s.i] == w.at[s.i] && v.births[s.i] == w.births[s.i];
  }

  /** A step of a delivery can as well be taken before another delivery starts. */
  lemma StartCommutes(inbox: seq<Mail>, w: World, t: Step, s: Step)
    requires WellFormed(inbox, w) && IsStart(t) && Enabled(inbox, w, t) && WellFormed(inbox, Apply(inbox, w, t))
    requires OfDelivery(s) && s.i < |w.births| && Enabled(inbox, Apply(inbox, w, t), s)
    ensures Enabled(inbox, w, s) && WellFormed(inbox, Apply(inbox, w, s))
    ensures Enabled(inbox, Apply(inbox, w, s), t)
    ensures Apply(inbox, Apply(inbox, w, s), t) == Apply(inbox, Apply(inbox, w, t), s)
  {
    hide Plan, Apply, Enabled, WellFormed;
    var v := Apply(inbox, w, t);
    StartIs(inbox, w, t);
    MoveIsEnabledBefore(inbox, w, v, s);
    StepKeepsForm(inbox, w, s);
    StartIsEnabledAfter(inbox, w, t, s);
    MoveIs(inbox, w, v, s);
    StartIs(inbox, Apply(inbox, w, s), t);
    var a, b := Apply(inbox, Apply(inbox, w, s), t), Apply(inbox, v, s);
    assert a.at == b.at && a.births == b.births && a.left == b.left;
  }

  lemma {:induction false} MoveBeforeStarts(inbox: seq<Mail>, w: World, starts: seq<Step>, mid: World, s: Step)
    requires WellFormed(inbox, w) && WellFormed(inbox, mid) && (forall t :: t in starts ==> IsStart(t))
    requires Runs(inbox, w, starts, mid) && OfDelivery(s) && s.i < |w.births| && Enabled(inbox, mid, s)
    ensures Enabled(inbox, w, s) && WellFormed(inbox, Apply(inbox, w, s))
    ensures Runs(inbox, Apply(inbox, w, s), starts, Apply(inbox, mid, s))
    decreases |starts|
  {
    hide Apply, Enabled, Plan;
    if starts == [] {
      StepKeepsForm(inbox, w, s);
      assert Runs(inbox, Apply(inbox, w, s), [], Apply(inbox, mid, s));
    } else {
      var t, later := starts[0], starts[1..];
      assert t in starts;
      StepKeepsForm(inbox, w, t);
      StartIs(inbox, w, t);
      MoveBeforeStarts(inbox, Apply(inbox, w, t), later, mid, s);
      StartCommutes(inbox, w, t, s);
      RunsFirst(inbox, Apply(inbox, w, s), t, later, Apply(inbox, mid, s));
      assert [t] + later == starts;
    }
  }

  lemma {:induction false} StartsAreStarts(steps: seq<Step>)
    ensures forall t :: t in Starts(steps) ==> IsStart(t)
  {
    if steps != [] { StartsAreStarts(steps[1..]); }
  }

  /** Steps in any merge may be reordered so that all deliveries start first. */
  lemma {:induction false} StartsFirst(inbox: seq<Mail>, w: World, steps: seq<Step>, mid: World, w': World)
    requires WellFormed(inbox, w) && InTime(steps, |w.births|)
    requires Runs(inbox, w, Starts(steps), mid) && WellFormed(inbox, mid) && Runs(inbox, mid, Moves(steps), w')
    ensures Runs(inbox, w, steps, w')
    decreases |steps|
  {
    hide Apply, Enabled, Plan;
    if steps == [] { return; }
    var s, rest := steps[0], steps[1..];
    assert [s] + rest == steps;
    if OfDelivery(s) {
      assert Moves(steps)[1..] == Moves(rest) && Moves(steps)[0] == s;
      StartsAreStarts(rest);
      assert Starts(steps) == Starts(rest);
      MoveBeforeStarts(inbox, w, Starts(rest), mid, s);
      StepKeepsForm(inbox, mid, s);
      StepMovesOne(inbox, w, s);
      StartsFirst(inbox, Apply(inbox, w, s), rest, Apply(inbox, mid, s), w');
    } else {
      assert Starts(steps)[1..] == Starts(rest) && Starts(steps)[0] == s;
      assert Moves(steps) == Moves(rest);
      StepKeepsForm(inbox, w, s);
      StartIs(inbox, w, s);
      StartsFirst(inbox, Apply(inbox, w, s), rest, mid, w');
    }
    RunsFirst(inbox, w, s, rest, w');
  }

  /** How many deliveries start. */
  function Born(steps: seq<Step>): nat {
    if steps == [] then 0 else (if steps[0].Deliver? then 1 else 0) + Born(steps[1..])
  }

  lemma {:induction false} MovesOf(steps: seq<Step>, i: nat, n: nat)
    requires InTime(steps, n)
    ensures Own(Moves(steps), i) == Own(steps, i)
    ensures AllMoves(Moves(steps), n + Born(steps))
  {
    if steps != [] {
      var s, rest := steps[0], steps[1..];
      MovesOf(rest, i, if s.Deliver? then n + 1 else n);
      if OfDelivery(s) {
        assert Moves(steps)[1..] == Moves(rest);
      } else {
        assert Moves(steps) == Moves(rest) && Own(steps, i) == Own(rest, i);
      }
    }
  }

  lemma {:induction false} StartsBear(inbox: seq<Mail>, w: World, steps: seq<Step>, mid: World)
    requires WellFormed(inbox, w) && Runs(inbox, w, Starts(steps), mid)
    ensures WellFormed(inbox, mid) && |mid.births| == |w.births| + Born(steps)
    decreases |steps|
  {
    hide Apply, Enabled, Plan;
    if steps == [] { return; }
    var s, rest := steps[0], steps[1..];
    if IsStart(s) {
      assert Starts(steps)[1..] == Starts(rest) && Starts(steps)[0] == s;
      StepKeepsForm(inbox, w, s);
      StartIs(inbox, w, s);
      StartsBear(inbox, Apply(inbox, w, s), rest, mid);
    } else {
      assert Starts(steps) == Starts(rest);
      StartsBear(inbox, w, rest, mid);
    }
  }

  /**
   Requests need not be handled one after another: take any sequence in which deliveries start
   and move, each after its own start. If the starts are possible, and each delivery could
   take its own steps were it alone, the whole sequence is a run, and each delivery ends with
   the answer, and the rows in the table, that it would alone.
   */
  lemma AnyMergeIsRun(inbox: seq<Mail>, w: World, steps: seq<Step>, started: World) returns (w': World)
    requires WellFormed(inbox, w) && InTime(steps, |w.births|) && Runs(inbox, w, Starts(steps), started)
    requires WellFormed(inbox, started)
    requires forall i :: 0 <= i < |started.births| ==> CanRun(inbox, started, Own(steps, i))
    ensures Runs(inbox, w, steps, w') && WellFormed(inbox, w') && w'.births == started.births
    ensures forall i :: 0 <= i < |started.births| ==> EndsAsAlone(inbox, started, steps, i, w')
  {
    hide Plan, Apply, Enabled, Runs, RowsFrom;
    var moves := Moves(steps);
    StartsBear(inbox, w, steps, started);
    MovesOf(steps, 0, |w.births|);
    forall i | 0 <= i < |started.births|
      ensures CanRun(inbox, started, Own(moves, i)) && Own(moves, i) == Own(steps, i)
    {
      MovesOf(steps, i, |w.births|);
    }
    w' := MovesMerge(inbox, started, moves);
    forall i | 0 <= i < |started.births| ensures EndsAsAlone(inbox, started, steps, i, w') {
      assert EndsAsAlone(inbox, started, moves, i, w');
    }
    StartsFirst(inbox, w, steps, started, w');
  }
}
