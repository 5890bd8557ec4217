/** Every run of the delivery protocol ends, and decides every message. */
module Termination {
  import opened Errors
  import opened Consumption
  import opened Batching
  import opened Delivery

  function Sum(s: seq<nat>): nat {
    if s == [] then 0 else Sum(s[..|s| - 1]) + s[|s| - 1]
  }

  lemma {:induction false} SumUpdate(s: seq<nat>, i: nat, v: nat)
    requires i < |s|
    ensures Sum(s[i := v]) + s[i] == Sum(s) + v
  {
    var n := |s| - 1;
    if i < n {
      assert s[i := v][..n] == s[..n][i := v];
      SumUpdate(s[..n], i, v);
    } else {
      assert s[i := v][..n] == s[..n];
    }
  }

  lemma SumPush(s: seq<nat>, v: nat)
    ensures Sum(s + [v]) == Sum(s) + v
  {
    assert (s + [v])[..|s|] == s;
  }

  /** What the deliveries a message has left may still cost: each at most one step per reading, and three more. */
  function Cost(mail: Mail, left: nat): nat {
    left * (|mail.produced| + 3)
  }

  function Costs(inbox: seq<Mail>, left: seq<nat>): seq<nat>
    requires |left| == |inbox|
  {
    seq(|left|, m requires 0 <= m < |left| => Cost(inbox[m], left[m]))
  }

  function Pending(f: Fate): nat {
    if f.Undecided? then 1 else 0
  }

  function Pendings(fate: seq<Fate>): seq<nat> {
    seq(|fate|, m requires 0 <= m < |fate| => Pending(fate[m]))
  }

  /** The steps a delivery still has to take. */
  function Remaining(inbox: seq<Mail>, b: Birth, p: Progress): nat
    requires b.mail < |inbox| && b.rows >= 1 && p.next <= |Plan(inbox, b)|
  {
    if p.Running? then |Plan(inbox, b)| - p.next + 1 else 0
  }

  function Remainings(inbox: seq<Mail>, w: World): seq<nat>
    requires WellFormed(inbox, w)
  {
    seq(|w.births|, i requires 0 <= i < |w.births| => Remaining(inbox, w.births[i], w.at[i]))
  }

  function Measure(inbox: seq<Mail>, w: World): nat
    requires WellFormed(inbox, w)
  {
    Sum(Costs(inbox, w.left)) + Sum(Pendings(w.fate)) + Sum(Remainings(inbox, w))
  }

  lemma {:induction false} PlanIsShort(b: nat, rs: seq<Reading>, done: bool)
    requires b >= 1
    ensures |Batches(b, rs, done)| <= |rs|
    decreases |rs|
  {
    if |rs| >= b { PlanIsShort(b, rs[b..], done); }
  }

  lemma UseCosts(inbox: seq<Mail>, w: World, m: nat)
    requires WellFormed(inbox, w) && m < |inbox| && w.left[m] > 0
    ensures Sum(Costs(inbox, Use(w, m).left)) + |inbox[m].produced| + 3 == Sum(Costs(inbox, w.left))
  {
    var less := Cost(inbox[m], w.left[m] - 1);
    SumUpdate(Costs(inbox, w.left), m, less);
    assert Costs(inbox, Use(w, m).left) == Costs(inbox, w.left)[m := less];
  }

  lemma DecideCosts(w: World, m: nat, fate: Fate)
    requires m < |w.fate|
    ensures Sum(Pendings(Acknowledge(w, m, fate).fate)) <= Sum(Pendings(w.fate))
  {
    var next := w.fate[m := fate];
    SumUpdate(Pendings(w.fate), m, Pending(fate));
    assert Pendings(next) == Pendings(w.fate)[m := Pending(fate)];
  }

  /** Any step of a delivery leaves it less to do, and everyone else as much. */
  lemma MoveCosts(inbox: seq<Mail>, w: World, w': World, i: nat)
    requires WellFormed(inbox, w) && WellFormed(inbox, w') && w'.births == w.births && IsRunning(w, i)
    requires w'.at == w.at[i := w'.at[i]] && (w'.at[i].Running? ==> w'.at[i].next == w.at[i].next + 1)
    ensures Sum(Remainings(inbox, w')) < Sum(Remainings(inbox, w))
  {
    hide Plan;
    var less := Remaining(inbox, w.births[i], w'.at[i]);
    SumUpdate(Remainings(inbox, w), i, less);
    assert Remainings(inbox, w') == Remainings(inbox, w)[i := less];
  }

  /** Each step lowers the measure. */
  lemma StepLowersMeasure(inbox: seq<Mail>, w: World, step: Step)
    requires WellFormed(inbox, w) && Enabled(inbox, w, step)
    ensures WellFormed(inbox, Apply(inbox, w, step)) && Measure(inbox, Apply(inbox, w, step)) < Measure(inbox, w)
  {
    StepKeepsForm(inbox, w, step);
    var w' := Apply(inbox, w, step);
    match step
    case Deliver(m, rows, time) => DeliverLowersMeasure(inbox, w, m, rows, time);
    case Refuse(m) =>
      UseCosts(inbox, w, m);
      assert Remainings(inbox, w') == Remainings(inbox, w);
    case DeadLetter(m) =>
      SumUpdate(Pendings(w.fate), m, 0);
      assert Pendings(w'.fate) == Pendings(w.fate)[m := 0];
      assert Remainings(inbox, w') == Remainings(inbox, w);
    case _ => MoveLowersMeasure(inbox, w, step);
  }

  lemma DeliverLowersMeasure(inbox: seq<Mail>, w: World, m: nat, rows: nat, time: int)
    requires WellFormed(inbox, w) && Enabled(inbox, w, Deliver(m, rows, time))
    requires WellFormed(inbox, Apply(inbox, w, Deliver(m, rows, time)))
    ensures Measure(inbox, Apply(inbox, w, Deliver(m, rows, time))) < Measure(inbox, w)
  {
    var w' := Apply(inbox, w, Deliver(m, rows, time));
    UseCosts(inbox, w, m);
    PlanIsShort(rows, inbox[m].produced, inbox[m].end.None?);
    var more := Remaining(inbox, Birth(m, rows, time), Running(0));
    SumPush(Remainings(inbox, w), more);
    assert Remainings(inbox, w') == Remainings(inbox, w) + [more];
  }

  lemma MoveLowersMeasure(inbox: seq<Mail>, w: World, step: Step)
    requires WellFormed(inbox, w) && Enabled(inbox, w, step) && WellFormed(inbox, Apply(inbox, w, step))
    requires OfDelivery(step)
    ensures Measure(inbox, Apply(inbox, w, step)) < Measure(inbox, w)
  {
    hide Plan, Apply, Acknowledge, Remainings, Pendings, Costs;
    StepMoves(inbox, w, step);
    MoveCosts(inbox, w, Apply(inbox, w, step), step.i);
    DecideCosts(w, w.births[step.i].mail, Stored);
    DecideCosts(w, w.births[step.i].mail, Quarantined);
  }

  /** Every run is finite: it takes at most as many steps as the measure it starts with. */
  lemma {:induction false} RunsAreBounded(inbox: seq<Mail>, w: World, steps: seq<Step>, w': World)
    requires WellFormed(inbox, w) && Runs(inbox, w, steps, w')
    ensures WellFormed(inbox, w') && |steps| + Measure(inbox, w') <= Measure(inbox, w)
    decreases |steps|
  {
    if steps != [] {
      StepLowersMeasure(inbox, w, steps[0]);
      RunsAreBounded(inbox, Apply(inbox, w, steps[0]), steps[1..], w');
    }
  }

  /** Every message is decided and every delivery answered. */
  predicate Settled(w: World) {
    && (forall m :: 0 <= m < |w.fate| ==> w.fate[m] != Undecided)
    && (forall i :: 0 <= i < |w.at| ==> !w.at[i].Running?)
  }

  /** Short of that, some step is enabled that needs no fault: no cancellation and no rejected append. */
  lemma NothingIsStuck(inbox: seq<Mail>, w: World) returns (step: Step)
    requires WellFormed(inbox, w) && !Settled(w)
    ensures Enabled(inbox, w, step) && !step.Cancel? && !step.Refuse? && (step.Append? ==> step.reply == Accepted(0))
  {
    hide Plan, ValidBatch;
    if i: nat :| i < |w.at| && w.at[i].Running? {
      if w.at[i].next == |Plan(inbox, w.births[i])| { return Finish(i); }
      if ValidBatch(inbox[w.births[i].mail], w.births[i].at, Plan(inbox, w.births[i])[w.at[i].next]) {
        return Append(i, Accepted(0));
      }
      return Invalid(i);
    }
    var m: nat :| m < |w.fate| && w.fate[m] == Undecided;
    step := if w.left[m] > 0 then Deliver(m, 1, 0) else DeadLetter(m);
  }

  /** So whatever has happened, a run goes on to where everything is settled. */
  lemma {:induction false} RunsSettle(inbox: seq<Mail>, w: World) returns (steps: seq<Step>, w': World)
    requires WellFormed(inbox, w)
    ensures Runs(inbox, w, steps, w') && Settled(w')
    decreases Measure(inbox, w)
  {
    if Settled(w) { return [], w; }
    var step := NothingIsStuck(inbox, w);
    StepLowersMeasure(inbox, w, step);
    var rest, last := RunsSettle(inbox, Apply(inbox, w, step));
    steps, w' := [step] + rest, last;
    assert steps[1..] == rest;
  }

  /**
   The first acknowledgement decides: a step that lets a delivery of an undecided message answer
   204 makes it stored, one that lets it answer 200 quarantined, and any other of its steps
   leaves it undecided.
   */
  lemma FirstAnswerDecides(inbox: seq<Mail>, w: World, step: Step)
    requires WellFormed(inbox, w) && Enabled(inbox, w, step) && OfDelivery(step)
    requires step.i < |w.births| && w.fate[w.births[step.i].mail] == Undecided
    ensures var w', m := Apply(inbox, w, step), w.births[step.i].mail;
            && |w'.at| == |w.at| && |w'.fate| == |w.fate|
            && (w'.fate[m] == Stored <==> w'.at[step.i].Answered204?)
            && (w'.fate[m] == Quarantined <==> w'.at[step.i].Answered200?)
            && (w'.fate[m] == Undecided <==> w'.at[step.i].Running? || w'.at[step.i].Answered503?)
  {
    hide Plan, Classify, Is, Repeat, ValidBatch, RowsOf;
  }

  /** An undecided message has no delivery that was acknowledged. */
  predicate Open(inbox: seq<Mail>, w: World, i: nat)
    requires WellFormed(inbox, w) && i < |w.births|
  {
    w.fate[w.births[i].mail] == Undecided ==> !w.at[i].Answered204? && !w.at[i].Answered200?
  }

  lemma StepKeepsOpen(inbox: seq<Mail>, w: World, step: Step, i: nat)
    requires WellFormed(inbox, w) && Enabled(inbox, w, step) && WellFormed(inbox, Apply(inbox, w, step))
    requires forall j :: 0 <= j < |w.births| ==> Open(inbox, w, j)
    requires i < |Apply(inbox, w, step).births|
    ensures Open(inbox, Apply(inbox, w, step), i)
  {
    hide Plan, Apply, Enabled, Open;
    var w' := Apply(inbox, w, step);
    if i >= |w.births| {
      NewIsUnanswered(inbox, w, step, i);
      RunningIsOpen(inbox, w', i);
    } else {
      assert Open(inbox, w, i);
      OldStaysOpen(inbox, w, step, i);
    }
  }

  lemma RunningIsOpen(inbox: seq<Mail>, w: World, i: nat)
    requires WellFormed(inbox, w) && i < |w.births| && w.at[i].Running?
    ensures Open(inbox, w, i)
  {
  }

  lemma OldStaysOpen(inbox: seq<Mail>, w: World, step: Step, i: nat)
    requires WellFormed(inbox, w) && Enabled(inbox, w, step) && WellFormed(inbox, Apply(inbox, w, step))
    requires i < |w.births| && Open(inbox, w, i) && i < |Apply(inbox, w, step).births|
    ensures Open(inbox, Apply(inbox, w, step), i)
  {
    hide Plan, Classify, Is, Repeat, ValidBatch, RowsOf;
  }

  /** In every run a message with a delivery that answered 204 or 200 is decided. */
  lemma {:induction false} AcknowledgedIsDecided(inbox: seq<Mail>, w: World, steps: seq<Step>, w': World)
    requires WellFormed(inbox, w) && Runs(inbox, w, steps, w')
    requires forall i :: 0 <= i < |w.births| ==> Open(inbox, w, i)
    ensures WellFormed(inbox, w') && forall i :: 0 <= i < |w'.births| ==> Open(inbox, w', i)
    decreases |steps|
  {
    hide Plan, Apply, Enabled, Open;
    if steps != [] {
      StepKeepsForm(inbox, w, steps[0]);
      var next := Apply(inbox, w, steps[0]);
      forall i | 0 <= i < |next.births| ensures Open(inbox, next, i) { StepKeepsOpen(inbox, w, steps[0], i); }
      AcknowledgedIsDecided(inbox, next, steps[1..], w');
    }
  }

  /** The first fate a message gets is its last, and a dead-lettered one used up its deliveries. */
  lemma {:induction false} FateIsFinal(inbox: seq<Mail>, w: World, steps: seq<Step>, w': World, m: nat)
    requires WellFormed(inbox, w) && Runs(inbox, w, steps, w')
    requires m < |inbox| && w.fate[m] != Undecided
    ensures m < |w'.fate| && w'.fate[m] == w.fate[m]
    decreases |steps|
  {
    if steps != [] {
      StepKeepsFate(inbox, w, steps[0], m);
      FateIsFinal(inbox, Apply(inbox, w, steps[0]), steps[1..], w', m);
    }
  }

  lemma StepKeepsFate(inbox: seq<Mail>, w: World, step: Step, m: nat)
    requires WellFormed(inbox, w) && Enabled(inbox, w, step) && m < |inbox| && w.fate[m] != Undecided
    ensures WellFormed(inbox, Apply(inbox, w, step)) && Apply(inbox, w, step).fate[m] == w.fate[m]
  {
    StepKeepsForm(inbox, w, step);
    hide Plan, ValidBatch, RowsOf;
  }

  /** How many deliveries of message m there have been. */
  function Attempts(births: seq<Birth>, m: nat): nat {
    |set i: nat | i < |births| && births[i].mail == m|
  }

  lemma AttemptsPush(births: seq<Birth>, b: Birth, m: nat)
    ensures Attempts(births + [b], m) == Attempts(births, m) + if b.mail == m then 1 else 0
  {
    var before := set i: nat | i < |births| && births[i].mail == m;
    var after := set i: nat | i < |births + [b]| && (births + [b])[i].mail == m;
    assert after == if b.mail == m then before + {|births|} else before;
  }

  /** How many deliveries of message m reached the endpoint, refused ones included. */
  function Spent(steps: seq<Step>, m: nat): nat {
    if steps == [] then 0
    else (if IsStart(steps[0]) && steps[0].m == m then 1 else 0) + Spent(steps[1..], m)
  }

  lemma StepSpends(inbox: seq<Mail>, w: World, step: Step, m: nat)
    requires WellFormed(inbox, w) && Enabled(inbox, w, step) && m < |inbox|
    ensures WellFormed(inbox, Apply(inbox, w, step))
    ensures var w', spent := Apply(inbox, w, step), Spent([step], m);
            w'.left[m] + spent == w.left[m] && Attempts(w'.births, m) <= Attempts(w.births, m) + spent
  {
    StepKeepsForm(inbox, w, step);
    hide Plan, Classify, Is, Repeat, ValidBatch, RowsOf, Attempts;
    if step.Deliver? { AttemptsPush(w.births, Birth(step.m, step.rows, step.time), m); }
    assert [step][1..] == [];
  }

  lemma {:induction false} RunsSpend(inbox: seq<Mail>, w: World, steps: seq<Step>, w': World, m: nat)
    requires WellFormed(inbox, w) && Runs(inbox, w, steps, w') && m < |inbox|
    ensures WellFormed(inbox, w') && w'.left[m] + Spent(steps, m) == w.left[m]
    ensures Attempts(w'.births, m) <= Attempts(w.births, m) + Spent(steps, m)
    decreases |steps|
  {
    hide Attempts, Apply, Enabled, Plan;
    if steps != [] {
      StepSpends(inbox, w, steps[0], m);
      assert [steps[0]][1..] == [];
      RunsSpend(inbox, Apply(inbox, w, steps[0]), steps[1..], w', m);
    }
  }

  /**
   In any run the deliveries of a message that reached the endpoint, refused or not, and those
   it has left are together what the subscription allows.
   */
  lemma DeliveriesWithinLimit(inbox: seq<Mail>, limit: nat, steps: seq<Step>, w: World, m: nat)
    requires Runs(inbox, Initial(inbox, limit), steps, w) && m < |inbox|
    ensures m < |w.left| && Spent(steps, m) + w.left[m] == limit
    ensures Attempts(w.births, m) <= Spent(steps, m)
  {
    RunsSpend(inbox, Initial(inbox, limit), steps, w, m);
    assert Attempts([], m) == 0;
  }
}
