/**
 The delivery protocol: any number of instances work at once on messages that Pub/Sub
 delivers at least once, appending to one table. A run is any sequence of enabled steps.
 */
module Delivery {
  import opened Wrappers
  import opened Errors
  import opened Consumption
  import opened Wire
  import opened Batching

  /** A message: what an uncancelled pass over its payload produces, and the error it ends in, if any. */
  datatype Mail = Mail(id: string, produced: seq<Reading>, end: Option<Error>)

  /** A delivery that reached the service: its message, its instance's batch size, its timestamp. */
  datatype Birth = Birth(mail: nat, rows: nat, at: int)

  /** How many batches it has had accepted, and what it answered. */
  datatype Progress = Running(next: nat) | Answered204(next: nat) | Answered200(next: nat) | Answered503(next: nat)

  datatype Fate = Undecided | Stored | Quarantined | DeadLettered

  /**
   The table with, for each row, the delivery that appended it; every delivery so far and
   how far it got; per message the deliveries left and its fate; the quarantine writes, by delivery.
   */
  datatype World = World(
    table: seq<Row>, origin: seq<nat>,
    births: seq<Birth>, at: seq<Progress>,
    left: seq<nat>, fate: seq<Fate>,
    parked: seq<nat>)

  datatype Step =
    | Deliver(m: nat, rows: nat, time: int)  // the service starts on a delivery of message m
    | Refuse(m: nat)                         // a delivery is answered 401, 413 or 503 before that
    | Append(i: nat, reply: Reply)           // delivery i appends its next batch
    | Invalid(i: nat)                        // its next batch holds an invalid reading
    | Finish(i: nat)                         // it has emitted its last batch
    | Cancel(i: nat)                         // its context is cancelled
    | DeadLetter(m: nat)                     // no delivery of m is left

  function Initial(inbox: seq<Mail>, limit: nat): World {
    World([], [], [], [], seq(|inbox|, _ => limit), seq(|inbox|, _ => Undecided), [])
  }

  function Plan(inbox: seq<Mail>, b: Birth): seq<seq<Reading>>
    requires b.mail < |inbox| && b.rows >= 1
  {
    Batches(b.rows, inbox[b.mail].produced, inbox[b.mail].end.None?)
  }

  /** The readings of a message as delivery b stamps and encodes them. */
  function RowsOf(mail: Mail, time: int, rs: seq<Reading>): (rows: seq<Row>)
    ensures |rows| == |rs| && forall k :: 0 <= k < |rs| ==> rows[k] == RowAt(mail, time, rs[k])
  {
    seq(|rs|, k requires 0 <= k < |rs| => RowAt(mail, time, rs[k]))
  }

  function RowAt(mail: Mail, time: int, r: Reading): Row {
    ToRow(r.(sourceId := mail.id, ingestedAt := time))
  }

  predicate ValidBatch(mail: Mail, time: int, batch: seq<Reading>) {
    forall k :: 0 <= k < |batch| ==> Valid(batch[k].(sourceId := mail.id, ingestedAt := time))
  }

  predicate IsRunning(w: World, i: nat) {
    i < |w.births| && i < |w.at| && w.at[i].Running?
  }

  predicate OfDelivery(step: Step) {
    step.Append? || step.Invalid? || step.Finish? || step.Cancel?
  }

  /** A delivery reaches the endpoint, which starts on it or refuses it. */
  predicate IsStart(s: Step) {
    s.Deliver? || s.Refuse?
  }

  predicate Enabled(inbox: seq<Mail>, w: World, step: Step)
    requires WellFormed(inbox, w)
  {
    match step
    case Deliver(m, rows, _) => m < |inbox| && w.left[m] > 0 && w.fate[m] != DeadLettered && rows >= 1
    case Refuse(m) => m < |inbox| && w.left[m] > 0 && w.fate[m] != DeadLettered
    case Append(i, _) =>
      && IsRunning(w, i) && w.at[i].next < |Plan(inbox, w.births[i])|
      && ValidBatch(inbox[w.births[i].mail], w.births[i].at, Plan(inbox, w.births[i])[w.at[i].next])
    case Invalid(i) =>
      && IsRunning(w, i) && w.at[i].next < |Plan(inbox, w.births[i])|
      && !ValidBatch(inbox[w.births[i].mail], w.births[i].at, Plan(inbox, w.births[i])[w.at[i].next])
    case Finish(i) => IsRunning(w, i) && w.at[i].next == |Plan(inbox, w.births[i])|
    case Cancel(i) => IsRunning(w, i)
    case DeadLetter(m) => m < |inbox| && w.left[m] == 0 && w.fate[m] == Undecided
  }

  /** The first answer that acknowledges a message decides its fate. */
  function Acknowledge(w: World, m: nat, fate: Fate): World
    requires m < |w.fate|
  {
    if w.fate[m] == Undecided then w.(fate := w.fate[m := fate]) else w
  }

  /** Delivery i answers 200 after one quarantine write. */
  function Park(w: World, i: nat): World
    requires i < |w.at| && i < |w.births| && w.births[i].mail < |w.fate|
  {
    Acknowledge(w.(at := w.at[i := Answered200(w.at[i].next)], parked := w.parked + [i]), w.births[i].mail, Quarantined)
  }

  function Use(w: World, m: nat): World
    requires m < |w.left| && w.left[m] > 0
  {
    w.(left := w.left[m := w.left[m] - 1])
  }

  /** The rows delivery i appends next. */
  function NextRows(inbox: seq<Mail>, w: World, i: nat): seq<Row>
    requires WellFormed(inbox, w) && i < |w.births| && w.at[i].next < |Plan(inbox, w.births[i])|
  {
    RowsOf(inbox[w.births[i].mail], w.births[i].at, Plan(inbox, w.births[i])[w.at[i].next])
  }

  /** An append leaves its rows, perhaps more than once, when it is accepted, and may leave them when it is not. */
  function AddRows(w: World, i: nat, rows: seq<Row>, reply: Reply): World {
    var added := Repeat(rows, Copies(reply));
    w.(table := w.table + added, origin := w.origin + seq(|added|, _ => i))
  }

  function Apply(inbox: seq<Mail>, w: World, step: Step): World
    requires WellFormed(inbox, w) && Enabled(inbox, w, step)
  {
    match step
    case Deliver(m, rows, time) =>
      Use(w, m).(births := w.births + [Birth(m, rows, time)], at := w.at + [Running(0)])
    case Refuse(m) => Use(w, m)
    case Append(i, reply) =>
      var added := AddRows(w, i, NextRows(inbox, w, i), reply);
      if reply.Accepted? then added.(at := w.at[i := Running(w.at[i].next + 1)])
      else if Is(Classify(reply.cause), Transient) then added.(at := w.at[i := Answered503(w.at[i].next)])
      else Park(added, i)
    case Invalid(i) => Park(w, i)
    case Finish(i) =>
      if inbox[w.births[i].mail].end.None?
      then Acknowledge(w.(at := w.at[i := Answered204(w.at[i].next)]), w.births[i].mail, Stored)
      else Park(w, i)
    case Cancel(i) => w.(at := w.at[i := Answered503(w.at[i].next)])
    case DeadLetter(m) => w.(fate := w.fate[m := DeadLettered])
  }

  predicate WellFormed(inbox: seq<Mail>, w: World) {
    && |w.left| == |inbox| && |w.fate| == |inbox|
    && |w.origin| == |w.table| && |w.at| == |w.births|
    && forall i :: 0 <= i < |w.births| ==>
                     && w.births[i].mail < |inbox| && w.births[i].rows >= 1
                     && w.at[i].next <= |Plan(inbox, w.births[i])|
  }

  lemma StepKeepsForm(inbox: seq<Mail>, w: World, step: Step)
    requires WellFormed(inbox, w) && Enabled(inbox, w, step)
    ensures WellFormed(inbox, Apply(inbox, w, step))
  {
    hide Plan, Classify, Is, Repeat, ValidBatch, RowAt;
  }

  /** w' is reached from w by the steps, each enabled when taken. */
  predicate Runs(inbox: seq<Mail>, w: World, steps: seq<Step>, w': World)
    requires WellFormed(inbox, w)
    decreases |steps|
  {
    if steps == [] then w' == w
    else
      && Enabled(inbox, w, steps[0])
      && (StepKeepsForm(inbox, w, steps[0]);
          Runs(inbox, Apply(inbox, w, steps[0]), steps[1..], w'))
  }

  lemma RunsFirst(inbox: seq<Mail>, w: World, step: Step, rest: seq<Step>, w': World)
    requires WellFormed(inbox, w) && Enabled(inbox, w, step) && WellFormed(inbox, Apply(inbox, w, step))
    requires Runs(inbox, Apply(inbox, w, step), rest, w')
    ensures Runs(inbox, w, [step] + rest, w')
  {
    assert ([step] + rest)[1..] == rest;
  }

  lemma {:induction false} RunsKeepForm(inbox: seq<Mail>, w: World, steps: seq<Step>, w': World)
    requires WellFormed(inbox, w) && Runs(inbox, w, steps, w')
    ensures WellFormed(inbox, w')
    decreases |steps|
  {
    hide Apply, Enabled;
    if steps != [] {
      StepKeepsForm(inbox, w, steps[0]);
      RunsKeepForm(inbox, Apply(inbox, w, steps[0]), steps[1..], w');
    }
  }

  /** One run after another is a run. */
  lemma {:induction false} RunsJoin(inbox: seq<Mail>, w: World, a: seq<Step>, mid: World, b: seq<Step>, w': World)
    requires WellFormed(inbox, w) && Runs(inbox, w, a, mid) && WellFormed(inbox, mid) && Runs(inbox, mid, b, w')
    ensures Runs(inbox, w, a + b, w')
    decreases |a|
  {
    hide Apply, Enabled;
    if a == [] {
      assert a + b == b;
    } else {
      assert (a + b)[1..] == a[1..] + b;
      StepKeepsForm(inbox, w, a[0]);
      RunsJoin(inbox, Apply(inbox, w, a[0]), a[1..], mid, b, w');
    }
  }

  // ----- what every step keeps -----

  /** Row k of the table is a valid reading of its delivery's message, stamped by that delivery. */
  predicate Traced(inbox: seq<Mail>, w: World, k: nat)
    requires WellFormed(inbox, w) && k < |w.table|
  {
    && w.origin[k] < |w.births|
    && var b := w.births[w.origin[k]];
       exists r :: r in inbox[b.mail].produced && w.table[k] == RowAt(inbox[b.mail], b.at, r)
                   && Valid(r.(sourceId := inbox[b.mail].id, ingestedAt := b.at))
  }

  /** Every row of the batches delivery i has had accepted is in the table. */
  predicate Kept(inbox: seq<Mail>, w: World, i: nat)
    requires WellFormed(inbox, w) && i < |w.births|
  {
    var b := w.births[i];
    forall r :: r in Concat(Plan(inbox, b)[..w.at[i].next]) ==> RowAt(inbox[b.mail], b.at, r) in w.table
  }

  /** A delivery that answered 204 had its whole plan accepted; one that answered 200 quarantined once. */
  predicate Answered(inbox: seq<Mail>, w: World, i: nat)
    requires WellFormed(inbox, w) && i < |w.births|
  {
    && (w.at[i].Answered204? ==>
          w.at[i].next == |Plan(inbox, w.births[i])| && inbox[w.births[i].mail].end.None?)
    && multiset(w.parked)[i] == if w.at[i].Answered200? then 1 else 0
  }

  /** A fate has its cause: an answer of that kind, or no delivery left. */
  predicate Caused(inbox: seq<Mail>, w: World, m: nat)
    requires WellFormed(inbox, w) && m < |inbox|
  {
    match w.fate[m]
    case Undecided => true
    case Stored => exists i :: 0 <= i < |w.births| && w.births[i].mail == m && w.at[i].Answered204?
    case Quarantined => exists i :: 0 <= i < |w.births| && w.births[i].mail == m && w.at[i].Answered200?
    case DeadLettered => w.left[m] == 0
  }

  ghost predicate Invariant(inbox: seq<Mail>, w: World) {
    && WellFormed(inbox, w)
    && (forall k :: 0 <= k < |w.table| ==> Traced(inbox, w, k))
    && (forall i :: 0 <= i < |w.births| ==> Kept(inbox, w, i))
    && (forall i :: 0 <= i < |w.births| ==> Answered(inbox, w, i))
    && (forall m :: 0 <= m < |inbox| ==> Caused(inbox, w, m))
    && (forall k :: 0 <= k < |w.parked| ==> w.parked[k] < |w.births|)
  }

  lemma PlanMember(inbox: seq<Mail>, b: Birth, n: nat, r: Reading)
    requires b.mail < |inbox| && b.rows >= 1 && n < |Plan(inbox, b)| && r in Plan(inbox, b)[n]
    ensures r in inbox[b.mail].produced
  {
    var mail := inbox[b.mail];
    PlanCovers(b.rows, mail.produced, mail.end.None?);
    ConcatMember(Plan(inbox, b), n, r);
  }

  lemma {:induction false} ConcatMember<T>(xss: seq<seq<T>>, n: nat, x: T)
    requires n < |xss| && x in xss[n]
    ensures x in Concat(xss)
  {
    if n < |xss| - 1 { ConcatMember(xss[..|xss| - 1], n, x); }
  }

  /** Rows are only ever added at the end: the next batch of the delivery that appends. */
  lemma StepAdds(inbox: seq<Mail>, w: World, step: Step)
    requires WellFormed(inbox, w) && Enabled(inbox, w, step)
    ensures var w' := Apply(inbox, w, step);
            && w.births <= w'.births
            && if step.Append?
               then
                 && IsRunning(w, step.i) && w.at[step.i].next < |Plan(inbox, w.births[step.i])|
                 && ValidBatch(inbox[w.births[step.i].mail], w.births[step.i].at,
                               Plan(inbox, w.births[step.i])[w.at[step.i].next])
                 && var rows := Repeat(NextRows(inbox, w, step.i), Copies(step.reply));
                    w'.table == w.table + rows && w'.origin == w.origin + seq(|rows|, _ => step.i)
               else w'.table == w.table && w'.origin == w.origin
  {
    hide Plan, Classify, Is, RowsOf, ValidBatch;
  }

  /** What a step of delivery i may change. */
  lemma StepMoves(inbox: seq<Mail>, w: World, step: Step)
    requires WellFormed(inbox, w) && Enabled(inbox, w, step) && OfDelivery(step)
    ensures IsRunning(w, step.i)
    ensures var w', i, m := Apply(inbox, w, step), step.i, w.births[step.i].mail;
            && w'.births == w.births && w'.left == w.left
            && w'.at == w.at[i := w'.at[i]] && (w'.at[i].Running? ==> w'.at[i].next == w.at[i].next + 1)
            && w'.parked == (if w'.at[i].Answered200? then w.parked + [i] else w.parked)
            && (w'.fate == w.fate || w'.fate == Acknowledge(w, m, Stored).fate
                || w'.fate == Acknowledge(w, m, Quarantined).fate)
  {
    hide Plan, ValidBatch, RowsOf, Classify, Is, Repeat;
  }

  lemma StepKeepsTraced(inbox: seq<Mail>, w: World, step: Step, k: nat)
    requires Invariant(inbox, w) && Enabled(inbox, w, step)
    requires WellFormed(inbox, Apply(inbox, w, step)) && k < |Apply(inbox, w, step).table|
    ensures Traced(inbox, Apply(inbox, w, step), k)
  {
    hide Apply, Enabled, Plan, Kept, Answered, Caused;
    var w' := Apply(inbox, w, step);
    StepAdds(inbox, w, step);
    if k < |w.table| {
      assert Traced(inbox, w, k);
      assert w'.table[k] == w.table[k] && w'.origin[k] == w.origin[k];
    } else {
      var i := step.i;
      var batch, next := Plan(inbox, w.births[i])[w.at[i].next], NextRows(inbox, w, i);
      RepeatHolds(next, Copies(step.reply), w'.table[k]);
      var j :| 0 <= j < |next| && next[j] == w'.table[k];
      var r := batch[j];
      PlanMember(inbox, w.births[i], w.at[i].next, r);
      assert w'.table[k] == RowAt(inbox[w.births[i].mail], w.births[i].at, r);
    }
  }

  /** A delivery counts a batch exactly when an append of it is accepted, and starts with none. */
  lemma StepCounts(inbox: seq<Mail>, w: World, step: Step, i: nat)
    requires WellFormed(inbox, w) && Enabled(inbox, w, step) && i < |Apply(inbox, w, step).at|
    ensures Apply(inbox, w, step).at[i].next
            == if i >= |w.at| then 0
               else w.at[i].next + if step.Append? && step.i == i && step.reply.Accepted? then 1 else 0
  {
    hide Plan, Classify, Is, RowsOf, ValidBatch;
  }

  lemma StepKeepsKept(inbox: seq<Mail>, w: World, step: Step, i: nat)
    requires Invariant(inbox, w) && Enabled(inbox, w, step)
    requires WellFormed(inbox, Apply(inbox, w, step)) && i < |Apply(inbox, w, step).births|
    ensures Kept(inbox, Apply(inbox, w, step), i)
  {
    hide Apply, Enabled, Plan, Traced, Answered, Caused, Concat, ValidBatch, RowAt;
    var w' := Apply(inbox, w, step);
    StepAdds(inbox, w, step);
    StepCounts(inbox, w, step, i);
    var plan := Plan(inbox, w'.births[i]);
    if i >= |w.births| {
      ConcatNone<Reading>();
      assert plan[..0] == [];
    } else {
      assert Kept(inbox, w, i);
      var n := w.at[i].next;
      if step.Append? && step.i == i && step.reply.Accepted? {
        assert plan[..n + 1] == plan[..n] + [plan[n]];
        ConcatPush(plan[..n], plan[n]);
        forall r | r in plan[n] ensures RowAt(inbox[w.births[i].mail], w.births[i].at, r) in w'.table {
          var k :| 0 <= k < |plan[n]| && plan[n][k] == r;
          var next := NextRows(inbox, w, i);
          assert next[k] == RowAt(inbox[w.births[i].mail], w.births[i].at, r);
          RepeatHolds(next, Copies(step.reply), next[k]);
        }
      }
    }
  }

  /** A step parks at most the delivery it is about, which it then answers 200. */
  lemma StepParks(inbox: seq<Mail>, w: World, step: Step, i: nat)
    requires WellFormed(inbox, w) && Enabled(inbox, w, step) && i < |w.births|
    ensures var w' := Apply(inbox, w, step);
            && w'.births[i] == w.births[i]
            && (w'.at[i] == w.at[i] || (w.at[i].Running? && OfDelivery(step) && step.i == i))
            && (if w'.at[i].Answered200? && w.at[i].Running? then w'.parked == w.parked + [i]
                else w'.parked == w.parked || exists j :: j != i && w'.parked == w.parked + [j])
            && (w'.at[i].Answered204? && w.at[i].Running? ==>
                  w'.at[i].next == |Plan(inbox, w.births[i])| && inbox[w.births[i].mail].end.None?)
  {
    hide Plan, Classify, Is, Repeat, ValidBatch, RowsOf;
  }

  lemma MultisetPush(s: seq<nat>, j: nat, i: nat)
    ensures multiset(s + [j])[i] == multiset(s)[i] + if i == j then 1 else 0
  {
  }

  lemma NewIsUnanswered(inbox: seq<Mail>, w: World, step: Step, i: nat)
    requires WellFormed(inbox, w) && Enabled(inbox, w, step) && |w.births| <= i < |Apply(inbox, w, step).births|
    ensures Apply(inbox, w, step).at[i] == Running(0) && Apply(inbox, w, step).parked == w.parked
  {
    hide Plan, Classify, Is, RowsOf, ValidBatch;
  }

  lemma StepKeepsAnswered(inbox: seq<Mail>, w: World, step: Step, i: nat)
    requires Invariant(inbox, w) && Enabled(inbox, w, step)
    requires WellFormed(inbox, Apply(inbox, w, step)) && i < |Apply(inbox, w, step).births|
    ensures Answered(inbox, Apply(inbox, w, step), i)
  {
    hide Apply, Enabled, Plan, Traced, Kept, Caused;
    var w' := Apply(inbox, w, step);
    if i < |w.births| {
      StepParks(inbox, w, step, i);
      assert Answered(inbox, w, i);
      MultisetPush(w.parked, i, i);
      if j :| j != i && w'.parked == w.parked + [j] { MultisetPush(w.parked, j, i); }
    } else {
      NewIsUnanswered(inbox, w, step, i);
      assert i !in w.parked;
    }
  }

  /** An answer once given stays, and so does having no delivery left. */
  lemma StepKeepsAnswers(inbox: seq<Mail>, w: World, step: Step, m: nat)
    requires WellFormed(inbox, w) && Enabled(inbox, w, step) && m < |inbox|
    ensures var w' := Apply(inbox, w, step);
            && |w'.births| >= |w.births| && |w'.at| == |w'.births|
            && (forall i :: 0 <= i < |w.births| ==> w'.births[i] == w.births[i])
            && (forall i :: 0 <= i < |w.births| && !w.at[i].Running? ==> w'.at[i] == w.at[i])
            && (w.fate[m] == DeadLettered && w.left[m] == 0 ==> w'.left[m] == 0)
  {
    hide Plan, Classify, Is, Repeat, ValidBatch, RowsOf;
  }

  lemma StepDecides(inbox: seq<Mail>, w: World, step: Step, m: nat)
    requires WellFormed(inbox, w) && Enabled(inbox, w, step) && m < |inbox|
    requires WellFormed(inbox, Apply(inbox, w, step))
    requires Apply(inbox, w, step).fate[m] != w.fate[m]
    ensures Caused(inbox, Apply(inbox, w, step), m)
  {
    hide Plan, Classify, Is, Repeat, ValidBatch, RowsOf;
    var w' := Apply(inbox, w, step);
    if !step.DeadLetter? {
      assert 0 <= step.i < |w'.births| && w'.births[step.i].mail == m;
    }
  }

  lemma StepKeepsCaused(inbox: seq<Mail>, w: World, step: Step, m: nat)
    requires Invariant(inbox, w) && Enabled(inbox, w, step)
    requires WellFormed(inbox, Apply(inbox, w, step)) && m < |inbox|
    ensures Caused(inbox, Apply(inbox, w, step), m)
  {
    hide Apply, Enabled, Plan, Traced, Kept, Answered;
    assert Caused(inbox, w, m);
    if Apply(inbox, w, step).fate[m] == w.fate[m] {
      StepKeepsAnswers(inbox, w, step, m);
    } else {
      StepDecides(inbox, w, step, m);
    }
  }

  lemma StepKeepsInvariant(inbox: seq<Mail>, w: World, step: Step)
    requires Invariant(inbox, w) && Enabled(inbox, w, step)
    ensures Invariant(inbox, Apply(inbox, w, step))
  {
    StepKeepsForm(inbox, w, step);
    var w' := Apply(inbox, w, step);
    forall k | 0 <= k < |w'.table| ensures Traced(inbox, w', k) { StepKeepsTraced(inbox, w, step, k); }
    forall i | 0 <= i < |w'.births| ensures Kept(inbox, w', i) { StepKeepsKept(inbox, w, step, i); }
    forall i | 0 <= i < |w'.births| ensures Answered(inbox, w', i) { StepKeepsAnswered(inbox, w, step, i); }
    forall m | 0 <= m < |inbox| ensures Caused(inbox, w', m) { StepKeepsCaused(inbox, w, step, m); }
    forall k | 0 <= k < |w'.parked| ensures w'.parked[k] < |w'.births| { ParkedAreBorn(inbox, w, step, k); }
  }

  lemma ParkedAreBorn(inbox: seq<Mail>, w: World, step: Step, k: nat)
    requires Invariant(inbox, w) && Enabled(inbox, w, step) && k < |Apply(inbox, w, step).parked|
    ensures Apply(inbox, w, step).parked[k] < |Apply(inbox, w, step).births|
  {
    hide Plan, Traced, Kept, Answered, Caused, Classify, ValidBatch, RowsOf;
  }

  /** The invariant holds in every world any run reaches. */
  lemma {:induction false} RunsKeepInvariant(inbox: seq<Mail>, w: World, steps: seq<Step>, w': World)
    requires Invariant(inbox, w) && Runs(inbox, w, steps, w')
    ensures Invariant(inbox, w')
    decreases |steps|
  {
    if steps != [] {
      StepKeepsInvariant(inbox, w, steps[0]);
      RunsKeepInvariant(inbox, Apply(inbox, w, steps[0]), steps[1..], w');
    }
  }

  lemma InitialInvariant(inbox: seq<Mail>, limit: nat)
    ensures Invariant(inbox, Initial(inbox, limit))
  {
  }
}
