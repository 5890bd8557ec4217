/** Steps of different deliveries commute: the table holds the same rows in either order. */
module Interleaving {
  import opened Errors
  import opened Wire
  import opened View
  import opened Batching
  import opened Delivery

  /** The rows a step of a delivery adds. */
  function Added(inbox: seq<Mail>, w: World, step: Step): seq<Row>
    requires WellFormed(inbox, w) && Enabled(inbox, w, step)
  {
    if step.Append? then Repeat(NextRows(inbox, w, step.i), Copies(step.reply)) else []
  }

  lemma SameAnswer(inbox: seq<Mail>, w: World, v: World, step: Step)
    requires WellFormed(inbox, w) && WellFormed(inbox, v) && w.births == v.births
    requires OfDelivery(step) && Enabled(inbox, w, step) && v.at[step.i] == w.at[step.i]
    ensures Enabled(inbox, v, step) && Apply(inbox, v, step).at[step.i] == Apply(inbox, w, step).at[step.i]
  {
    hide Plan, Classify, Is, Repeat, ValidBatch, RowsOf;
  }

  /** To a step of a delivery only that delivery's own progress matters. */
  lemma StepIsLocal(inbox: seq<Mail>, w: World, v: World, step: Step)
    requires WellFormed(inbox, w) && WellFormed(inbox, v) && w.births == v.births
    requires OfDelivery(step) && Enabled(inbox, w, step) && v.at[step.i] == w.at[step.i]
    ensures Enabled(inbox, v, step) && step.i < |w.at|
    ensures var w', v' := Apply(inbox, w, step), Apply(inbox, v, step);
            && w'.births == w.births && v'.births == v.births && w'.left == w.left && v'.left == v.left
            && w'.at == w.at[step.i := w'.at[step.i]] && v'.at == v.at[step.i := w'.at[step.i]]
            && w'.table == w.table + Added(inbox, w, step) && v'.table == v.table + Added(inbox, w, step)
            && (if w'.at[step.i].Answered200? then w'.parked == w.parked + [step.i] && v'.parked == v.parked + [step.i]
                else w'.parked == w.parked && v'.parked == v.parked)
  {
    hide Plan, Apply, Enabled, Repeat, RowsOf, Acknowledge, ValidBatch;
    SameAnswer(inbox, w, v, step);
    StepMoves(inbox, w, step);
    StepMoves(inbox, v, step);
    StepAdds(inbox, w, step);
    StepAdds(inbox, v, step);
  }

  /** A step decides at most its own message, by where its delivery stands and whether the message is decided. */
  lemma FateIsLocal(inbox: seq<Mail>, w: World, v: World, step: Step)
    requires WellFormed(inbox, w) && WellFormed(inbox, v) && w.births == v.births
    requires OfDelivery(step) && Enabled(inbox, w, step) && Enabled(inbox, v, step) && v.at[step.i] == w.at[step.i]
    requires w.fate[w.births[step.i].mail] == v.fate[w.births[step.i].mail]
    ensures var w', v', m := Apply(inbox, w, step), Apply(inbox, v, step), w.births[step.i].mail;
            && m < |w'.fate| && w'.fate == w.fate[m := w'.fate[m]]
            && v'.fate == v.fate[m := w'.fate[m]]
  {
    hide Plan, Classify, Is, Repeat, ValidBatch, RowsOf;
  }

  lemma FatesCommute(inbox: seq<Mail>, w: World, ws: World, wt: World, s: Step, t: Step)
    requires WellFormed(inbox, w) && OfDelivery(s) && OfDelivery(t) && s.i != t.i
    requires Enabled(inbox, w, s) && Enabled(inbox, w, t) && IsRunning(w, s.i) && IsRunning(w, t.i)
    requires ws == Apply(inbox, w, s) && wt == Apply(inbox, w, t)
    requires WellFormed(inbox, ws) && Enabled(inbox, ws, t) && WellFormed(inbox, wt) && Enabled(inbox, wt, s)
    requires ws.births == w.births && ws.at == w.at[s.i := ws.at[s.i]]
    requires wt.births == w.births && wt.at == w.at[t.i := wt.at[t.i]]
    requires w.births[s.i].mail != w.births[t.i].mail
    ensures Apply(inbox, ws, t).fate == Apply(inbox, wt, s).fate
  {
    hide Plan, Apply, Enabled;
    FateIsLocal(inbox, w, w, s);
    FateIsLocal(inbox, w, w, t);
    FateIsLocal(inbox, w, ws, t);
    FateIsLocal(inbox, w, wt, s);
  }

  /**
   Two deliveries' steps can be taken in either order, to the same answers and rows. The fates
   are the same too if they are of different messages; of one message the first
   acknowledgement decides.
   */
  lemma DeliveriesCommute(inbox: seq<Mail>, w: World, s: Step, t: Step)
    requires WellFormed(inbox, w) && OfDelivery(s) && OfDelivery(t) && s.i != t.i
    requires Enabled(inbox, w, s) && Enabled(inbox, w, t)
    ensures WellFormed(inbox, Apply(inbox, w, s)) && Enabled(inbox, Apply(inbox, w, s), t)
    ensures WellFormed(inbox, Apply(inbox, w, t)) && Enabled(inbox, Apply(inbox, w, t), s)
    ensures IsRunning(w, s.i) && IsRunning(w, t.i)
    ensures var a, b := Apply(inbox, Apply(inbox, w, s), t), Apply(inbox, Apply(inbox, w, t), s);
            && a.births == b.births && a.at == b.at && a.left == b.left
            && multiset(a.table) == multiset(b.table) && multiset(a.parked) == multiset(b.parked)
            && (forall row :: Dominant(a.table, row) <==> Dominant(b.table, row))
            && (w.births[s.i].mail != w.births[t.i].mail ==> a.fate == b.fate)
  {
    hide Plan, Apply, Enabled, Added, Dominant;
    StepKeepsForm(inbox, w, s);
    StepKeepsForm(inbox, w, t);
    StepMoves(inbox, w, s);
    StepMoves(inbox, w, t);
    StepIsLocal(inbox, w, w, s);
    StepIsLocal(inbox, w, w, t);
    var ws, wt := Apply(inbox, w, s), Apply(inbox, w, t);
    StepIsLocal(inbox, w, ws, t);
    StepIsLocal(inbox, w, wt, s);
    var a, b := Apply(inbox, ws, t), Apply(inbox, wt, s);
    assert a.at == b.at;
    if w.births[s.i].mail != w.births[t.i].mail { FatesCommute(inbox, w, ws, wt, s, t); }
    assert multiset(a.table) == multiset(b.table);
    forall row ensures Dominant(a.table, row) <==> Dominant(b.table, row) {
      PermutationInvisible(a.table, b.table, row);
    }
  }
}
