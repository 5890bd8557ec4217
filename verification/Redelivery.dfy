/** Deliveries without faults, and a run of them in which a correction does not last. */
module Redelivery {
  import opened Wrappers
  import opened Consumption
  import opened Wire
  import opened EsmpStream
  import opened View
  import opened Batching
  import opened Delivery
  import opened Convergence
  import opened Refinement

  /** A document that is stored whenever no fault keeps it from being. */
  predicate Storable(mail: Mail, time: int) {
    mail.end.None? && ValidBatch(mail, time, mail.produced)
  }

  /** Without faults a delivery of such a document stores all its rows and answers 204. */
  lemma CleanDelivery(inbox: seq<Mail>, w: World, m: nat, time: int) returns (steps: seq<Step>, w': World)
    requires WellFormed(inbox, w) && m < |inbox| && w.left[m] > 0 && w.fate[m] != DeadLettered
    requires Storable(inbox[m], time)
    ensures Runs(inbox, w, steps, w') && WellFormed(inbox, w')
    ensures w'.table == w.table + RowsOf(inbox[m], time, inbox[m].produced)
    ensures w'.births == w.births + [Birth(m, 1, time)] && w'.left == Use(w, m).left
    ensures |w'.at| == |w.at| + 1 && w'.at[..|w.at|] == w.at && w'.at[|w.at|].Answered204?
    ensures w'.fate == Acknowledge(w, m, Stored).fate
  {
    hide Plan, RowsOf, ValidBatch, Persisted, Conclude, PushAll, Runs, Stamp, StampAll;
    var mail, step := inbox[m], Deliver(m, 1, time);
    StepKeepsForm(inbox, w, step);
    var w1, e := Apply(inbox, w, step), Env(mail.id, time, 0, _ => Accepted(0));
    var run := Run(mail.produced, Done([]));
    var out := Conclude(e, PushAll(e, 1, EMPTY, mail.produced), true);
    NothingStops(mail, e);
    var rest;
    rest, w' := PassIsRun(inbox, w1, |w.births|, run, false, e);
    steps := [step] + rest;
    RunsFirst(inbox, w, step, rest, w');
    RunsKeepForm(inbox, w, steps, w');
  }

  lemma NothingStops(mail: Mail, e: Env)
    requires Storable(mail, e.at) && e.id == mail.id && forall n :: Answer(e, n) == Accepted(0)
    ensures var out := Conclude(e, PushAll(e, 1, EMPTY, mail.produced), true);
            out.err == None && Persisted(e, out.writes) == RowsOf(mail, e.at, mail.produced)
  {
    hide PushAll, Conclude, Consumption.Valid;
    var n := |mail.produced|;
    StampedRows(e, mail, mail.produced);
    DurablePrefix(e, 1, mail.produced, true, n, n);
    var stamped := StampAll(e, mail.produced);
    assert stamped[..n] == stamped;
    AcceptedArePersisted(e, Conclude(e, PushAll(e, 1, EMPTY, mail.produced), true).writes);
  }

  /**
   A correction does not last for good: for any document, any later one that corrects one of
   its readings, and any three times, there is a run in which all deliveries answer 204, the
   correction after the document, and whose view does not show the correction, because the
   document was delivered once more.
   */
  lemma CorrectionCanBeUndone(document: Mail, correction: Mail, r: Reading, t0: int, t1: int, t2: int)
    returns (steps: seq<Step>, w: World)
    requires Storable(document, t0) && Storable(correction, t1) && Storable(document, t2) && KeysAgree(document)
    requires UnixMicro(t0) < UnixMicro(t1) < UnixMicro(t2)
    requires r in correction.produced && KeyOf(RowAt(correction, 0, r)) in Keys(document)
    requires Untimed(RowAt(correction, 0, r)) !in Means(document)
    ensures Runs([document, correction], Initial([document, correction], 2), steps, w)
    ensures w.births == [Birth(0, 1, t0), Birth(1, 1, t1), Birth(0, 1, t2)]
    ensures forall i :: 0 <= i < |w.at| ==> w.at[i].Answered204?
    ensures forall order, v :: Ranks(w.table, order) && v in Current(w.table, order) ==>
                                 Untimed(v) != Untimed(RowAt(correction, 0, r))
  {
    hide Runs, Storable, KeysAgree, KeyOf, Keys, Means, RowAt, Untimed, UnixMicro, Current, Ranks, Plan;
    var inbox := [document, correction];
    var w0 := Initial(inbox, 2);
    var a, wa := CleanDelivery(inbox, w0, 0, t0);
    var b, wb := CleanDelivery(inbox, wa, 1, t1);
    var c, wc := CleanDelivery(inbox, wb, 0, t2);
    RunsJoin(inbox, w0, a, wa, b, wb);
    RunsJoin(inbox, w0, a + b, wb, c, wc);
    steps, w := a + b + c, wc;
    InitialInvariant(inbox, 2);
    RunsKeepInvariant(inbox, w0, steps, w);
    AnsweredIsComplete(inbox, w, 1);
    AnsweredIsComplete(inbox, w, 2);
    forall order, v | Ranks(w.table, order) && v in Current(w.table, order)
      ensures Untimed(v) != Untimed(RowAt(correction, 0, r))
    {
      LateRedeliveryUndoesCorrection(inbox, 2, steps, w, 2, 1, r, order);
    }
  }
}
