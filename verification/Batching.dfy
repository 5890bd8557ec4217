/**
 What happens to the readings of one attempt: they fill a buffer, and each full buffer is
 stamped, validated and written. Pure; the imperative parser and service are proved to
 follow it.
 */
module Batching {
  import opened Wrappers
  import opened Errors
  import opened Consumption
  import opened Wire

  // How the table answers one append, at least once: an accepted append persisted its rows and
  // perhaps some more times, a rejected one any number of times.
  datatype Reply = Accepted(extra: nat) | Rejected(cause: Error, copies: nat)

  /**
   One attempt at one message: its id, its single timestamp, and how the table answers
   appends, of which it had seen `first` before.
   */
  datatype Env = Env(id: string, at: int, first: nat, reply: nat -> Reply)

  /** The answer to the n-th append of the attempt. */
  function Answer(e: Env, n: nat): Reply {
    e.reply(e.first + n)
  }

  /** What is buffered, every batch handed to the sink, the count reported, the error that stopped it. */
  datatype State = State(pending: seq<Reading>, writes: seq<seq<Reading>>, stored: nat, err: Option<Error>)

  const EMPTY := State([], [], 0, None)

  function Stamp(e: Env, r: Reading): Reading {
    r.(sourceId := e.id, ingestedAt := e.at)
  }

  function StampAll(e: Env, rs: seq<Reading>): (s: seq<Reading>)
    ensures |s| == |rs|
    ensures forall i :: 0 <= i < |rs| ==> s[i] == Stamp(e, rs[i])
  {
    seq(|rs|, i requires 0 <= i < |rs| => Stamp(e, rs[i]))
  }

  predicate AllValid(rs: seq<Reading>) {
    forall i :: 0 <= i < |rs| ==> Valid(rs[i])
  }

  function WriteError(r: Reply): Option<Error> {
    match r
    case Accepted(_) => None
    case Rejected(cause, _) => Some(Classify(cause))
  }

  /** Emits the buffer: one invalid reading keeps the whole batch from the sink. */
  function Flush(e: Env, st: State): State {
    if st.pending == [] then st
    else
      var rows := StampAll(e, st.pending);
      if !AllValid(rows) then st.(pending := [], err := Some(INVALID_READING))
      else
        match WriteError(Answer(e, |st.writes|))
        case None => State([], st.writes + [rows], st.stored + |rows|, None)
        case Some(x) => State([], st.writes + [rows], st.stored, Some(x))
  }

  function Push(e: Env, b: nat, st: State, r: Reading): State {
    if st.err.Some? then st
    else
      var fuller := st.(pending := st.pending + [r]);
      if |fuller.pending| < b then fuller else Flush(e, fuller)
  }

  function PushAll(e: Env, b: nat, st: State, rs: seq<Reading>): State
    decreases |rs|
  {
    if rs == [] then st else PushAll(e, b, Push(e, b, st, rs[0]), rs[1..])
  }

  /** The final flush, made only when the document ended properly. */
  function Conclude(e: Env, st: State, done: bool): State {
    if done && st.err.None? then Flush(e, st) else st
  }

  lemma {:induction false} StoppedIsStopped(e: Env, b: nat, st: State, rs: seq<Reading>)
    requires st.err.Some?
    ensures PushAll(e, b, st, rs) == st
  {
    if rs != [] { StoppedIsStopped(e, b, st, rs[1..]); }
  }

  lemma {:induction false} PushAllAppend(e: Env, b: nat, st: State, xs: seq<Reading>, ys: seq<Reading>)
    ensures PushAll(e, b, st, xs + ys) == PushAll(e, b, PushAll(e, b, st, xs), ys)
    decreases |xs|
  {
    if xs == [] {
      assert xs + ys == ys;
    } else {
      assert (xs + ys)[1..] == xs[1..] + ys;
      PushAllAppend(e, b, Push(e, b, st, xs[0]), xs[1..], ys);
    }
  }

  // ----- the plan: which batches a document is cut into -----

  function Concat<T>(xss: seq<seq<T>>): seq<T> {
    if xss == [] then [] else Concat(xss[..|xss| - 1]) + xss[|xss| - 1]
  }

  /** Full batches, then the remainder when the document ended properly. */
  function Batches(b: nat, rs: seq<Reading>, done: bool): seq<seq<Reading>>
    requires b >= 1
  {
    if |rs| < b then if done && rs != [] then [rs] else []
    else [rs[..b]] + Batches(b, rs[b..], done)
  }

  /** Emits the batches of a plan until one fails. */
  function EmitAll(e: Env, st: State, batches: seq<seq<Reading>>): State
    decreases |batches|
  {
    if batches == [] || st.err.Some? then st
    else EmitAll(e, Flush(e, st.(pending := batches[0])), batches[1..])
  }

  /** Filling and reusing one buffer amounts to emitting the plan. */
  lemma {:induction false} BufferFollowsPlan(e: Env, b: nat, st: State, rs: seq<Reading>, done: bool)
    requires b >= 1 && |st.pending| < b && st.err.None?
    ensures var buffered := Conclude(e, PushAll(e, b, st, rs), done);
            var planned := EmitAll(e, st.(pending := []), Batches(b, st.pending + rs, done));
            buffered.writes == planned.writes && buffered.stored == planned.stored && buffered.err == planned.err
    decreases |rs|
  {
    var p := st.pending;
    if rs == [] {
      assert p + rs == p;
      if done && p != [] {
        assert Batches(b, p, done) == [p];
        assert EmitAll(e, Flush(e, st), []) == Flush(e, st);
        assert st.(pending := []).(pending := p) == st;
      }
      return;
    }
    var p' := p + [rs[0]];
    assert p + rs == p' + rs[1..];
    if |p'| < b {
      BufferFollowsPlan(e, b, st.(pending := p'), rs[1..], done);
    } else {
      assert (p + rs)[..b] == p' && (p + rs)[b..] == rs[1..];
      var next := Flush(e, st.(pending := p'));
      if next.err.Some? {
        StoppedIsStopped(e, b, next, rs[1..]);
      } else {
        BufferFollowsPlan(e, b, next, rs[1..], done);
        assert [] + rs[1..] == rs[1..] && next.(pending := []) == next;
      }
    }
  }

  lemma {:induction false} ConcatPrepend<T>(x: seq<T>, xss: seq<seq<T>>)
    ensures Concat([x] + xss) == x + Concat(xss)
  {
    var all := [x] + xss;
    if xss == [] {
      assert all == [x] && Concat<T>([]) == [];
    } else {
      assert all[..|all| - 1] == [x] + xss[..|xss| - 1];
      ConcatPrepend(x, xss[..|xss| - 1]);
    }
  }

  lemma ConcatPush<T>(xss: seq<seq<T>>, x: seq<T>)
    ensures Concat(xss + [x]) == Concat(xss) + x
  {
    assert (xss + [x])[..|xss|] == xss;
  }

  /** How many of n rows make whole batches of b. */
  function Whole(n: nat, b: nat): (m: nat)
    requires b >= 1
    ensures m <= n < m + b
  {
    if n < b then 0 else b + Whole(n - b, b)
  }

  lemma {:induction false} WholeIsMultiple(n: nat, b: nat) returns (q: nat)
    requires b >= 1
    ensures Whole(n, b) == b * q
  {
    if n < b { return 0; }
    var less := WholeIsMultiple(n - b, b);
    q := less + 1;
  }

  lemma WholeIsFloor(n: nat, b: nat)
    requires b >= 1
    ensures Whole(n, b) == b * (n / b)
  {
    var q := WholeIsMultiple(n, b);
    QuotientIs(n, b, q, n - Whole(n, b));
  }

  lemma QuotientIs(n: int, b: nat, q: int, r: nat)
    requires b >= 1 && n == b * q + r && r < b
    ensures n / b == q
  {
    var k := q - n / b;
    assert b * k == n % b - r;
    MulBounds(b, k);
  }

  lemma MulBounds(b: nat, k: int)
    requires b >= 1
    ensures k >= 1 ==> b * k >= b
    ensures k <= -1 ==> b * k <= 0 - b
  {
  }

  lemma TakeSplit<T>(s: seq<T>, b: nat, m: nat)
    requires b + m <= |s|
    ensures s[..b] + s[b..] == s && s[..b] + s[b..][..m] == s[..b + m]
  {
  }

  lemma ConcatNone<T>()
    ensures Concat<T>([]) == []
  {
  }

  lemma ConcatOne<T>(x: seq<T>)
    ensures Concat([x]) == x
  {
    assert [x][..0] == [] && [] + x == x;
  }

  /** The plan holds the readings in order, each exactly once, in batches of 1 to b. */
  lemma {:induction false} PlanCovers(b: nat, rs: seq<Reading>, done: bool)
    requires b >= 1
    ensures Concat(Batches(b, rs, done)) == if done then rs else rs[..Whole(|rs|, b)]
    ensures forall batch :: batch in Batches(b, rs, done) ==> 1 <= |batch| <= b
    decreases |rs|
  {
    hide Concat;
    if |rs| < b {
      ConcatOne(rs);
      ConcatNone<Reading>();
    } else {
      PlanCovers(b, rs[b..], done);
      ConcatPrepend(rs[..b], Batches(b, rs[b..], done));
      TakeSplit(rs, b, Whole(|rs| - b, b));
    }
  }

  // ----- what an attempt leaves behind -----

  predicate WellStamped(e: Env, b: nat, w: seq<Reading>) {
    && 1 <= |w| <= b && AllValid(w)
    && forall i :: 0 <= i < |w| ==> w[i].sourceId == e.id && w[i].ingestedAt == e.at
  }

  /** The first n appends were accepted and the last n rows counted. */
  predicate AcceptedFirst(e: Env, st: State, n: nat) {
    && n <= |st.writes| && st.stored == |Concat(st.writes[..n])|
    && forall j :: 0 <= j < n ==> Answer(e, j).Accepted?
  }

  /**
   Every batch written is stamped, valid and no larger than b; without an error all were
   accepted; with one, either an invalid reading stopped it or the last append was rejected.
   */
  predicate Sound(e: Env, b: nat, st: State) {
    && (forall j :: 0 <= j < |st.writes| ==> WellStamped(e, b, st.writes[j]))
    && match st.err
       case None => AcceptedFirst(e, st, |st.writes|)
       case Some(x) =>
         || (x == INVALID_READING && AcceptedFirst(e, st, |st.writes|))
         || (&& |st.writes| > 0 && AcceptedFirst(e, st, |st.writes| - 1)
             && WriteError(Answer(e, |st.writes| - 1)) == Some(x))
  }

  lemma FlushSound(e: Env, b: nat, st: State)
    requires Sound(e, b, st) && st.err.None? && |st.pending| <= b
    ensures Sound(e, b, Flush(e, st))
    ensures Flush(e, st).pending == []
  {
    hide Concat, Consumption.Valid;
    if st.pending != [] {
      var rows := StampAll(e, st.pending);
      assert st.writes[..|st.writes|] == st.writes;
      if AllValid(rows) {
        var all := st.writes + [rows];
        ConcatPush(st.writes, rows);
        assert all[..|all|] == all && all[..|all| - 1] == st.writes;
        assert forall j :: 0 <= j < |st.writes| ==> all[j] == st.writes[j];
      }
    }
  }

  lemma {:induction false} PushAllSound(e: Env, b: nat, st: State, rs: seq<Reading>)
    requires b >= 1 && Sound(e, b, st) && |st.pending| < b
    ensures Sound(e, b, PushAll(e, b, st, rs)) && |PushAll(e, b, st, rs).pending| < b
    decreases |rs|
  {
    if rs != [] {
      if st.err.None? && |st.pending| + 1 == b {
        FlushSound(e, b, st.(pending := st.pending + [rs[0]]));
      }
      PushAllSound(e, b, Push(e, b, st, rs[0]), rs[1..]);
    }
  }

  lemma AttemptSound(e: Env, b: nat, rs: seq<Reading>, done: bool)
    requires b >= 1
    ensures Sound(e, b, Conclude(e, PushAll(e, b, EMPTY, rs), done))
  {
    assert Concat(EMPTY.writes[..0]) == [];
    PushAllSound(e, b, EMPTY, rs);
    var st := PushAll(e, b, EMPTY, rs);
    if done && st.err.None? { FlushSound(e, b, st); }
  }

  lemma Associative<T>(a: seq<T>, b: seq<T>, c: seq<T>)
    ensures (a + b) + c == a + (b + c)
  {
  }

  lemma StampHead(e: Env, rs: seq<Reading>)
    requires rs != []
    ensures StampAll(e, rs) == [Stamp(e, rs[0])] + StampAll(e, rs[1..])
  {
  }

  lemma PushLosesNothing(e: Env, b: nat, st: State, r: Reading)
    requires b >= 1 && Push(e, b, st, r).err.None?
    ensures var next := Push(e, b, st, r);
            Concat(next.writes) + StampAll(e, next.pending)
            == (Concat(st.writes) + StampAll(e, st.pending)) + [Stamp(e, r)]
  {
    var stamped := StampAll(e, st.pending) + [Stamp(e, r)];
    assert StampAll(e, st.pending + [r]) == stamped;
    ConcatPush(st.writes, stamped);
    Associative(Concat(st.writes), StampAll(e, st.pending), [Stamp(e, r)]);
    var next := Push(e, b, st, r);
    if next.pending == [] { assert StampAll(e, next.pending) == []; }
  }

  /** What was written and what is still buffered are, together, the readings pushed so far. */
  lemma {:induction false} NothingLost(e: Env, b: nat, st: State, rs: seq<Reading>)
    requires b >= 1 && PushAll(e, b, st, rs).err.None?
    ensures st.err.None?
    ensures var out := PushAll(e, b, st, rs);
            Concat(out.writes) + StampAll(e, out.pending)
            == Concat(st.writes) + StampAll(e, st.pending) + StampAll(e, rs)
    decreases |rs|
  {
    if st.err.Some? {
      StoppedIsStopped(e, b, st, rs);
    } else if rs != [] {
      NothingLost(e, b, Push(e, b, st, rs[0]), rs[1..]);
      PushLosesNothing(e, b, st, rs[0]);
      StampHead(e, rs);
      Associative(Concat(st.writes) + StampAll(e, st.pending), [Stamp(e, rs[0])], StampAll(e, rs[1..]));
    } else {
      assert StampAll(e, rs) == [];
    }
  }

  /**
   Buffer reuse is invisible: a successful attempt has written exactly the stamped readings,
   in order, each once, in accepted batches of 1 to b, and counts them all.
   */
  lemma SuccessStoresEverything(e: Env, b: nat, rs: seq<Reading>)
    requires b >= 1
    requires Conclude(e, PushAll(e, b, EMPTY, rs), true).err.None?
    ensures var out := Conclude(e, PushAll(e, b, EMPTY, rs), true);
            && Concat(out.writes) == StampAll(e, rs) && out.stored == |rs|
            && (forall j :: 0 <= j < |out.writes| ==> Answer(e, j).Accepted? && WellStamped(e, b, out.writes[j]))
  {
    var st := PushAll(e, b, EMPTY, rs);
    var out := Conclude(e, st, true);
    var all := StampAll(e, rs);
    NothingLost(e, b, EMPTY, rs);
    AttemptSound(e, b, rs, true);
    assert Concat(st.writes) + StampAll(e, st.pending) == all by {
      assert StampAll(e, EMPTY.pending) == [] && Concat(EMPTY.writes) == [];
      assert [] + [] + all == all;
    }
    assert out.writes[..|out.writes|] == out.writes;
    if st.pending == [] {
      assert Concat(st.writes) + [] == Concat(st.writes);
    } else {
      ConcatPush(st.writes, StampAll(e, st.pending));
    }
  }

  /** Two parsers with different batch sizes that both succeed store the same rows in the same order. */
  lemma BatchSizeInvisible(e: Env, f: Env, b: nat, c: nat, rs: seq<Reading>)
    requires b >= 1 && c >= 1 && e.id == f.id && e.at == f.at
    requires Conclude(e, PushAll(e, b, EMPTY, rs), true).err.None?
    requires Conclude(f, PushAll(f, c, EMPTY, rs), true).err.None?
    ensures Concat(Conclude(e, PushAll(e, b, EMPTY, rs), true).writes)
            == Concat(Conclude(f, PushAll(f, c, EMPTY, rs), true).writes)
  {
    SuccessStoresEverything(e, b, rs);
    SuccessStoresEverything(f, c, rs);
  }

  // ----- how far an attempt gets -----

  function StampEach(e: Env, batches: seq<seq<Reading>>): (s: seq<seq<Reading>>)
    ensures |s| == |batches| && forall j :: 0 <= j < |batches| ==> s[j] == StampAll(e, batches[j])
  {
    seq(|batches|, j requires 0 <= j < |batches| => StampAll(e, batches[j]))
  }

  /** All batches hold only valid readings, and their appends, from the n-th on, are accepted. */
  predicate AllGo(e: Env, batches: seq<seq<Reading>>, n: nat) {
    batches == []
    || (AllValid(StampAll(e, batches[0])) && Answer(e, n).Accepted? && AllGo(e, batches[1..], n + 1))
  }

  lemma StampEachCons(e: Env, batches: seq<seq<Reading>>, n: nat)
    requires 0 < n <= |batches|
    ensures StampEach(e, batches[..n]) == [StampAll(e, batches[0])] + StampEach(e, batches[1..][..n - 1])
  {
  }

  lemma {:induction false} EmitsInOrder(e: Env, st: State, batches: seq<seq<Reading>>)
    requires st.err.None? && forall j :: 0 <= j < |batches| ==> |batches[j]| > 0
    ensures var out := EmitAll(e, st, batches);
            var n := |out.writes| - |st.writes|;
            && 0 <= n <= |batches| && out.writes == st.writes + StampEach(e, batches[..n])
            && (out.err.None? <==> AllGo(e, batches, |st.writes|))
    decreases |batches|
  {
    hide StampAll, AllValid, Classify;
    if batches == [] { return; }
    var next := Flush(e, st.(pending := batches[0]));
    var rest := batches[1..];
    assert EmitAll(e, st, batches) == EmitAll(e, next, rest);
    if next.err.Some? {
      assert EmitAll(e, next, rest) == next;
      if next.writes != st.writes { StampEachCons(e, batches, 1); }
    } else {
      EmitsInOrder(e, next, rest);
      var more := |EmitAll(e, next, rest).writes| - |next.writes|;
      StampEachCons(e, batches, more + 1);
      Associative(st.writes, [StampAll(e, batches[0])], StampEach(e, rest[..more]));
    }
  }

  lemma PlanHasNoEmpty(b: nat, rs: seq<Reading>, done: bool)
    requires b >= 1
    ensures forall j :: 0 <= j < |Batches(b, rs, done)| ==> |Batches(b, rs, done)[j]| > 0
  {
    hide Batches, Concat;
    var plan := Batches(b, rs, done);
    PlanCovers(b, rs, done);
    forall j | 0 <= j < |plan| ensures |plan[j]| > 0 { assert plan[j] in plan; }
  }

  lemma StartsEmpty<T>(xs: seq<T>)
    ensures [] + xs == xs
  {
  }

  /**
   However appends are answered, the batches handed to the sink are the first of the plan, in
   order, and emitting does not fail exactly when every batch of the plan is valid and its
   append accepted.
   */
  lemma WritesFollowPlan(e: Env, b: nat, rs: seq<Reading>, done: bool)
    requires b >= 1
    ensures var out, plan := Conclude(e, PushAll(e, b, EMPTY, rs), done), Batches(b, rs, done);
            && |out.writes| <= |plan| && out.writes == StampEach(e, plan[..|out.writes|])
            && (out.err.None? <==> AllGo(e, plan, 0))
  {
    hide Batches, PushAll, Conclude, EmitAll, AllGo, StampEach;
    var plan := Batches(b, rs, done);
    PlanHasNoEmpty(b, rs, done);
    BufferFollowsPlan(e, b, EMPTY, rs, done);
    StartsEmpty(rs);
    assert EMPTY.(pending := []) == EMPTY;
    EmitsInOrder(e, EMPTY, plan);
    StartsEmpty(StampEach(e, plan[..|EmitAll(e, EMPTY, plan).writes|]));
  }

  // ----- the durable prefix -----

  /** i is the index of the first reading that breaks a rule, or the length. */
  predicate FirstBad(rs: seq<Reading>, i: nat) {
    && i <= |rs|
    && (forall j :: 0 <= j < i ==> Valid(rs[j]))
    && (i < |rs| ==> !Valid(rs[i]))
  }

  lemma {:induction false} FirstBadExists(rs: seq<Reading>) returns (i: nat)
    ensures FirstBad(rs, i)
  {
    if rs == [] || !Valid(rs[0]) { return 0; }
    var k := FirstBadExists(rs[1..]);
    i := k + 1;
    assert forall j :: 1 <= j < i ==> rs[j] == rs[1..][j - 1];
  }

  /** How many of n readings are stored when the first bad one has index `bad`. */
  function KeptRows(b: nat, n: nat, bad: nat, done: bool): (m: nat)
    requires b >= 1 && bad <= n
    ensures m <= n
  {
    if done && bad == n then n else Whole(bad, b)
  }

  /**
   After `before` rows the attempt wrote the durable prefix of the stamped readings, counted
   it, and stopped on the bad reading at index `bad` if it was emitted.
   */
  predicate Durable(b: nat, before: seq<Reading>, count: nat, stamped: seq<Reading>, bad: nat, done: bool, out: State)
    requires b >= 1 && bad <= |stamped|
  {
    var kept := KeptRows(b, |stamped|, bad, done);
    && Concat(out.writes) == before + stamped[..kept]
    && out.stored == count + kept
    && out.err == if bad < (if done then |stamped| else Whole(|stamped|, b)) then Some(INVALID_READING) else None
  }

  lemma DurableStep(b: nat, before: seq<Reading>, count: nat, stamped: seq<Reading>, bad: nat, done: bool, out: State)
    requires 1 <= b <= bad <= |stamped|
    requires Durable(b, before + stamped[..b], count + b, stamped[b..], bad - b, done, out)
    ensures Durable(b, before, count, stamped, bad, done, out)
  {
    AppendSplit(before, stamped, b, KeptRows(b, |stamped| - b, bad - b, done));
    KeptRowsStep(b, |stamped|, bad, done);
  }

  lemma KeptRowsStep(b: nat, n: nat, bad: nat, done: bool)
    requires 1 <= b <= bad <= n
    ensures KeptRows(b, n, bad, done) == b + KeptRows(b, n - b, bad - b, done)
    ensures Whole(n, b) == b + Whole(n - b, b)
  {
  }

  lemma AppendSplit<T>(before: seq<T>, s: seq<T>, b: nat, k: nat)
    requires b + k <= |s|
    ensures (before + s[..b]) + s[b..][..k] == before + s[..b + k]
  {
    assert s[..b + k] == s[..b] + s[b..][..k];
  }

  lemma StampDrop(e: Env, rs: seq<Reading>, b: nat)
    requires b <= |rs|
    ensures StampAll(e, rs[..b]) == StampAll(e, rs)[..b]
    ensures StampAll(e, rs[b..]) == StampAll(e, rs)[b..]
  {
  }

  lemma {:induction false} PlanIsDurable(e: Env, b: nat, st: State, rs: seq<Reading>, bad: nat, done: bool)
    requires b >= 1 && st.err.None? && st.pending == []
    requires forall n :: Answer(e, n).Accepted?
    requires FirstBad(StampAll(e, rs), bad)
    ensures Durable(b, Concat(st.writes), st.stored, StampAll(e, rs), bad, done, EmitAll(e, st, Batches(b, rs, done)))
    decreases |rs|
  {
    hide Durable, FirstBad, Flush, StampAll;
    var stamped := StampAll(e, rs);
    if |rs| < b {
      PlanIsDurableLast(e, b, st, rs, bad, done);
    } else {
      var next := Flush(e, st.(pending := rs[..b]));
      var plan := Batches(b, rs[b..], done);
      assert EmitAll(e, st, Batches(b, rs, done)) == EmitAll(e, next, plan);
      StampDrop(e, rs, b);
      if bad >= b {
        FullBatchIsKept(e, b, st, rs, bad);
        PlanIsDurable(e, b, next, rs[b..], bad - b, done);
        DurableStep(b, Concat(st.writes), st.stored, stamped, bad, done, EmitAll(e, next, plan));
      } else {
        FullBatchIsBad(e, b, st, rs, bad);
        assert EmitAll(e, next, plan) == next;
        BadIsDurable(e, b, st, stamped, bad, done, next);
      }
    }
  }

  lemma FullBatchIsKept(e: Env, b: nat, st: State, rs: seq<Reading>, bad: nat)
    requires 1 <= b <= bad && b <= |rs| && st.err.None? && st.pending == [] && Answer(e, |st.writes|).Accepted?
    requires FirstBad(StampAll(e, rs), bad)
    ensures var next := Flush(e, st.(pending := rs[..b]));
            && next.err.None? && next.pending == [] && next.stored == st.stored + b
            && Concat(next.writes) == Concat(st.writes) + StampAll(e, rs)[..b]
    ensures bad <= |rs| && FirstBad(StampAll(e, rs)[b..], bad - b)
  {
    hide Concat, Consumption.Valid;
    StampDrop(e, rs, b);
    ConcatPush(st.writes, StampAll(e, rs)[..b]);
  }

  lemma FullBatchIsBad(e: Env, b: nat, st: State, rs: seq<Reading>, bad: nat)
    requires bad < b <= |rs| && st.err.None? && st.pending == []
    requires FirstBad(StampAll(e, rs), bad)
    ensures Flush(e, st.(pending := rs[..b])) == st.(err := Some(INVALID_READING))
  {
    hide Consumption.Valid;
    StampDrop(e, rs, b);
    assert !Valid(StampAll(e, rs)[..b][bad]);
  }

  lemma BadIsDurable(e: Env, b: nat, st: State, stamped: seq<Reading>, bad: nat, done: bool, out: State)
    requires bad < b <= |stamped| && out == st.(err := Some(INVALID_READING))
    ensures Durable(b, Concat(st.writes), st.stored, stamped, bad, done, out)
  {
    assert Concat(st.writes) + [] == Concat(st.writes);
  }

  lemma PlanIsDurableLast(e: Env, b: nat, st: State, rs: seq<Reading>, bad: nat, done: bool)
    requires b >= 1 && st.err.None? && st.pending == [] && |rs| < b
    requires forall n :: Answer(e, n).Accepted?
    requires FirstBad(StampAll(e, rs), bad)
    ensures Durable(b, Concat(st.writes), st.stored, StampAll(e, rs), bad, done, EmitAll(e, st, Batches(b, rs, done)))
  {
    var stamped := StampAll(e, rs);
    assert stamped[..|rs|] == stamped;
    if done && rs != [] {
      var next := Flush(e, st.(pending := rs));
      assert Batches(b, rs, done) == [rs];
      assert EmitAll(e, next, []) == next;
      ConcatPush(st.writes, stamped);
      assert Answer(e, |st.writes|).Accepted?;
    }
  }

  /**
   Exact durable prefix: when every append is accepted, an attempt that a parse error or an
   invalid reading stops has stored exactly the whole batches before that point. `bad` is
   the first reading that breaks a rule, or their number.
   */
  lemma DurablePrefix(e: Env, b: nat, rs: seq<Reading>, done: bool, bad: nat, kept: nat)
    requires b >= 1
    requires forall n :: Answer(e, n).Accepted?
    requires FirstBad(StampAll(e, rs), bad)
    requires kept == if done && bad == |rs| then |rs| else b * (bad / b)
    ensures var out := Conclude(e, PushAll(e, b, EMPTY, rs), done);
            && kept <= |rs| && out.stored == kept
            && Concat(out.writes) == StampAll(e, rs)[..kept]
            && out.err == if bad < (if done then |rs| else b * (|rs| / b)) then Some(INVALID_READING) else None
  {
    BufferFollowsPlan(e, b, EMPTY, rs, done);
    assert EMPTY.pending + rs == rs && EMPTY.(pending := []) == EMPTY;
    PlanIsDurable(e, b, EMPTY, rs, bad, done);
    WholeIsFloor(bad, b);
    WholeIsFloor(|rs|, b);
    assert [] + StampAll(e, rs)[..kept] == StampAll(e, rs)[..kept];
  }

  // ----- rows in the table -----

  function ToRows(rs: seq<Reading>): (rows: seq<Row>)
    ensures |rows| == |rs| && forall i :: 0 <= i < |rs| ==> rows[i] == ToRow(rs[i])
  {
    seq(|rs|, i requires 0 <= i < |rs| => ToRow(rs[i]))
  }

  /** How many times an append persisted its rows. */
  function Copies(r: Reply): nat {
    match r
    case Accepted(extra) => 1 + extra
    case Rejected(_, copies) => copies
  }

  function Repeat(rows: seq<Row>, n: nat): seq<Row> {
    if n == 0 then [] else Repeat(rows, n - 1) + rows
  }

  lemma {:induction false} RepeatHolds(rows: seq<Row>, n: nat, row: Row)
    ensures row in Repeat(rows, n) <==> n > 0 && row in rows
  {
    if n > 0 { RepeatHolds(rows, n - 1, row); }
  }

  lemma RepeatOnce(rows: seq<Row>)
    ensures Repeat(rows, 1) == rows
  {
    assert Repeat(rows, 0) + rows == rows;
  }

  /** The rows the attempt's appends left in the table. */
  function Persisted(e: Env, writes: seq<seq<Reading>>): seq<Row> {
    if writes == [] then []
    else
      var n := |writes| - 1;
      Persisted(e, writes[..n]) + Repeat(ToRows(writes[n]), Copies(Answer(e, n)))
  }

  lemma PersistedPush(e: Env, writes: seq<seq<Reading>>, w: seq<Reading>)
    ensures Persisted(e, writes + [w])
            == Persisted(e, writes) + Repeat(ToRows(w), Copies(Answer(e, |writes|)))
  {
    assert (writes + [w])[..|writes|] == writes;
  }

  lemma ToRowsAppend(xs: seq<Reading>, ys: seq<Reading>)
    ensures ToRows(xs + ys) == ToRows(xs) + ToRows(ys)
  {
  }

  /** No append persists its rows more than once. */
  ghost predicate NoCopies(e: Env) {
    forall n :: Copies(Answer(e, n)) <= 1
  }

  /** The table got these rows and no others: in order and once each if no append persists more than once. */
  ghost predicate Landed(e: Env, table: seq<Row>, rows: seq<Row>) {
    && (forall row :: row in table <==> row in rows)
    && (NoCopies(e) ==> table == rows)
  }

  /** When every append was accepted the rows of the batches landed. */
  lemma {:induction false} AcceptedArePersisted(e: Env, writes: seq<seq<Reading>>)
    requires forall j :: 0 <= j < |writes| ==> Answer(e, j).Accepted?
    ensures Landed(e, Persisted(e, writes), ToRows(Concat(writes)))
  {
    hide ToRows;
    if writes == [] {
      assert ToRows([]) == [];
    } else {
      var n := |writes| - 1;
      var last := ToRows(writes[n]);
      AcceptedArePersisted(e, writes[..n]);
      ToRowsAppend(Concat(writes[..n]), writes[n]);
      forall row ensures row in Repeat(last, Copies(Answer(e, n))) <==> row in last {
        RepeatHolds(last, Copies(Answer(e, n)), row);
      }
      RepeatOnce(last);
    }
  }
}
