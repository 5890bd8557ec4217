/** Any number of requests at once, as the endpoint handles each, in any merge of their steps. */
module Requests {
  import opened Wrappers
  import opened Xml
  import opened Batching
  import opened EsmpParser
  import opened Registry
  import opened Handler
  import opened Delivery
  import opened Merging
  import opened Refinement

  /** A request, when its context is done, and how the table answers it. */
  datatype Arrival = Arrival(req: Request, cancelled: nat -> bool, env: Env)

  /** The request is past the first checks, and b is the delivery of its message that it starts. */
  predicate Starts(inbox: seq<Mail>, b: Birth, codec: Codec, parsers: map<Name, Esmp>, a: Arrival) {
    && Early(codec, a.req) in {None, Some(OK)}
    && b.mail < |inbox| && inbox[b.mail] == MailIn(codec, parsers, a.req.body.bytes)
    && b == BirthOf(codec, parsers, a.req.body.bytes, b.mail, a.env.at)
    && (Early(codec, a.req) == None ==> a.env.id == MessageOf(codec, a.req).id)
  }

  /** Delivery i has the endpoint's answer to the request and, since w, has added the rows it appended. */
  predicate Served(w: World, w': World, i: nat, codec: Codec, registry: Registry, a: Arrival)
    reads registry
  {
    && |w.origin| == |w.table| && |w'.origin| == |w'.table|
    && i < |w'.at| && Gives(w'.at[i], Verdict(ErrorOf(codec, registry, a.req, a.cancelled, a.env)))
    && RowsFrom(w', i) == RowsFrom(w, i) + Persisted(a.env, WritesOf(codec, registry, a.req, a.cancelled, a.env))
  }

  /** Delivery i can take these steps alone, and is served in any merge in which it ends as alone. */
  ghost predicate Serves(inbox: seq<Mail>, w: World, i: nat, own: seq<Step>, codec: Codec, registry: Registry,
                         a: Arrival)
    requires WellFormed(inbox, w)
    reads registry
  {
    && AllOwn(own, i) && CanRun(inbox, w, own)
    && forall steps: seq<Step>, w': World ::
         Own(steps, i) == own && |w'.origin| == |w'.table| && EndsAsAlone(inbox, w, steps, i, w') ==>
           Served(w, w', i, codec, registry, a)
  }

  lemma RequestInAnyMerge(inbox: seq<Mail>, w: World, i: nat, codec: Codec, registry: Registry, a: Arrival)
    returns (own: seq<Step>)
    requires WellFormed(inbox, w) && i < |w.births| && w.at[i] == Running(0)
    requires Starts(inbox, w.births[i], codec, registry.parsers, a)
    ensures Serves(inbox, w, i, own, codec, registry, a)
  {
    hide Plan, Persisted, WritesOf, ErrorOf, MailIn, BirthOf, Runs, RowsFrom, Acknowledge;
    var alone;
    own, alone := BodyIsRun(inbox, w, i, codec, registry, a.req, a.cancelled, a.env);
    var added := OwnRows(inbox, w, own, i, alone);
    assert alone.table[|w.table|..] == added;
  }

  /** In `started`, delivery first + j is the one that arrival j has just started. */
  predicate AllStarted(inbox: seq<Mail>, started: World, first: nat, codec: Codec, parsers: map<Name, Esmp>,
                       arrivals: seq<Arrival>)
    requires WellFormed(inbox, started)
  {
    && |started.births| == first + |arrivals|
    && forall j :: 0 <= j < |arrivals| ==>
                     && started.at[first + j] == Running(0)
                     && Starts(inbox, started.births[first + j], codec, parsers, arrivals[j])
  }

  /** The j-th steps are those arrival j's delivery takes. */
  ghost predicate AllServe(inbox: seq<Mail>, started: World, first: nat, codec: Codec, registry: Registry,
                           arrivals: seq<Arrival>, owns: seq<seq<Step>>)
    requires WellFormed(inbox, started)
    reads registry
  {
    && |owns| <= |arrivals|
    && forall j :: 0 <= j < |owns| ==> Serves(inbox, started, first + j, owns[j], codec, registry, arrivals[j])
  }

  lemma {:induction false} OwnSteps(inbox: seq<Mail>, started: World, first: nat, codec: Codec, registry: Registry,
                                    arrivals: seq<Arrival>, n: nat) returns (owns: seq<seq<Step>>)
    requires WellFormed(inbox, started) && n <= |arrivals|
    requires AllStarted(inbox, started, first, codec, registry.parsers, arrivals)
    ensures |owns| == n && AllServe(inbox, started, first, codec, registry, arrivals, owns)
  {
    hide Serves, Starts;
    if n == 0 { return []; }
    var before := OwnSteps(inbox, started, first, codec, registry, arrivals, n - 1);
    var last := RequestInAnyMerge(inbox, started, first + (n - 1), codec, registry, arrivals[n - 1]);
    owns := before + [last];
  }

  /**
   A merge of the requests' own steps: deliveries start as in `starts`, none moves before it
   has started, delivery first + j takes the j-th own steps, and earlier ones what they can.
   */
  ghost predicate MergeOf(inbox: seq<Mail>, started: World, first: nat, starts: seq<Step>, owns: seq<seq<Step>>,
                          steps: seq<Step>)
    requires WellFormed(inbox, started)
  {
    && InTime(steps, first) && Merging.Starts(steps) == starts
    && (forall i :: 0 <= i < first ==> CanRun(inbox, started, Own(steps, i)))
    && (forall j :: 0 <= j < |owns| ==> Own(steps, first + j) == owns[j])
  }

  /** The steps are a run from w, after which every arrival has been served. */
  ghost predicate AllServed(inbox: seq<Mail>, w: World, started: World, codec: Codec, registry: Registry,
                            arrivals: seq<Arrival>, steps: seq<Step>)
    requires WellFormed(inbox, w)
    reads registry
  {
    exists w' :: Runs(inbox, w, steps, w')
                 && forall j :: 0 <= j < |arrivals| ==>
                                  Served(started, w', |w.births| + j, codec, registry, arrivals[j])
  }

  /**
   Requests in company: for any requests whose deliveries start from w there are steps of their
   own, and every merge of those, with starts anywhere in between, is a run of the protocol in
   which each request gets the endpoint's answer and adds the rows the endpoint appends.
   */
  lemma RequestsAreRun(inbox: seq<Mail>, w: World, starts: seq<Step>, started: World, codec: Codec, registry: Registry,
                       arrivals: seq<Arrival>) returns (owns: seq<seq<Step>>)
    requires WellFormed(inbox, w) && Runs(inbox, w, starts, started) && WellFormed(inbox, started)
    requires AllStarted(inbox, started, |w.births|, codec, registry.parsers, arrivals)
    ensures |owns| == |arrivals| && AllServe(inbox, started, |w.births|, codec, registry, arrivals, owns)
    ensures forall steps :: MergeOf(inbox, started, |w.births|, starts, owns, steps) ==>
                              AllServed(inbox, w, started, codec, registry, arrivals, steps)
  {
    hide AllStarted, AllServe, AllServed, MergeOf, Runs;
    owns := OwnSteps(inbox, started, |w.births|, codec, registry, arrivals, |arrivals|);
    OwnsAreAll(inbox, started, |w.births|, codec, registry, arrivals, owns);
    forall steps | MergeOf(inbox, started, |w.births|, starts, owns, steps)
      ensures AllServed(inbox, w, started, codec, registry, arrivals, steps)
    {
      MergeServes(inbox, w, starts, started, codec, registry, arrivals, owns, steps);
    }
  }

  lemma OwnsAreAll(inbox: seq<Mail>, started: World, first: nat, codec: Codec, registry: Registry,
                   arrivals: seq<Arrival>, owns: seq<seq<Step>>)
    requires WellFormed(inbox, started) && AllStarted(inbox, started, first, codec, registry.parsers, arrivals)
    ensures |started.births| == first + |arrivals|
  {
  }

  lemma MergeServes(inbox: seq<Mail>, w: World, starts: seq<Step>, started: World, codec: Codec, registry: Registry,
                    arrivals: seq<Arrival>, owns: seq<seq<Step>>, steps: seq<Step>)
    requires WellFormed(inbox, w) && Runs(inbox, w, starts, started) && WellFormed(inbox, started)
    requires |started.births| == |w.births| + |arrivals| && |owns| == |arrivals|
    requires AllServe(inbox, started, |w.births|, codec, registry, arrivals, owns)
    requires MergeOf(inbox, started, |w.births|, starts, owns, steps)
    ensures AllServed(inbox, w, started, codec, registry, arrivals, steps)
  {
    hide Served, EndsAsAlone, Runs, InTime, Plan, AllOwn;
    var first := |w.births|;
    forall i | 0 <= i < |started.births| ensures CanRun(inbox, started, Own(steps, i)) {
      if i >= first {
        var j := i - first;
        assert Own(steps, first + j) == owns[j];
        assert Serves(inbox, started, first + j, owns[j], codec, registry, arrivals[j]);
      }
    }
    var w' := AnyMergeIsRun(inbox, w, steps, started);
    forall j | 0 <= j < |arrivals| ensures Served(started, w', first + j, codec, registry, arrivals[j]) {
      assert EndsAsAlone(inbox, started, steps, first + j, w');
      assert Own(steps, first + j) == owns[j];
      assert Serves(inbox, started, first + j, owns[j], codec, registry, arrivals[j]);
    }
  }
}
