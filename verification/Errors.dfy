/**
 Go error values as trees: a sentinel, a gRPC status, an opaque library error, or a
 `fmt.Errorf` with any number of `%w` verbs. Messages are not modelled, only what
 `errors.Is` and `status.Code` can see.
 */
module Errors {
  import opened Wrappers

  datatype Kind = UnknownFormat | Malformed | InvalidReading | Transient

  datatype Error =
    | Mark(kind: Kind)          // one of the package sentinels
    | Status(code: nat)         // a gRPC status error
    | Eof                       // io.EOF
    | Plain                     // any other library error
    | Wrap(causes: seq<Error>)

  const MALFORMED := Wrap([Mark(Malformed)])
  const MALFORMED_BY := Wrap([Mark(Malformed), Plain])
  const UNKNOWN_FORMAT := Wrap([Mark(UnknownFormat)])
  const INVALID_READING := Wrap([Mark(InvalidReading)])
  const CANCELLED := Wrap([Mark(Transient), Plain])

  /** errors.Is: some node of the tree is the sentinel. */
  predicate Is(e: Error, kind: Kind) {
    match e
    case Mark(k) => k == kind
    case Wrap(causes) => exists c :: c in causes && Is(c, kind)
    case _ => false
  }

  /** The error mentions none of the package sentinels, as library errors do not. */
  predicate Foreign(e: Error) {
    match e
    case Mark(_) => false
    case Wrap(causes) => forall c :: c in causes ==> Foreign(c)
    case _ => true
  }

  lemma {:induction false} ForeignIsNothing(e: Error, kind: Kind)
    requires Foreign(e)
    ensures !Is(e, kind)
  {
    if e.Wrap? {
      forall c | c in e.causes ensures !Is(c, kind) { ForeignIsNothing(c, kind); }
    }
  }

  // gRPC codes, by their numbers on the wire.
  const CODE_CANCELED: nat := 1
  const CODE_UNKNOWN: nat := 2
  const CODE_DEADLINE_EXCEEDED: nat := 4
  const CODE_RESOURCE_EXHAUSTED: nat := 8
  const CODE_INTERNAL: nat := 13
  const CODE_UNAVAILABLE: nat := 14
  const RETRYABLE: set<nat> :=
    {CODE_UNAVAILABLE, CODE_DEADLINE_EXCEEDED, CODE_RESOURCE_EXHAUSTED, CODE_INTERNAL, CODE_CANCELED}

  function StatusOf(e: Error): Option<nat> {
    match e
    case Status(code) => Some(code)
    case Wrap(causes) => FirstStatus(causes)
    case _ => None
  }

  function FirstStatus(causes: seq<Error>): Option<nat> {
    if causes == [] then None
    else match StatusOf(causes[0])
         case Some(code) => Some(code)
         case None => FirstStatus(causes[1..])
  }

  /** status.Code: the first status in the tree, or Unknown when there is none. */
  function Code(e: Error): nat {
    match StatusOf(e)
    case Some(code) => code
    case None => CODE_UNKNOWN
  }

  /** Marks the append failures worth retrying. */
  function Classify(e: Error): Error {
    if Code(e) in RETRYABLE then Wrap([Mark(Transient), e]) else Wrap([e])
  }

  /** The errors at the leaves of a tree, from left to right. */
  function Leaves(e: Error): seq<Error> {
    if e.Wrap? then AllLeaves(e.causes) else [e]
  }

  function AllLeaves(causes: seq<Error>): seq<Error> {
    if causes == [] then [] else Leaves(causes[0]) + AllLeaves(causes[1..])
  }

  /** However deep and wherever in the tree a sentinel stands, it is found, and nothing else is. */
  lemma {:induction false} IsALeaf(e: Error, kind: Kind)
    ensures Is(e, kind) <==> Mark(kind) in Leaves(e)
    decreases e, 0
  {
    if e.Wrap? { SomeIsALeaf(e.causes, kind); }
  }

  lemma {:induction false} SomeIsALeaf(causes: seq<Error>, kind: Kind)
    ensures (exists c :: c in causes && Is(c, kind)) <==> Mark(kind) in AllLeaves(causes)
    decreases causes, 1
  {
    if causes != [] {
      IsALeaf(causes[0], kind);
      SomeIsALeaf(causes[1..], kind);
      assert forall c :: c in causes <==> c == causes[0] || c in causes[1..];
    }
  }

  /** The first status at the leaves. */
  function FirstStatusLeaf(leaves: seq<Error>): Option<nat> {
    if leaves == [] then None
    else if leaves[0].Status? then Some(leaves[0].code)
    else FirstStatusLeaf(leaves[1..])
  }

  lemma {:induction false} FirstStatusAppend(a: seq<Error>, b: seq<Error>)
    ensures FirstStatusLeaf(a + b) == if FirstStatusLeaf(a).Some? then FirstStatusLeaf(a) else FirstStatusLeaf(b)
  {
    if a == [] {
      assert a + b == b;
    } else {
      assert (a + b)[1..] == a[1..] + b;
      FirstStatusAppend(a[1..], b);
    }
  }

  /** The status of a tree is the first at its leaves. */
  lemma {:induction false} StatusIsFirstLeaf(e: Error)
    ensures StatusOf(e) == FirstStatusLeaf(Leaves(e))
    decreases e, 0
  {
    if e.Wrap? { FirstOfAll(e.causes); }
  }

  lemma {:induction false} FirstOfAll(causes: seq<Error>)
    ensures FirstStatus(causes) == FirstStatusLeaf(AllLeaves(causes))
    decreases causes, 1
  {
    if causes != [] {
      StatusIsFirstLeaf(causes[0]);
      FirstOfAll(causes[1..]);
      FirstStatusAppend(Leaves(causes[0]), AllLeaves(causes[1..]));
    }
  }

  /** Canceled, DeadlineExceeded, ResourceExhausted, Internal and Unavailable. */
  predicate Retried(status: Option<nat>) {
    && status.Some?
    && (status.value == 1 || status.value == 4 || status.value == 8 || status.value == 13 || status.value == 14)
  }

  /** Exactly these five statuses make a library error transient, however it is wrapped. */
  lemma ClassifyIsTransient(e: Error)
    requires Foreign(e)
    ensures Is(Classify(e), Transient)
            <==> StatusOf(e).Some? && StatusOf(e).value in {1, 4, 8, 13, 14}
    ensures Is(Classify(e), Transient) <==> Retried(FirstStatusLeaf(Leaves(e)))
    ensures forall kind :: kind != Transient ==> !Is(Classify(e), kind)
  {
    forall kind ensures !Is(e, kind) { ForeignIsNothing(e, kind); }
    StatusIsFirstLeaf(e);
    if Code(e) in RETRYABLE {
      assert Is(Classify(e).causes[0], Transient);
    }
  }

  /** A library error without a gRPC status, a bare context error say, is permanent. */
  lemma NoStatusIsPermanent(e: Error)
    requires Foreign(e) && StatusOf(e) == None
    ensures !Is(Classify(e), Transient)
  {
    ClassifyIsTransient(e);
  }

  /** A malformed document and an unknown format are told apart. */
  lemma RefusalsDiffer()
    ensures Is(MALFORMED, Malformed) && !Is(MALFORMED, UnknownFormat)
    ensures Is(MALFORMED_BY, Malformed) && !Is(MALFORMED_BY, UnknownFormat)
    ensures Is(UNKNOWN_FORMAT, UnknownFormat) && !Is(UNKNOWN_FORMAT, Malformed)
  {
    FixedClasses();
  }

  /** Parser, registry and validation errors are never transient; a cancelled context always is. */
  lemma FixedClasses()
    ensures Is(MALFORMED, Malformed) && !Is(MALFORMED, Transient)
    ensures Is(MALFORMED_BY, Malformed) && !Is(MALFORMED_BY, Transient)
    ensures Is(UNKNOWN_FORMAT, UnknownFormat) && !Is(UNKNOWN_FORMAT, Transient)
    ensures Is(INVALID_READING, InvalidReading) && !Is(INVALID_READING, Transient)
    ensures Is(CANCELLED, Transient)
  {
    assert MALFORMED.causes[0] in MALFORMED.causes;
    assert MALFORMED_BY.causes[0] in MALFORMED_BY.causes;
    assert UNKNOWN_FORMAT.causes[0] in UNKNOWN_FORMAT.causes;
    assert INVALID_READING.causes[0] in INVALID_READING.causes;
    assert CANCELLED.causes[0] in CANCELLED.causes;
  }
}
