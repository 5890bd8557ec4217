/** The object names quarantined payloads are stored under. */
module QuarantineKey {

  predicate Allowed(c: char) {
    'a' <= c <= 'z' || 'A' <= c <= 'Z' || '0' <= c <= '9' || c == '.' || c == '_' || c == '-'
  }

  predicate Trimmed(c: char) {
    c == '_' || c == '.'
  }

  const MAX_SAFE: nat := 128
  const FALLBACK := "unknown"

  function Replaced(id: string): (s: string)
    ensures |s| == |id| && forall i :: 0 <= i < |id| ==> s[i] == if Allowed(id[i]) then id[i] else '_'
  {
    seq(|id|, i requires 0 <= i < |id| => if Allowed(id[i]) then id[i] else '_')
  }

  /** strings.Trim with the cutset "_.". */
  function Trim(s: string): string
    decreases |s|
  {
    if s != [] && Trimmed(s[0]) then Trim(s[1..])
    else if s != [] && Trimmed(s[|s| - 1]) then Trim(s[..|s| - 1])
    else s
  }

  function Sanitized(id: string): string {
    var trimmed := Trim(Replaced(id));
    var capped := if |trimmed| > MAX_SAFE then trimmed[..MAX_SAFE] else trimmed;
    if capped == "" then FALLBACK else capped
  }

  lemma {:induction false} TrimKeeps(s: string)
    ensures |Trim(s)| <= |s| && forall c :: c in Trim(s) ==> c in s
    ensures Trim(s) != "" ==> !Trimmed(Trim(s)[0]) && !Trimmed(Trim(s)[|Trim(s)| - 1])
    decreases |s|
  {
    if s != [] && Trimmed(s[0]) {
      TrimKeeps(s[1..]);
    } else if s != [] && Trimmed(s[|s| - 1]) {
      TrimKeeps(s[..|s| - 1]);
    }
  }

  /** Whatever the message id, its safe part is 1 to 128 allowed characters and starts with none that is trimmed. */
  lemma SanitizedIsSafe(id: string)
    ensures 1 <= |Sanitized(id)| <= 128
    ensures forall c :: c in Sanitized(id) ==>
                          || 'a' <= c <= 'z' || 'A' <= c <= 'Z' || '0' <= c <= '9'
                          || c == '.' || c == '_' || c == '-'
    ensures Sanitized(id)[0] != '_' && Sanitized(id)[0] != '.'
  {
    var replaced := Replaced(id);
    TrimKeeps(replaced);
    forall c | c in Sanitized(id) ensures Allowed(c) {
      if c in replaced {
        var i :| 0 <= i < |replaced| && replaced[i] == c;
      }
    }
  }

  /** An id that is already safe is kept as it is. */
  lemma SafeIdIsKept(id: string)
    requires 1 <= |id| <= 128
    requires forall c :: c in id ==>
                           || 'a' <= c <= 'z' || 'A' <= c <= 'Z' || '0' <= c <= '9'
                           || c == '.' || c == '_' || c == '-'
    requires id[0] != '_' && id[0] != '.' && id[|id| - 1] != '_' && id[|id| - 1] != '.'
    ensures Sanitized(id) == id
  {
    assert forall i :: 0 <= i < |id| ==> id[i] in id;
    assert Replaced(id) == id;
  }

  /** So an id of letters, digits and dashes is, such as the numeric ids Pub/Sub gives. */
  lemma PlainIdIsKept(id: string)
    ensures (1 <= |id| <= 128 && forall c :: c in id ==>
                                   'a' <= c <= 'z' || 'A' <= c <= 'Z' || '0' <= c <= '9' || c == '-')
            ==> Sanitized(id) == id
  {
    if 1 <= |id| <= 128 && forall c :: c in id ==> 'a' <= c <= 'z' || 'A' <= c <= 'Z' || '0' <= c <= '9' || c == '-' {
      assert id[0] in id && id[|id| - 1] in id;
      SafeIdIsKept(id);
    }
  }

  /** A letter, a digit or a dash: what is kept wherever it stands. */
  predicate Core(c: char) {
    'a' <= c <= 'z' || 'A' <= c <= 'Z' || '0' <= c <= '9' || c == '-'
  }

  lemma {:induction false} TrimFront(pre: string, s: string)
    requires forall i :: 0 <= i < |pre| ==> Trimmed(pre[i])
    ensures Trim(pre + s) == Trim(s)
  {
    if pre == "" {
      assert pre + s == s;
    } else {
      assert (pre + s)[1..] == pre[1..] + s;
      TrimFront(pre[1..], s);
    }
  }

  lemma {:induction false} TrimBack(s: string, post: string)
    requires s != "" && !Trimmed(s[0]) && !Trimmed(s[|s| - 1])
    requires forall i :: 0 <= i < |post| ==> Trimmed(post[i])
    ensures Trim(s + post) == s
    decreases |post|
  {
    var n := |post| - 1;
    if post == "" {
      assert s + post == s;
    } else {
      assert (s + post)[..|s + post| - 1] == s + post[..n];
      TrimBack(s, post[..n]);
    }
  }

  /**
   What becomes of any id with something to keep: what surrounds its first and last letter,
   digit or dash goes, and of the first 128 characters between them the ones outside
   [A-Za-z0-9._-] become underscores.
   */
  lemma SanitizedMiddle(pre: string, mid: string, post: string)
    requires mid != "" && Core(mid[0]) && Core(mid[|mid| - 1])
    requires forall i :: 0 <= i < |pre| ==> !Core(pre[i])
    requires forall i :: 0 <= i < |post| ==> !Core(post[i])
    ensures var s := Sanitized(pre + mid + post);
            && |s| == (if |mid| > 128 then 128 else |mid|)
            && forall i :: 0 <= i < |s| ==> s[i] == if Core(mid[i]) || mid[i] == '.' then mid[i] else '_'
  {
    var a, b, c := Replaced(pre), Replaced(mid), Replaced(post);
    assert Replaced(pre + mid + post) == a + (b + c);
    TrimFront(a, b + c);
    TrimBack(b, c);
  }

  /** And of any id without: nothing is left of it. */
  lemma NothingToKeep(id: string)
    requires forall i :: 0 <= i < |id| ==> !Core(id[i])
    ensures Sanitized(id) == "unknown"
  {
    var s := Replaced(id);
    TrimFront(s, "");
    assert s + "" == s;
  }

  /** Sanitising again changes nothing exactly when the cap does not cut right after a character that is trimmed. */
  lemma SanitizingAgain(id: string)
    ensures var t := Trim(Replaced(id));
            Sanitized(Sanitized(id)) == Sanitized(id) <==> |t| <= MAX_SAFE || !Trimmed(t[MAX_SAFE - 1])
  {
    SanitizedIsSafe(id);
    TrimKeeps(Replaced(id));
    var s := Sanitized(id);
    if Trimmed(s[|s| - 1]) {
      TrimKeeps(Replaced(s));
    } else {
      SafeIdIsKept(s);
    }
  }

  /** Such an id: 127 letters, a dot and one more letter. */
  lemma SanitizingAgainCanDiffer()
    ensures var id := seq(127, _ => 'a') + "." + "b"; Sanitized(Sanitized(id)) != Sanitized(id)
  {
    var id := seq(127, _ => 'a') + "." + "b";
    assert Replaced(id) == id;
    assert id[0] == 'a' && id[128] == 'b' && id[127] == '.';
    SanitizingAgain(id);
  }

  method SanitizeId(id: string) returns (safe: string)
    ensures safe == Sanitized(id)
    ensures 1 <= |safe| <= 128
    ensures forall c :: c in safe ==>
                          || 'a' <= c <= 'z' || 'A' <= c <= 'Z' || '0' <= c <= '9'
                          || c == '.' || c == '_' || c == '-'
    ensures (1 <= |id| <= 128 && forall c :: c in id ==>
                                   'a' <= c <= 'z' || 'A' <= c <= 'Z' || '0' <= c <= '9' || c == '-') ==> safe == id
  {
    SanitizedIsSafe(id);
    PlainIdIsKept(id);
    var buf := "";
    for i := 0 to |id|
      invariant buf == Replaced(id)[..i]
    {
      if Allowed(id[i]) {
        buf := buf + [id[i]];
      } else {
        buf := buf + ['_'];
      }
    }
    assert Replaced(id)[..|id|] == Replaced(id);
    safe := Trim(buf);
    if |safe| > MAX_SAFE {
      safe := safe[..MAX_SAFE];
    }
    if safe == "" {
      safe := FALLBACK;
    }
  }

  /** An instant as it is formatted: "2006/01/02" in UTC and "150405.000000000". */
  datatype Instant = Instant(date: string, clock: string)

  predicate Formatted(t: Instant) {
    |t.date| == 10 && multiset(t.date)['/'] == 2 && |t.clock| == 16 && '/' !in t.clock
  }

  predicate IsHex(c: char) {
    '0' <= c <= '9' || 'a' <= c <= 'f'
  }

  /** Eight hex digits of a SHA-256 sum, which stays uninterpreted. */
  predicate Digest(g: string) {
    |g| == 8 && forall i :: 0 <= i < |g| ==> IsHex(g[i])
  }

  function ObjectName(t: Instant, digest: string, id: string): string {
    t.date + "/" + t.clock + "-" + digest + "-" + Sanitized(id) + ".xml"
  }

  /** Where a name's parts stand: the date partition first, then time, digest and safe part, and the extension. */
  lemma NameParts(t: Instant, digest: string, id: string)
    requires Formatted(t) && Digest(digest)
    ensures var name := ObjectName(t, digest, id);
            && |name| > 41
            && name[..10] == t.date && name[10] == '/' && name[11..27] == t.clock && name[27] == '-'
            && name[28..36] == digest && name[36] == '-' && name[37..|name| - 4] == Sanitized(id)
            && name[|name| - 4..] == ".xml"
  {
    SanitizedIsSafe(id);
  }

  /** No id adds a path element: the name has the three slashes of the date partition. */
  lemma ThreeSlashes(t: Instant, digest: string, id: string)
    requires Formatted(t) && Digest(digest)
    ensures multiset(ObjectName(t, digest, id))['/'] == 3
  {
    SanitizedIsSafe(id);
    assert '/' !in digest && '/' !in Sanitized(id);
    assert multiset(t.date + "/")['/'] == 3;
    assert multiset(t.date + "/" + t.clock + "-")['/'] == 3;
    assert multiset(t.date + "/" + t.clock + "-" + digest + "-")['/'] == 3;
  }

  /**
   At one instant two ids share a name exactly when their digests and their safe parts both
   coincide; the digest is 32 bits wide, so that distinct ids get distinct names is not promised.
   */
  lemma SharedNames(t: Instant, g: string, id: string, h: string, other: string)
    requires Formatted(t) && Digest(g) && Digest(h)
    ensures ObjectName(t, g, id) == ObjectName(t, h, other) <==> g == h && Sanitized(id) == Sanitized(other)
  {
    var a, b := ObjectName(t, g, id), ObjectName(t, h, other);
    assert a[28..36] == g && b[28..36] == h;
    assert a[37..|a| - 4] == Sanitized(id) && b[37..|b| - 4] == Sanitized(other);
  }

  // ----- distinct ids do not always get distinct names -----

  function Pow16(n: nat): nat {
    if n == 0 then 1 else 16 * Pow16(n - 1)
  }

  function HexValue(c: char): (v: nat)
    ensures v < 16
  {
    if '0' <= c <= '9' then (c - '0') as nat else if 'a' <= c <= 'f' then (c - 'a') as nat + 10 else 0
  }

  function Number(g: string): (v: nat)
    ensures v < Pow16(|g|)
  {
    if g == "" then 0 else 16 * Number(g[..|g| - 1]) + HexValue(g[|g| - 1])
  }

  lemma HexTellsApart(c: char, d: char, a: nat, b: nat)
    requires IsHex(c) && IsHex(d) && 16 * a + HexValue(c) == 16 * b + HexValue(d)
    ensures a == b && c == d
  {
  }

  lemma {:induction false} NumberTellsApart(g: string, h: string)
    requires |g| == |h| && Number(g) == Number(h)
    requires forall i :: 0 <= i < |g| ==> IsHex(g[i]) && IsHex(h[i])
    ensures g == h
  {
    if g != "" {
      var n := |g| - 1;
      HexTellsApart(g[n], h[n], Number(g[..n]), Number(h[..n]));
      NumberTellsApart(g[..n], h[..n]);
      assert g == g[..n] + [g[n]] && h == h[..n] + [h[n]];
    }
  }

  lemma {:induction false} BelowHasSize(s: set<nat>, n: nat)
    requires forall x :: x in s ==> x < n
    ensures |s| <= n
  {
    if n == 0 {
      assert s == {};
    } else {
      BelowHasSize(s - {n - 1}, n - 1);
    }
  }

  function Images(f: nat -> nat, n: nat): set<nat> {
    if n == 0 then {} else Images(f, n - 1) + {f(n - 1)}
  }

  lemma {:induction false} ImagesHold(f: nat -> nat, n: nat, v: nat)
    ensures v in Images(f, n) <==> exists i: nat :: i < n && f(i) == v
  {
    if n > 0 { ImagesHold(f, n - 1, v); }
  }

  lemma {:induction false} DistinctImages(f: nat -> nat, n: nat)
    requires forall i: nat, j: nat :: i < j < n ==> f(i) != f(j)
    ensures |Images(f, n)| == n
  {
    if n > 0 {
      ImagesHold(f, n - 1, f(n - 1));
      DistinctImages(f, n - 1);
    }
  }

  /** More values than room for them: two coincide. */
  lemma Pigeonhole(f: nat -> nat, n: nat) returns (i: nat, j: nat)
    requires forall k: nat :: k <= n ==> f(k) < n
    ensures i < j <= n && f(i) == f(j)
  {
    if i', j' :| 0 <= i' < j' <= n && f(i') == f(j') { return i', j'; }
    var m := n + 1;
    DistinctImages(f, m);
    forall v | v in Images(f, m) ensures v < n { ImagesHold(f, m, v); }
    BelowHasSize(Images(f, m), n);
    assert false;
  }

  function Pow2(n: nat): nat {
    if n == 0 then 1 else 2 * Pow2(n - 1)
  }

  lemma {:induction false} FourBitsAHexDigit(n: nat)
    ensures Pow2(4 * n) == Pow16(n)
  {
    if n > 0 {
      FourBitsAHexDigit(n - 1);
      assert Pow2(4 * n) == 2 * Pow2(4 * n - 1) == 4 * Pow2(4 * n - 2) == 8 * Pow2(4 * n - 3) == 16 * Pow2(4 * n - 4);
    }
  }

  /** The n-bit form of k, in two characters no key may hold. */
  function Bits(k: nat, n: nat): (s: string)
    ensures |s| == n
    ensures forall i :: 0 <= i < n ==> s[i] == '/' || s[i] == ':'
  {
    if n == 0 then "" else Bits(k / 2, n - 1) + [if k % 2 == 0 then '/' else ':']
  }

  lemma {:induction false} BitsTellApart(k: nat, m: nat, n: nat)
    requires k < Pow2(n) && m < Pow2(n) && Bits(k, n) == Bits(m, n)
    ensures k == m
  {
    if n > 0 {
      var a, b := Bits(k, n), Bits(m, n);
      assert a[..n - 1] == Bits(k / 2, n - 1) && b[..n - 1] == Bits(m / 2, n - 1);
      assert a[n - 1] == b[n - 1];
      BitsTellApart(k / 2, m / 2, n - 1);
    }
  }

  lemma {:induction false} AllTrimmedAway(s: string)
    requires forall i :: 0 <= i < |s| ==> s[i] == '_'
    ensures Trim(s) == ""
    decreases |s|
  {
    if s != "" { AllTrimmedAway(s[1..]); }
  }

  lemma BitsAreUnknown(k: nat, n: nat)
    ensures Sanitized(Bits(k, n)) == FALLBACK
  {
    assert !Allowed('/') && !Allowed(':');
    AllTrimmedAway(Replaced(Bits(k, n)));
  }

  /** Whatever the digest, at any instant two distinct ids of 33 characters share a name. */
  lemma DistinctIdsCanShareName(t: Instant, digest: string -> string) returns (id: string, other: string)
    requires Formatted(t) && forall s :: Digest(digest(s))
    ensures id != other && |id| == |other| == 33
    ensures ObjectName(t, digest(id), id) == ObjectName(t, digest(other), other)
  {
    hide Pow16, Number, Sanitized, Bits;
    forall k: nat ensures Number(digest(Bits(k, 33))) < Pow16(8) { assert Digest(digest(Bits(k, 33))); }
    var i, j := Pigeonhole(k => Number(digest(Bits(k, 33))), Pow16(8));
    id, other := Bits(i, 33), Bits(j, 33);
    BitsAreUnknown(i, 33);
    BitsAreUnknown(j, 33);
    NumberTellsApart(digest(id), digest(other));
    FourBitsAHexDigit(8);
    if id == other { BitsTellApart(i, j, 33); }
  }
}
