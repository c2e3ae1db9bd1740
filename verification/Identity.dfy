/** Credential fingerprints and the chain of transitions the plugin itself performed. */
module Identity {
  import opened Basics

  /** Three component hashes. The composite hash is taken to be injective, so two
      composites agree exactly when the fingerprints do. */
  datatype Fingerprint = Fingerprint(subject: nat, refresh: nat, metadata: nat)

  datatype Phase = Planned | Applied | Aborted | OutcomeUnknown

  /** Times count nanoseconds; zero is an unset time. */
  datatype Transition = Transition(prev: Fingerprint, next: Fingerprint, saveSeq: nat, phase: Phase, createdAt: int)

  datatype Chain = Chain(cursor: Fingerprint, transitions: seq<Transition>)

  const DAY: int := 24 * 3600 * 1_000_000_000
  const MAX_TRANSITIONS := 11

  predicate Unresolved(tr: Transition) {
    tr.phase.Planned? || tr.phase.OutcomeUnknown?
  }

  predicate Old(tr: Transition, now: int) {
    tr.createdAt != 0 && now - tr.createdAt > DAY
  }

  function After(current: Fingerprint, tr: Transition): Fingerprint {
    if tr.phase.Applied? then tr.next else current
  }

  // ---- Walking a chain ----

  function TailFrom(current: Fingerprint, trs: seq<Transition>): Fingerprint
    decreases |trs|
  {
    if trs == [] || trs[0].prev != current then current else TailFrom(After(current, trs[0]), trs[1..])
  }

  function SaveTailFrom(current: Fingerprint, trs: seq<Transition>): Option<Fingerprint>
    decreases |trs|
  {
    if trs == [] || trs[0].prev != current then Some(current)
    else if Unresolved(trs[0]) then None
    else SaveTailFrom(After(current, trs[0]), trs[1..])
  }

  function Tail(c: Chain): Fingerprint {
    TailFrom(c.cursor, c.transitions)
  }

  function SaveTail(c: Chain): Option<Fingerprint> {
    SaveTailFrom(c.cursor, c.transitions)
  }

  /** Every transition starts where the applied ones before it lead. */
  predicate LinkedFrom(current: Fingerprint, trs: seq<Transition>)
    decreases |trs|
  {
    trs == [] || (trs[0].prev == current && LinkedFrom(After(current, trs[0]), trs[1..]))
  }

  predicate Linked(c: Chain) {
    LinkedFrom(c.cursor, c.transitions)
  }

  method ComputeTail(c: Chain) returns (current: Fingerprint)
    ensures current == Tail(c)
  {
    current := c.cursor;
    var n := 0;
    while n < |c.transitions|
      invariant 0 <= n <= |c.transitions|
      invariant TailFrom(current, c.transitions[n..]) == Tail(c)
    {
      var tr := c.transitions[n];
      if tr.prev != current {
        return;
      }
      if tr.phase.Applied? {
        current := tr.next;
      }
      n := n + 1;
    }
  }

  method ComputeSaveTail(c: Chain) returns (tail: Option<Fingerprint>)
    ensures tail == SaveTail(c)
  {
    var current := c.cursor;
    var n := 0;
    while n < |c.transitions|
      invariant 0 <= n <= |c.transitions|
      invariant SaveTailFrom(current, c.transitions[n..]) == SaveTail(c)
    {
      var tr := c.transitions[n];
      if tr.prev != current {
        return Some(current);
      }
      match tr.phase {
        case Applied => current := tr.next;
        case Planned => return None;
        case OutcomeUnknown => return None;
        case Aborted =>
      }
      n := n + 1;
    }
    return Some(current);
  }

  // ---- Appending with expiry and truncation ----

  /** Where the first n transitions lead if all of them were applied. */
  function Position(c: Chain, n: nat): Fingerprint
    requires n <= |c.transitions|
  {
    if n == 0 then c.cursor else c.transitions[n - 1].next
  }

  predicate Expired(c: Chain, now: int) {
    && c.transitions != [] && c.transitions[0].prev == c.cursor
    && c.transitions[0].phase.Applied? && Old(c.transitions[0], now)
  }

  function Pruned(c: Chain, now: int): Chain
    decreases |c.transitions|
  {
    if Expired(c, now) then Pruned(Chain(c.transitions[0].next, c.transitions[1..]), now) else c
  }

  function Truncated(c: Chain): Chain {
    var extra := |c.transitions| - MAX_TRANSITIONS;
    if extra > 0 then Chain(c.transitions[extra].prev, c.transitions[extra..]) else c
  }

  function Extended(c: Chain, tr: Transition): Chain {
    Chain(c.cursor, c.transitions + [tr])
  }

  function AppendAt(c: Chain, tr: Transition, now: int): Chain {
    Truncated(Extended(Pruned(c, if now == 0 then tr.createdAt else now), tr))
  }

  method ComputeAppendAt(c: Chain, tr: Transition, now: int) returns (r: Chain)
    ensures r == AppendAt(c, tr, now)
  {
    var at := now;
    if at == 0 {
      at := tr.createdAt;
    }
    var cursor, trs := c.cursor, c.transitions;
    while |trs| > 0 && trs[0].prev == cursor && trs[0].phase.Applied?
          && trs[0].createdAt != 0 && at - trs[0].createdAt > DAY
      invariant Pruned(Chain(cursor, trs), at) == Pruned(c, at)
      decreases |trs|
    {
      cursor := trs[0].next;
      trs := trs[1..];
    }
    trs := trs + [tr];
    if |trs| > MAX_TRANSITIONS {
      trs := trs[|trs| - MAX_TRANSITIONS..];
      cursor := trs[0].prev;
    }
    r := Chain(cursor, trs);
  }

  // ---- Appending keeps the meaning ----

  predicate AnyUnresolved(trs: seq<Transition>) {
    exists n :: 0 <= n < |trs| && Unresolved(trs[n])
  }

  /** On a linked chain the walk never breaks off, so it can be cut anywhere. */
  lemma {:induction false} WalkSplits(current: Fingerprint, a: seq<Transition>, b: seq<Transition>)
    requires LinkedFrom(current, a)
    ensures TailFrom(current, a + b) == TailFrom(TailFrom(current, a), b)
    ensures LinkedFrom(current, a + b) <==> LinkedFrom(TailFrom(current, a), b)
    decreases |a|
  {
    if a == [] {
      assert a + b == b;
    } else {
      assert (a + b)[1..] == a[1..] + b;
      WalkSplits(After(current, a[0]), a[1..], b);
    }
  }

  lemma {:induction false} LinkedPrefix(current: Fingerprint, a: seq<Transition>, b: seq<Transition>)
    requires LinkedFrom(current, a + b)
    ensures LinkedFrom(current, a)
    decreases |a|
  {
    if a != [] {
      assert (a + b)[1..] == a[1..] + b;
      LinkedPrefix(After(current, a[0]), a[1..], b);
    }
  }

  lemma {:induction false} SaveTailOfLinked(current: Fingerprint, trs: seq<Transition>)
    requires LinkedFrom(current, trs)
    ensures SaveTailFrom(current, trs) == if AnyUnresolved(trs) then None else Some(TailFrom(current, trs))
    decreases |trs|
  {
    if trs != [] && !Unresolved(trs[0]) {
      SaveTailOfLinked(After(current, trs[0]), trs[1..]);
      assert AnyUnresolved(trs) <==> AnyUnresolved(trs[1..]);
    }
  }

  lemma {:induction false} PrunedKeeps(c: Chain, now: int)
    ensures Tail(Pruned(c, now)) == Tail(c)
    ensures SaveTail(Pruned(c, now)) == SaveTail(c)
    ensures Linked(c) ==> Linked(Pruned(c, now))
    decreases |c.transitions|
  {
    if Expired(c, now) {
      PrunedKeeps(Chain(c.transitions[0].next, c.transitions[1..]), now);
    }
  }

  lemma {:induction false} PrunedIsSuffix(c: Chain, now: int) returns (k: nat)
    ensures k <= |c.transitions| && Pruned(c, now).transitions == c.transitions[k..]
    decreases |c.transitions|
  {
    if Expired(c, now) {
      var rest := PrunedIsSuffix(Chain(c.transitions[0].next, c.transitions[1..]), now);
      k := rest + 1;
    } else {
      k := 0;
    }
  }

  lemma TruncatedKeeps(c: Chain)
    requires Linked(c)
    ensures Linked(Truncated(c)) && Tail(Truncated(c)) == Tail(c)
    ensures |Truncated(c).transitions| <= MAX_TRANSITIONS
  {
    var extra := |c.transitions| - MAX_TRANSITIONS;
    if extra > 0 {
      var a, b := c.transitions[..extra], c.transitions[extra..];
      assert c.transitions == a + b;
      LinkedPrefix(c.cursor, a, b);
      WalkSplits(c.cursor, a, b);
      assert b[0].prev == TailFrom(c.cursor, a);
    }
  }

  lemma ExtendedLinked(c: Chain, tr: Transition)
    requires Linked(c) && tr.prev == Tail(c)
    ensures Linked(Extended(c, tr)) && Tail(Extended(c, tr)) == After(Tail(c), tr)
  {
    WalkSplits(c.cursor, c.transitions, [tr]);
    assert TailFrom(Tail(c), [tr]) == After(Tail(c), tr);
  }

  /** Appending to a linked chain keeps it linked, bounds it, and leaves the tail where the
      uncompacted append would put it. */
  lemma AppendKeepsMeaning(c: Chain, tr: Transition, now: int)
    requires Linked(c) && tr.prev == Tail(c)
    ensures var r := AppendAt(c, tr, now);
            && Linked(r) && |r.transitions| <= MAX_TRANSITIONS
            && Tail(r) == Tail(Extended(c, tr))
  {
    var at := if now == 0 then tr.createdAt else now;
    PrunedKeeps(c, at);
    ExtendedLinked(c, tr);
    ExtendedLinked(Pruned(c, at), tr);
    TruncatedKeeps(Extended(Pruned(c, at), tr));
  }

  lemma TruncatedIsSuffix(c: Chain)
    requires c.transitions != []
    ensures var kept := Truncated(c).transitions;
            1 <= |kept| <= |c.transitions| && kept == c.transitions[|c.transitions| - |kept|..]
  {}

  lemma SuffixOfAppend(trs: seq<Transition>, k: nat, tr: Transition, kept: nat)
    requires k <= |trs| && 1 <= kept <= |trs| - k + 1
    ensures (trs[k..] + [tr])[|trs| - k + 1 - kept..] == trs[|trs| + 1 - kept..] + [tr]
  {}

  lemma AppendIsSuffix(c: Chain, tr: Transition, now: int)
    ensures var kept := AppendAt(c, tr, now).transitions;
            1 <= |kept| <= |c.transitions| + 1 && kept == c.transitions[|c.transitions| + 1 - |kept|..] + [tr]
  {
    hide Truncated, Pruned;
    var at := if now == 0 then tr.createdAt else now;
    var k := PrunedIsSuffix(c, at);
    var e := Extended(Pruned(c, at), tr);
    TruncatedIsSuffix(e);
    SuffixOfAppend(c.transitions, k, tr, |Truncated(e).transitions|);
  }

  /** How many transitions an append leaves behind; the rest is kept in order. */
  function Dropped(c: Chain, tr: Transition, now: int): (k: nat)
    ensures k <= |c.transitions|
    ensures AppendAt(c, tr, now).transitions == c.transitions[k..] + [tr]
  {
    AppendIsSuffix(c, tr, now);
    |c.transitions| + 1 - |AppendAt(c, tr, now).transitions|
  }

  /** The tail a save would start from survives exactly when the append drops no unresolved
      transition, or keeps one as well. */
  lemma AppendKeepsSaveTail(c: Chain, tr: Transition, now: int)
    requires Linked(c) && tr.prev == Tail(c)
    ensures var k := Dropped(c, tr, now);
            SaveTail(AppendAt(c, tr, now)) == SaveTail(Extended(c, tr)) <==>
            (AnyUnresolved(c.transitions[..k]) ==> AnyUnresolved(c.transitions[k..] + [tr]))
  {
    var k, r, e := Dropped(c, tr, now), AppendAt(c, tr, now), Extended(c, tr);
    AppendKeepsMeaning(c, tr, now);
    ExtendedLinked(c, tr);
    SaveTailOfLinked(r.cursor, r.transitions);
    SaveTailOfLinked(e.cursor, e.transitions);
    assert e.transitions == c.transitions[..k] + r.transitions;
    UnresolvedSplits(c.transitions[..k], r.transitions);
  }

  /** How many transitions have expired: the longest run of applied transitions from the
      cursor on, each older than a day. */
  predicate ExpiredTo(c: Chain, k: nat, now: int) {
    && k <= |c.transitions|
    && (forall m | 0 <= m < k ::
          c.transitions[m].prev == Position(c, m) && c.transitions[m].phase.Applied? && Old(c.transitions[m], now))
    && (k < |c.transitions| ==>
          !(c.transitions[k].prev == Position(c, k) && c.transitions[k].phase.Applied? && Old(c.transitions[k], now)))
  }

  lemma {:induction false} PrunedExactly(c: Chain, now: int) returns (k: nat)
    ensures ExpiredTo(c, k, now) && Pruned(c, now) == Chain(Position(c, k), c.transitions[k..])
    decreases |c.transitions|
  {
    if Expired(c, now) {
      var d := Chain(c.transitions[0].next, c.transitions[1..]);
      var rest := PrunedExactly(d, now);
      k := rest + 1;
      assert forall m | 0 < m <= k :: Position(c, m) == Position(d, m - 1);
      assert forall m | 0 < m < |c.transitions| :: c.transitions[m] == d.transitions[m - 1];
    } else {
      k := 0;
      assert c.transitions[0..] == c.transitions;
    }
  }

  /** What an append gives up, exactly: the expired transitions, and of the others the oldest
      for as long as there are more than eleven with the new one. */
  lemma AppendDropsExactly(c: Chain, tr: Transition, now: int) returns (k: nat)
    ensures ExpiredTo(c, k, if now == 0 then tr.createdAt else now)
    ensures Dropped(c, tr, now) == if |c.transitions| - k <= 10 then k else |c.transitions| - 10
    ensures var r := AppendAt(c, tr, now);
            r.cursor == if |c.transitions| - k <= 10 then Position(c, k) else c.transitions[|c.transitions| - 10].prev
  {
    k := PrunedExactly(c, if now == 0 then tr.createdAt else now);
    hide ExpiredTo, Pruned;
  }

  lemma {:induction false} IdleLinked(current: Fingerprint, trs: seq<Transition>)
    requires forall n | 0 <= n < |trs| :: trs[n].prev == current && !trs[n].phase.Applied?
    ensures LinkedFrom(current, trs) && TailFrom(current, trs) == current
    decreases |trs|
  {
    if trs != [] { IdleLinked(current, trs[1..]); }
  }

  /** A full chain that begins with an unresolved transition loses it to the next append. */
  lemma AppendCanLoseUnresolved(f: Fingerprint, tr: Transition, now: int)
    requires tr.prev == f && !Unresolved(tr)
    ensures var idle := Transition(f, f, 0, Aborted, 0);
            var c := Chain(f, [idle.(phase := Planned)] + seq(10, _ => idle));
            Linked(c) && Tail(c) == f && SaveTail(Extended(c, tr)) == None && SaveTail(AppendAt(c, tr, now)).Some?
  {
    var idle := Transition(f, f, 0, Aborted, 0);
    var c := Chain(f, [idle.(phase := Planned)] + seq(10, _ => idle));
    IdleLinked(f, c.transitions);
    AppendKeepsMeaning(c, tr, now);
    ExtendedLinked(c, tr);
    var r, e := AppendAt(c, tr, now), Extended(c, tr);
    assert Pruned(c, if now == 0 then tr.createdAt else now) == c;
    assert r.transitions == seq(10, _ => idle) + [tr];
    SaveTailOfLinked(r.cursor, r.transitions);
    SaveTailOfLinked(e.cursor, e.transitions);
    assert Unresolved(e.transitions[0]);
  }

  lemma UnresolvedSplits(a: seq<Transition>, b: seq<Transition>)
    ensures AnyUnresolved(a + b) <==> AnyUnresolved(a) || AnyUnresolved(b)
  {
    if AnyUnresolved(b) {
      var n :| 0 <= n < |b| && Unresolved(b[n]);
      assert (a + b)[|a| + n] == b[n];
    }
    if AnyUnresolved(a) {
      var n :| 0 <= n < |a| && Unresolved(a[n]);
      assert (a + b)[n] == a[n];
    }
  }

  // ---- What an operator may resolve ----

  function PendingFrom(current: Fingerprint, trs: seq<Transition>): bool
    decreases |trs|
  {
    && trs != [] && trs[0].prev == current && !trs[0].phase.Aborted?
    && (Unresolved(trs[0]) || PendingFrom(trs[0].next, trs[1..]))
  }

  /** Whether an operator's decision about the chain is admitted. */
  method ChainUnresolved(c: Chain) returns (pending: bool)
    ensures pending <==> PendingFrom(c.cursor, c.transitions)
  {
    var current := c.cursor;
    var n := 0;
    while n < |c.transitions|
      invariant 0 <= n <= |c.transitions|
      invariant PendingFrom(current, c.transitions[n..]) == PendingFrom(c.cursor, c.transitions)
    {
      var tr := c.transitions[n];
      if tr.prev != current {
        return false;
      }
      match tr.phase {
        case Applied => current := tr.next;
        case Planned => return true;
        case OutcomeUnknown => return true;
        case Aborted => return false;
      }
      n := n + 1;
    }
    return false;
  }

  /** The operator is admitted exactly when some transition is unresolved and no aborted one
      stands before it. */
  lemma {:induction false} OperatorSeesBlockage(current: Fingerprint, trs: seq<Transition>)
    requires LinkedFrom(current, trs)
    ensures PendingFrom(current, trs) <==>
            exists n :: 0 <= n < |trs| && Unresolved(trs[n]) && forall m | 0 <= m < n :: !trs[m].phase.Aborted?
    ensures PendingFrom(current, trs) ==> SaveTailFrom(current, trs) == None
    decreases |trs|
  {
    if trs != [] && trs[0].phase.Applied? {
      OperatorSeesBlockage(trs[0].next, trs[1..]);
      if n :| 0 <= n < |trs| && Unresolved(trs[n]) && forall m | 0 <= m < n :: !trs[m].phase.Aborted? {
        assert Unresolved(trs[1..][n - 1]) && forall m | 0 <= m < n - 1 :: !trs[1..][m].phase.Aborted?;
      }
      if n :| 0 <= n < |trs[1..]| && Unresolved(trs[1..][n]) && forall m | 0 <= m < n :: !trs[1..][m].phase.Aborted? {
        assert Unresolved(trs[n + 1]);
        forall m | 0 <= m < n + 1 ensures !trs[m].phase.Aborted? { if m > 0 { assert trs[m] == trs[1..][m - 1]; } }
      }
    }
  }

  /** The first unresolved transition has an aborted one before it. */
  predicate BlockedBehindAborted(trs: seq<Transition>, n: nat) {
    && n < |trs| && Unresolved(trs[n]) && (forall m | 0 <= m < n :: !Unresolved(trs[m]))
    && exists m :: 0 <= m < n && trs[m].phase.Aborted?
  }

  /** Saves are blocked and the operator is refused all the same, exactly in that case. */
  lemma OperatorRefusedIff(current: Fingerprint, trs: seq<Transition>)
    requires LinkedFrom(current, trs)
    ensures SaveTailFrom(current, trs) == None && !PendingFrom(current, trs) <==>
            exists n: nat :: BlockedBehindAborted(trs, n)
  {
    SaveTailOfLinked(current, trs);
    OperatorSeesBlockage(current, trs);
    if AnyUnresolved(trs) {
      var n := FirstUnresolved(trs);
      if !PendingFrom(current, trs) {
        assert BlockedBehindAborted(trs, n);
      }
    }
  }

  lemma FirstUnresolved(trs: seq<Transition>) returns (n: nat)
    requires AnyUnresolved(trs)
    ensures n < |trs| && Unresolved(trs[n]) && forall m | 0 <= m < n :: !Unresolved(trs[m])
  {
    n := 0;
    while !Unresolved(trs[n])
      invariant n < |trs| && forall m | 0 <= m < n :: !Unresolved(trs[m])
      decreases |trs| - n
    {
      n := n + 1;
    }
  }

  // ---- Classifying what the host reports ----

  datatype Kind = Same | OwnedRotation | MetadataOnly | ExternalLogin | Ambiguous

  datatype Observation = Observation(kind: Kind, advance: nat)

  function Fallback(cursor: Fingerprint, observed: Fingerprint): Observation {
    if observed.subject == cursor.subject && observed.refresh == cursor.refresh
    then Observation(MetadataOnly, 0) else Observation(ExternalLogin, 0)
  }

  /** The walk of the classification from transition n on; `cursor` stays the chain's. */
  function WalkFrom(cursor: Fingerprint, current: Fingerprint, trs: seq<Transition>, n: nat,
                    observed: Fingerprint, now: int): Observation
    decreases |trs|
  {
    if trs == [] || trs[0].prev != current then Fallback(cursor, observed)
    else if Old(trs[0], now) then
      if observed == trs[0].next then Observation(Ambiguous, 0) else Fallback(cursor, observed)
    else match trs[0].phase
      case Applied =>
        if observed == trs[0].next then Observation(OwnedRotation, n + 1)
        else WalkFrom(cursor, trs[0].next, trs[1..], n + 1, observed, now)
      case Planned => if observed == trs[0].next then Observation(Ambiguous, 0) else Fallback(cursor, observed)
      case OutcomeUnknown => if observed == trs[0].next then Observation(Ambiguous, 0) else Fallback(cursor, observed)
      case Aborted => Fallback(cursor, observed)
  }

  function Classify(c: Chain, observed: Fingerprint, now: int): Observation {
    if observed == c.cursor then Observation(Same, 0)
    else WalkFrom(c.cursor, c.cursor, c.transitions, 0, observed, now)
  }

  method ComputeClassify(c: Chain, observed: Fingerprint, now: int) returns (o: Observation)
    ensures o == Classify(c, observed, now)
  {
    if observed == c.cursor {
      return Observation(Same, 0);
    }
    var current := c.cursor;
    var n := 0;
    while n < |c.transitions|
      invariant 0 <= n <= |c.transitions|
      invariant WalkFrom(c.cursor, current, c.transitions[n..], n, observed, now) == Classify(c, observed, now)
    {
      var tr := c.transitions[n];
      assert c.transitions[n..][0] == tr && c.transitions[n..][1..] == c.transitions[n + 1..];
      if tr.prev != current {
        break;
      }
      if tr.createdAt != 0 && now - tr.createdAt > DAY {
        if observed == tr.next {
          return Observation(Ambiguous, 0);
        }
        break;
      }
      if tr.phase.Applied? {
        current := tr.next;
        if observed == current {
          return Observation(OwnedRotation, n + 1);
        }
      } else if Unresolved(tr) && observed == tr.next {
        return Observation(Ambiguous, 0);
      }
      if !tr.phase.Applied? {
        break;
      }
      n := n + 1;
    }
    return Fallback(c.cursor, observed);
  }

  // ---- What a classification means ----

  /** The first n transitions follow each other from the cursor, all applied and none older
      than a day. */
  predicate ClearTo(c: Chain, n: nat, now: int) {
    && n <= |c.transitions|
    && forall m | 0 <= m < n ::
         c.transitions[m].prev == Position(c, m) && c.transitions[m].phase.Applied? && !Old(c.transitions[m], now)
  }

  predicate NotMetBefore(c: Chain, n: nat, observed: Fingerprint)
    requires n <= |c.transitions|
  {
    forall m | 0 <= m < n :: c.transitions[m].next != observed
  }

  /** The host holds what the n-th transition made of the credential, and the way is clear. */
  predicate OwnedAt(c: Chain, n: nat, observed: Fingerprint, now: int) {
    n < |c.transitions| && ClearTo(c, n + 1, now) && c.transitions[n].next == observed && NotMetBefore(c, n, observed)
  }

  /** The way is clear up to a transition to what the host holds, but that one is too old or
      was never resolved. */
  predicate DoubtAt(c: Chain, n: nat, observed: Fingerprint, now: int) {
    && n < |c.transitions| && ClearTo(c, n, now) && c.transitions[n].prev == Position(c, n)
    && c.transitions[n].next == observed && NotMetBefore(c, n, observed)
    && (Old(c.transitions[n], now) || Unresolved(c.transitions[n]))
  }

  /** The walk from transition n on, told without walking. */
  ghost predicate Explains(c: Chain, n: nat, observed: Fingerprint, now: int, o: Observation) {
    && (o.kind.OwnedRotation? <==> exists k :: n <= k && OwnedAt(c, k, observed, now))
    && (o.kind.OwnedRotation? ==> n < o.advance && OwnedAt(c, o.advance - 1, observed, now))
    && (o.kind.Ambiguous? <==> exists k :: n <= k && DoubtAt(c, k, observed, now))
    && !o.kind.Same?
    && (o.kind.MetadataOnly? ==> observed.subject == c.cursor.subject && observed.refresh == c.cursor.refresh)
    && (o.kind.ExternalLogin? ==> observed.subject != c.cursor.subject || observed.refresh != c.cursor.refresh)
  }

  lemma ClearNext(c: Chain, n: nat, now: int)
    requires ClearTo(c, n, now) && n < |c.transitions|
    ensures var tr := c.transitions[n];
            ClearTo(c, n + 1, now) <==> tr.prev == Position(c, n) && tr.phase.Applied? && !Old(tr, now)
  {}

  lemma ClearPrefix(c: Chain, n: nat, k: nat, now: int)
    requires n <= k
    ensures ClearTo(c, k, now) ==> ClearTo(c, n, now)
  {}

  /** Where the walk stops nothing further can be reached. */
  lemma StopsAt(c: Chain, n: nat, observed: Fingerprint, now: int, k: nat)
    requires n <= |c.transitions| && !ClearTo(c, n + 1, now) && n <= k
    ensures !OwnedAt(c, k, observed, now)
    ensures k > n ==> !DoubtAt(c, k, observed, now)
  {
    ClearPrefix(c, n + 1, k + 1, now);
    if k > n { ClearPrefix(c, n + 1, k, now); }
    hide ClearTo, NotMetBefore;
  }

  lemma FoundExplains(c: Chain, n: nat, observed: Fingerprint, now: int)
    requires OwnedAt(c, n, observed, now)
    ensures Explains(c, n, observed, now, Observation(OwnedRotation, n + 1))
  {
    forall k | n <= k ensures !DoubtAt(c, k, observed, now) {
      if k > n && k < |c.transitions| { assert !NotMetBefore(c, k, observed); }
    }
    hide OwnedAt, DoubtAt;
  }

  lemma PassedExplains(c: Chain, n: nat, observed: Fingerprint, now: int, o: Observation)
    requires n < |c.transitions| && c.transitions[n].next != observed && Explains(c, n + 1, observed, now, o)
    ensures Explains(c, n, observed, now, o)
  {
    assert !OwnedAt(c, n, observed, now) && !DoubtAt(c, n, observed, now);
    hide OwnedAt, DoubtAt;
  }

  lemma StoppedExplains(c: Chain, n: nat, observed: Fingerprint, now: int, o: Observation)
    requires n <= |c.transitions| && !ClearTo(c, n + 1, now)
    requires o == if DoubtAt(c, n, observed, now) then Observation(Ambiguous, 0) else Fallback(c.cursor, observed)
    ensures Explains(c, n, observed, now, o)
  {
    forall k | n <= k ensures !OwnedAt(c, k, observed, now) && (k > n ==> !DoubtAt(c, k, observed, now)) {
      StopsAt(c, n, observed, now, k);
    }
    hide OwnedAt, DoubtAt;
  }

  lemma {:induction false} WalkExplains(c: Chain, n: nat, observed: Fingerprint, now: int)
    requires n <= |c.transitions| && ClearTo(c, n, now) && NotMetBefore(c, n, observed)
    ensures Explains(c, n, observed, now, WalkFrom(c.cursor, Position(c, n), c.transitions[n..], n, observed, now))
    decreases |c.transitions| - n
  {
    hide Explains;
    var rest := c.transitions[n..];
    var o := WalkFrom(c.cursor, Position(c, n), rest, n, observed, now);
    if n == |c.transitions| {
      StoppedExplains(c, n, observed, now, o);
    } else {
      var tr := c.transitions[n];
      assert rest[0] == tr && rest[1..] == c.transitions[n + 1..];
      ClearNext(c, n, now);
      if !ClearTo(c, n + 1, now) {
        assert o == if DoubtAt(c, n, observed, now) then Observation(Ambiguous, 0) else Fallback(c.cursor, observed);
        StoppedExplains(c, n, observed, now, o);
      } else if tr.next == observed {
        FoundExplains(c, n, observed, now);
      } else {
        WalkExplains(c, n + 1, observed, now);
        PassedExplains(c, n, observed, now, o);
      }
    }
  }

  /** The exact meaning of every classification, for every chain and whatever the host
      reports: the same; one of our own saves, told which; in doubt; and otherwise new
      metadata if and only if both the subject and the refresh token are the cursor's. */
  lemma ClassifyExactly(c: Chain, observed: Fingerprint, now: int)
    ensures var o := Classify(c, observed, now);
            && (o.kind.Same? <==> observed == c.cursor)
            && (o.kind.OwnedRotation? <==> observed != c.cursor && exists n :: OwnedAt(c, n, observed, now))
            && (o.kind.OwnedRotation? ==> o.advance > 0 && OwnedAt(c, o.advance - 1, observed, now))
            && (o.kind.Ambiguous? <==> observed != c.cursor && exists n :: DoubtAt(c, n, observed, now))
            && (!o.kind.Same? && !o.kind.OwnedRotation? && !o.kind.Ambiguous? ==>
                  if observed.subject == c.cursor.subject && observed.refresh == c.cursor.refresh
                  then o.kind.MetadataOnly? else o.kind.ExternalLogin?)
  {
    WalkExplains(c, 0, observed, now);
    assert c.transitions[0..] == c.transitions;
  }
}
