/** Credential saves behind a write-ahead transition chain, and the reconciliation that
    brings the chain back in step with the host after a crash.

    One instance is modelled. The world is what survives a crash: the durable chain and the
    credential the host holds. A save may be cut short at any point. */
module CredentialRecovery {
  import opened Basics
  import opened Identity

  datatype World = World(chain: Chain, host: Fingerprint, lastSeq: nat, used: set<Fingerprint>)

  /** How far a save came. Short of the terminal write the transition stays planned,
      whether the process died or the write failed. */
  datatype Outcome =
    | NothingDurable
    | OnlyPlanned(written: bool)
    | Success
    | Unclear(written: bool)
    | Rejected

  datatype Op =
    | Save(next: Fingerprint, now: int, outcome: Outcome)
    | Reconcile(now: int)
    | RolledBack                // a reconcile whose last hook failed

  // ---- Saving ----

  function SetPhase(trs: seq<Transition>, saveSeq: nat, phase: Phase): seq<Transition> {
    seq(|trs|, n requires 0 <= n < |trs| => if trs[n].saveSeq == saveSeq then trs[n].(phase := phase) else trs[n])
  }

  function PlannedChain(w: World, tail: Fingerprint, next: Fingerprint, now: int): Chain {
    AppendAt(w.chain, Transition(tail, next, w.lastSeq + 1, Planned, now), now)
  }

  predicate Written(outcome: Outcome) {
    outcome.Success? || (outcome.OnlyPlanned? && outcome.written) || (outcome.Unclear? && outcome.written)
  }

  function Terminal(outcome: Outcome): Phase {
    match outcome
    case Success => Applied
    case Unclear(_) => OutcomeUnknown
    case Rejected => Aborted
    case _ => Planned
  }

  function Saved(w: World, next: Fingerprint, now: int, outcome: Outcome): World {
    match SaveTail(w.chain)
    case None => w
    case Some(tail) =>
      if outcome.NothingDurable? then w
      else
        var planned := PlannedChain(w, tail, next, now);
        World(planned.(transitions := SetPhase(planned.transitions, w.lastSeq + 1, Terminal(outcome))),
              if Written(outcome) then next else w.host, w.lastSeq + 1, w.used + {next})
  }

  // ---- Reconciling ----

  datatype Report = Report(ambiguous: bool, phase: Option<Phase>, observation: Observation)

  function Strip(c: Chain): Chain
    decreases |c.transitions|
  {
    if c.transitions != [] && c.transitions[0].prev == c.cursor && c.transitions[0].phase.Aborted?
    then Strip(c.(transitions := c.transitions[1..])) else c
  }

  function LastOf(trs: seq<Transition>): Transition
    requires trs != []
  {
    trs[|trs| - 1]
  }

  predicate Dangling(c: Chain) {
    c.transitions != [] && Unresolved(LastOf(c.transitions))
  }

  /** The chain with its last transition settled by what the host holds. */
  function Settled(c: Chain, observed: Fingerprint): Chain {
    if !Dangling(c) then c
    else
      var n := |c.transitions| - 1;
      if observed == c.transitions[n].next
      then c.(transitions := c.transitions[n := c.transitions[n].(phase := Applied)])
      else c.(transitions := c.transitions[n := c.transitions[n].(phase := Aborted)])
  }

  predicate Stuck(c: Chain, observed: Fingerprint) {
    Dangling(c) && observed != LastOf(c.transitions).next && observed != LastOf(c.transitions).prev
  }

  function Adopt(c: Chain, observed: Fingerprint, o: Observation): Chain {
    if o.kind.OwnedRotation? && o.advance <= |c.transitions| then Chain(observed, c.transitions[o.advance..])
    else if o.kind.ExternalLogin? then Chain(observed, [])
    else c
  }

  function ReportFor(c: Chain, observed: Fingerprint, now: int): Report {
    var phase := if c.transitions == [] then None else Some(LastOf(Settled(c, observed).transitions).phase);
    if Stuck(c, observed) then Report(true, Some(LastOf(c.transitions).phase), Observation(Same, 0))
    else Report(false, phase, Classify(Settled(c, observed), observed, now))
  }

  function ReconciledChain(c: Chain, observed: Fingerprint, now: int): Chain {
    if Stuck(c, observed) then c
    else Strip(Adopt(Settled(c, observed), observed, Classify(Settled(c, observed), observed, now)))
  }

  function Reconciled(w: World, now: int): World {
    w.(chain := ReconciledChain(w.chain, w.host, now))
  }

  /** The last transition is settled in place before the state to roll back to is copied, so
      a rolled-back reconcile leaves it settled. */
  function Undone(w: World): World {
    if Stuck(w.chain, w.host) then w else w.(chain := Settled(w.chain, w.host))
  }

  // ---- What a reconcile does, on any chain ----

  lemma {:induction false} StripExactly(c: Chain) returns (k: nat)
    ensures k <= |c.transitions| && Strip(c) == Chain(c.cursor, c.transitions[k..])
    ensures forall m | 0 <= m < k :: c.transitions[m].prev == c.cursor && c.transitions[m].phase.Aborted?
    ensures k < |c.transitions| ==> !(c.transitions[k].prev == c.cursor && c.transitions[k].phase.Aborted?)
    decreases |c.transitions|
  {
    if c.transitions != [] && c.transitions[0].prev == c.cursor && c.transitions[0].phase.Aborted? {
      var d := c.(transitions := c.transitions[1..]);
      var rest := StripExactly(d);
      k := rest + 1;
      assert forall m | 0 < m < |c.transitions| :: c.transitions[m] == d.transitions[m - 1];
    } else {
      k := 0;
      assert c.transitions[0..] == c.transitions;
    }
  }

  /** Only an open last transition is settled: as applied exactly when the host holds its
      target, and otherwise, the host holding its start, as aborted. */
  lemma SettledExactly(c: Chain, observed: Fingerprint)
    requires !Stuck(c, observed)
    ensures var d, n := Settled(c, observed), |c.transitions| - 1;
            && d.cursor == c.cursor && |d.transitions| == |c.transitions|
            && (forall m | 0 <= m < n :: d.transitions[m] == c.transitions[m])
            && (n >= 0 && !Unresolved(c.transitions[n]) ==> d.transitions[n] == c.transitions[n])
            && (n >= 0 && Unresolved(c.transitions[n]) ==>
                  && (observed == c.transitions[n].next || observed == c.transitions[n].prev)
                  && d.transitions[n] == c.transitions[n].(phase :=
                       if observed == c.transitions[n].next then Applied else Aborted))
  {}

  /** The chain c without its first `from` transitions, and without the aborted ones that then
      stand at the front; the first k are gone in all. */
  predicate CutTo(d: Chain, from: nat, k: nat, u: Chain) {
    && from <= k <= |d.transitions| && u.transitions == d.transitions[k..]
    && (forall m | from <= m < k :: d.transitions[m].prev == u.cursor && d.transitions[m].phase.Aborted?)
    && (k < |d.transitions| ==> !(d.transitions[k].prev == u.cursor && d.transitions[k].phase.Aborted?))
  }

  lemma StripCuts(d: Chain, cursor: Fingerprint, from: nat) returns (k: nat)
    requires from <= |d.transitions|
    ensures var u := Strip(Chain(cursor, d.transitions[from..])); u.cursor == cursor && CutTo(d, from, k, u)
  {
    var a := Chain(cursor, d.transitions[from..]);
    var rest := StripExactly(a);
    hide Strip;
    k := from + rest;
    assert a.transitions[rest..] == d.transitions[k..];
    assert k < |d.transitions| ==> d.transitions[k] == a.transitions[rest];
    forall m | from <= m < k ensures d.transitions[m].prev == cursor && d.transitions[m].phase.Aborted? {
      assert d.transitions[m] == a.transitions[m - from];
    }
  }

  /** A reconcile that can decide ends as its report says: an external login starts over at
      the host's credential; an own rotation moves the cursor there and keeps what follows it;
      anything else leaves the cursor. Aborted transitions at the front go, and no others. */
  lemma ReconciledExactly(c: Chain, observed: Fingerprint, now: int) returns (k: nat)
    requires !Stuck(c, observed)
    ensures var d, u := Settled(c, observed), ReconciledChain(c, observed, now);
            var o := ReportFor(c, observed, now).observation;
            && (o.kind.ExternalLogin? ==> u == Chain(observed, []))
            && (o.kind.OwnedRotation? ==> u.cursor == observed && CutTo(d, o.advance, k, u))
            && (!o.kind.ExternalLogin? && !o.kind.OwnedRotation? ==> u.cursor == c.cursor && CutTo(d, 0, k, u))
  {
    var d, o := Settled(c, observed), Classify(Settled(c, observed), observed, now);
    assert ReportFor(c, observed, now).observation == o;
    assert ReconciledChain(c, observed, now) == Strip(Adopt(d, observed, o));
    assert d.cursor == c.cursor by { SettledExactly(c, observed); }
    assert o.kind.OwnedRotation? ==> o.advance <= |d.transitions| by { ClassifyExactly(d, observed, now); }
    hide Settled, Stuck, Classify, ReconciledChain, ReportFor, CutTo;
    if o.kind.ExternalLogin? {
      k := 0;
    } else if o.kind.OwnedRotation? {
      k := StripCuts(d, observed, o.advance);
    } else {
      assert d.transitions[0..] == d.transitions;
      k := StripCuts(d, d.cursor, 0);
    }
  }

  /** One that cannot decide, the host holding neither end of an open last transition, says
      so and changes nothing. */
  lemma StuckChangesNothing(c: Chain, observed: Fingerprint, now: int)
    ensures ReportFor(c, observed, now).ambiguous <==>
            c.transitions != [] && var tr := c.transitions[|c.transitions| - 1];
              Unresolved(tr) && observed != tr.next && observed != tr.prev
    ensures ReportFor(c, observed, now).ambiguous ==> ReconciledChain(c, observed, now) == c
  {}

  // ---- Runs ----

  predicate Enabled(w: World, op: Op) {
    op.Save? ==> op.next !in w.used
  }

  function Step(w: World, op: Op): World {
    match op
    case Save(next, now, outcome) => Saved(w, next, now, outcome)
    case Reconcile(now) => Reconciled(w, now)
    case RolledBack => Undone(w)
  }

  predicate Admissible(w: World, ops: seq<Op>)
    decreases |ops|
  {
    ops == [] || (Enabled(w, ops[0]) && Admissible(Step(w, ops[0]), ops[1..]))
  }

  function Exec(w: World, ops: seq<Op>): World
    requires Admissible(w, ops)
    decreases |ops|
  {
    if ops == [] then w else Exec(Step(w, ops[0]), ops[1..])
  }

  function Start(f: Fingerprint): World {
    World(Chain(f, []), f, 0, {f})
  }

  // ---- What every run keeps ----

  /** No fingerprint is reached twice. */
  predicate DistinctFrom(cursor: Fingerprint, trs: seq<Transition>) {
    && (forall n | 0 <= n < |trs| :: trs[n].next != cursor)
    && (forall m, n | 0 <= m < n < |trs| :: trs[m].next != trs[n].next)
  }

  predicate ResolvedButLast(trs: seq<Transition>) {
    forall n | 0 <= n < |trs| - 1 :: !Unresolved(trs[n])
  }

  predicate Bounded(w: World) {
    && w.chain.cursor in w.used && w.host in w.used
    && (forall n | 0 <= n < |w.chain.transitions| ::
          w.chain.transitions[n].next in w.used && w.chain.transitions[n].saveSeq <= w.lastSeq)
  }

  /** The host holds the tail, or what a dangling last transition would make of it. */
  predicate InStep(c: Chain, host: Fingerprint) {
    host == Tail(c) || (Dangling(c) && host == LastOf(c.transitions).next)
  }

  predicate Inv(w: World) {
    && Linked(w.chain) && DistinctFrom(w.chain.cursor, w.chain.transitions) && ResolvedButLast(w.chain.transitions)
    && Bounded(w) && InStep(w.chain, w.host)
  }

  // ---- Facts about linked chains ----

  lemma {:induction false} TailIsStartOrNext(current: Fingerprint, trs: seq<Transition>)
    ensures TailFrom(current, trs) == current || exists n :: 0 <= n < |trs| && TailFrom(current, trs) == trs[n].next
    decreases |trs|
  {
    if trs != [] && trs[0].prev == current {
      TailIsStartOrNext(After(current, trs[0]), trs[1..]);
      var rest := TailFrom(After(current, trs[0]), trs[1..]);
      if rest != current && rest != trs[0].next {
        var n :| 0 <= n < |trs[1..]| && rest == trs[1..][n].next;
        assert rest == trs[n + 1].next;
      }
    }
  }

  lemma CutAt(c: Chain, k: nat)
    requires Linked(c) && k < |c.transitions|
    ensures c.transitions[k].prev == TailFrom(c.cursor, c.transitions[..k])
    ensures LinkedFrom(c.transitions[k].prev, c.transitions[k..])
    ensures TailFrom(c.transitions[k].prev, c.transitions[k..]) == Tail(c)
  {
    var a, b := c.transitions[..k], c.transitions[k..];
    assert c.transitions == a + b;
    LinkedPrefix(c.cursor, a, b);
    WalkSplits(c.cursor, a, b);
  }

  /** A chain may be cut at any transition and keeps its fingerprints distinct. */
  lemma CutDistinct(c: Chain, k: nat)
    requires Linked(c) && k < |c.transitions| && DistinctFrom(c.cursor, c.transitions)
    ensures DistinctFrom(c.transitions[k].prev, c.transitions[k..])
  {
    CutAt(c, k);
    TailIsStartOrNext(c.cursor, c.transitions[..k]);
  }

  lemma SingleStep(tr: Transition)
    ensures TailFrom(tr.prev, [tr]) == After(tr.prev, tr)
    ensures forall current :: LinkedFrom(current, [tr]) <==> current == tr.prev
  {}

  lemma LastPhase(c: Chain, phase: Phase)
    requires Linked(c) && c.transitions != []
    ensures var n := |c.transitions| - 1;
            var d := c.(transitions := c.transitions[n := c.transitions[n].(phase := phase)]);
            Linked(d) && Tail(d) == After(c.transitions[n].prev, d.transitions[n])
  {
    var n := |c.transitions| - 1;
    var was, tr := c.transitions[n], c.transitions[n].(phase := phase);
    var a := c.transitions[..n];
    assert c.transitions == a + [was];
    assert c.transitions[n := tr] == a + [tr];
    SingleStep(was);
    SingleStep(tr);
    hide TailFrom, LinkedFrom, After;
    LinkedPrefix(c.cursor, a, [was]);
    WalkSplits(c.cursor, a, [was]);
    WalkSplits(c.cursor, a, [tr]);
  }

  // ---- Saves keep the invariant ----

  lemma ExtendedDistinct(w: World, tr: Transition)
    requires Inv(w) && tr.next !in w.used
    ensures DistinctFrom(w.chain.cursor, (w.chain.transitions + [tr]))
  {}

  lemma PlannedIsCut(w: World, tr: Transition, now: int)
    requires Inv(w) && !Dangling(w.chain) && tr.next !in w.used && tr.prev == Tail(w.chain)
    ensures var r := AppendAt(w.chain, tr, now);
            && Linked(r) && DistinctFrom(r.cursor, r.transitions) && (r.cursor == w.chain.cursor || r.cursor in w.used)
            && r.transitions != [] && LastOf(r.transitions) == tr
  {
    var e, r, k := Extended(w.chain, tr), AppendAt(w.chain, tr, now), Dropped(w.chain, tr, now);
    AppendKeepsMeaning(w.chain, tr, now);
    ExtendedLinked(w.chain, tr);
    ExtendedDistinct(w, tr);
    assert r.transitions == e.transitions[k..];
    CutAt(e, k);
    CutDistinct(e, k);
    assert r.transitions[0] == e.transitions[k];
    assert r.cursor == e.transitions[k].prev;
    TailIsStartOrNext(e.cursor, e.transitions[..k]);
    assert e.transitions[..k] == w.chain.transitions[..k];
  }

  lemma SetPhaseOfLast(before: seq<Transition>, k: nat, tr: Transition, phase: Phase)
    requires k <= |before| && forall n | 0 <= n < |before| :: before[n].saveSeq < tr.saveSeq
    ensures var trs := before[k..] + [tr];
            SetPhase(trs, tr.saveSeq, phase) == trs[|trs| - 1 := tr.(phase := phase)]
  {}

  function WithLast(c: Chain, phase: Phase): Chain
    requires c.transitions != []
  {
    c.(transitions := c.transitions[|c.transitions| - 1 := LastOf(c.transitions).(phase := phase)])
  }

  lemma WithLastInStep(c: Chain, phase: Phase, host: Fingerprint)
    requires Linked(c) && c.transitions != []
    requires if phase.Applied? then host == LastOf(c.transitions).next
             else host == LastOf(c.transitions).prev || (!phase.Aborted? && host == LastOf(c.transitions).next)
    ensures Linked(WithLast(c, phase)) && InStep(WithLast(c, phase), host)
  {
    LastPhase(c, phase);
  }

  lemma PlannedForm(w: World, next: Fingerprint, now: int)
    requires Inv(w) && next !in w.used && SaveTail(w.chain).Some?
    ensures var tr := Transition(Tail(w.chain), next, w.lastSeq + 1, Planned, now);
            var planned := AppendAt(w.chain, tr, now);
            && SaveTail(w.chain) == Some(w.host) && w.host == Tail(w.chain)
            && Linked(planned) && DistinctFrom(planned.cursor, planned.transitions) && planned.cursor in w.used
            && planned.transitions == w.chain.transitions[Dropped(w.chain, tr, now)..] + [tr]
  {
    SaveTailOfLinked(w.chain.cursor, w.chain.transitions);
    assert !Dangling(w.chain);
    var tr := Transition(Tail(w.chain), next, w.lastSeq + 1, Planned, now);
    PlannedIsCut(w, tr, now);
    hide LinkedFrom, TailFrom, SaveTailFrom, DistinctFrom, ResolvedButLast;
  }

  lemma SavedForm(w: World, next: Fingerprint, now: int, outcome: Outcome)
    requires Inv(w) && next !in w.used && SaveTail(w.chain).Some? && !outcome.NothingDurable?
    ensures var tr := Transition(Tail(w.chain), next, w.lastSeq + 1, Planned, now);
            var planned := AppendAt(w.chain, tr, now);
            && w.host == Tail(w.chain)
            && Linked(planned) && DistinctFrom(planned.cursor, planned.transitions) && planned.cursor in w.used
            && planned.transitions == w.chain.transitions[Dropped(w.chain, tr, now)..] + [tr]
            && Saved(w, next, now, outcome) == World(WithLast(planned, Terminal(outcome)),
                 if Written(outcome) then next else w.host, w.lastSeq + 1, w.used + {next})
  {
    PlannedForm(w, next, now);
    assert Bounded(w);
    hide LinkedFrom, TailFrom, SaveTailFrom, DistinctFrom, AppendAt, Dropped, Inv, SetPhase;
    var tr := Transition(Tail(w.chain), next, w.lastSeq + 1, Planned, now);
    SetPhaseOfLast(w.chain.transitions, Dropped(w.chain, tr, now), tr, Terminal(outcome));
  }

  /** A chain cut anywhere and extended by a fresh transition, whatever became of it. */
  lemma AppendedInv(w: World, k: nat, tr: Transition, cursor: Fingerprint, phase: Phase, host: Fingerprint)
    requires Bounded(w) && k <= |w.chain.transitions| && cursor in w.used && host in w.used + {tr.next}
    requires forall n | 0 <= n < |w.chain.transitions| :: !Unresolved(w.chain.transitions[n])
    requires tr.saveSeq == w.lastSeq + 1
    requires var planned := Chain(cursor, w.chain.transitions[k..] + [tr]);
             Linked(planned) && DistinctFrom(cursor, planned.transitions)
             && InStep(WithLast(planned, phase), host) && Linked(WithLast(planned, phase))
    ensures var planned := Chain(cursor, w.chain.transitions[k..] + [tr]);
            Inv(World(WithLast(planned, phase), host, w.lastSeq + 1, w.used + {tr.next}))
  {
    hide LinkedFrom, TailFrom, InStep;
  }

  lemma SavedStepInv(w: World, next: Fingerprint, now: int, outcome: Outcome)
    requires Inv(w) && next !in w.used && SaveTail(w.chain).Some? && !outcome.NothingDurable?
    ensures Inv(Saved(w, next, now, outcome))
  {
    SavedForm(w, next, now, outcome);
    SavedNoUnresolved(w, 0);
    assert Bounded(w);
    hide Saved, LinkedFrom, TailFrom, SaveTailFrom, AppendAt, DistinctFrom, Inv, InStep, Dropped;
    var tr := Transition(Tail(w.chain), next, w.lastSeq + 1, Planned, now);
    var planned, host := AppendAt(w.chain, tr, now), if Written(outcome) then next else w.host;
    WithLastInStep(planned, Terminal(outcome), host);
    AppendedInv(w, Dropped(w.chain, tr, now), tr, planned.cursor, Terminal(outcome), host);
  }

  lemma SavedInv(w: World, next: Fingerprint, now: int, outcome: Outcome)
    requires Inv(w) && next !in w.used
    ensures Inv(Saved(w, next, now, outcome))
  {
    hide Inv;
    if SaveTail(w.chain).Some? && !outcome.NothingDurable? { SavedStepInv(w, next, now, outcome); }
  }

  lemma SavedNoUnresolved(w: World, k: nat)
    requires SaveTail(w.chain).Some? && Linked(w.chain) && k <= |w.chain.transitions|
    ensures forall n | k <= n < |w.chain.transitions| :: !Unresolved(w.chain.transitions[n])
  {
    SaveTailOfLinked(w.chain.cursor, w.chain.transitions);
  }

  // ---- Reconciling keeps the invariant ----

  /** All transitions are decided and the tail is the host's fingerprint. */
  predicate Quiet(c: Chain, host: Fingerprint) {
    && Linked(c) && DistinctFrom(c.cursor, c.transitions) && Tail(c) == host
    && (forall n | 0 <= n < |c.transitions| :: !Unresolved(c.transitions[n]))
  }

  lemma SettledQuiet(w: World)
    requires Inv(w)
    ensures !Stuck(w.chain, w.host) && Quiet(Settled(w.chain, w.host), w.host)
  {
    var c := w.chain;
    if Dangling(c) {
      var n := |c.transitions| - 1;
      CutAt(c, n);
      assert c.transitions[n..] == [c.transitions[n]];
      LastPhase(c, if w.host == c.transitions[n].next then Applied else Aborted);
    }
  }

  lemma {:induction false} StripKeeps(c: Chain, host: Fingerprint) returns (k: nat)
    requires Quiet(c, host)
    ensures Quiet(Strip(c), host) && Strip(c).cursor == c.cursor
    ensures k <= |c.transitions| && Strip(c).transitions == c.transitions[k..]
    decreases |c.transitions|
  {
    if c.transitions != [] && c.transitions[0].prev == c.cursor && c.transitions[0].phase.Aborted? {
      var rest := StripKeeps(c.(transitions := c.transitions[1..]), host);
      k := rest + 1;
    } else {
      k := 0;
    }
  }

  /** A decided chain whose tail is its own cursor holds nothing but aborted transitions. */
  lemma {:induction false} StripEmpties(c: Chain)
    requires Quiet(c, c.cursor)
    ensures Strip(c) == Chain(c.cursor, [])
    decreases |c.transitions|
  {
    if c.transitions != [] {
      var tr := c.transitions[0];
      if tr.phase.Applied? {
        TailIsStartOrNext(tr.next, c.transitions[1..]);
      }
      StripEmpties(c.(transitions := c.transitions[1..]));
    }
  }

  // ---- Exactly when a reconcile recognises the plugin's own work ----

  /** Transition k - 1 led to the host's fingerprint, and up to it none was aborted or has
      grown older than a day. */
  predicate ReachedBy(trs: seq<Transition>, k: nat, host: Fingerprint, now: int) {
    && 0 < k <= |trs| && trs[k - 1].next == host
    && forall n | 0 <= n < k :: !trs[n].phase.Aborted? && !Old(trs[n], now)
  }

  ghost predicate Recoverable(c: Chain, host: Fingerprint, now: int) {
    host == c.cursor || exists k :: ReachedBy(c.transitions, k, host, now)
  }

  lemma {:induction false} WalkReaches(cursor: Fingerprint, current: Fingerprint, trs: seq<Transition>, n: nat,
                                       host: Fingerprint, now: int, k: nat)
    requires LinkedFrom(current, trs) && (forall m | 0 <= m < |trs| :: !Unresolved(trs[m]))
    requires forall a, b | 0 <= a < b < |trs| :: trs[a].next != trs[b].next
    requires ReachedBy(trs, k, host, now)
    ensures WalkFrom(cursor, current, trs, n, host, now) == Observation(OwnedRotation, n + k)
    decreases |trs|
  {
    if k > 1 {
      assert trs[0].next != trs[k - 1].next;
      assert ReachedBy(trs[1..], k - 1, host, now);
      WalkReaches(cursor, trs[0].next, trs[1..], n + 1, host, now, k - 1);
    }
  }

  lemma {:induction false} WalkOwned(cursor: Fingerprint, current: Fingerprint, trs: seq<Transition>, n: nat,
                                     host: Fingerprint, now: int)
    ensures var o := WalkFrom(cursor, current, trs, n, host, now);
            !o.kind.Same? && (o.kind.OwnedRotation? ==> o.advance > n && ReachedBy(trs, o.advance - n, host, now))
    decreases |trs|
  {
    if trs != [] && trs[0].prev == current && !Old(trs[0], now) && trs[0].phase.Applied? && host != trs[0].next {
      WalkOwned(cursor, trs[0].next, trs[1..], n + 1, host, now);
      var o := WalkFrom(cursor, trs[0].next, trs[1..], n + 1, host, now);
      if o.kind.OwnedRotation? {
        var k := o.advance - n;
        forall m | 0 <= m < k ensures !trs[m].phase.Aborted? && !Old(trs[m], now) {
          if m > 0 { assert trs[m] == trs[1..][m - 1]; }
        }
      }
    }
  }

  /** A decided chain is recognised exactly when the host is reachable; then nothing is left over. */
  lemma QuietRecovers(c: Chain, host: Fingerprint, now: int)
    requires Quiet(c, host)
    ensures var o := Classify(c, host, now);
            && (o.kind.Same? || o.kind.OwnedRotation? <==> Recoverable(c, host, now))
            && (o.kind.Same? <==> host == c.cursor)
            && (Recoverable(c, host, now) ==> Strip(Adopt(c, host, o)) == Chain(host, []))
  {
    var o := Classify(c, host, now);
    if host == c.cursor {
      StripEmpties(c);
    } else {
      WalkOwned(c.cursor, c.cursor, c.transitions, 0, host, now);
      if k: nat :| ReachedBy(c.transitions, k, host, now) {
        WalkReaches(c.cursor, c.cursor, c.transitions, 0, host, now, k);
        RestEmpties(c, host, k);
      }
    }
  }

  lemma RestEmpties(c: Chain, host: Fingerprint, k: nat)
    requires Quiet(c, host) && 0 < k <= |c.transitions| && c.transitions[k - 1].next == host
    ensures Strip(Chain(host, c.transitions[k..])) == Chain(host, [])
  {
    if k < |c.transitions| {
      CutAt(c, k);
      CutDistinct(c, k);
      TailIsStartOrNext(c.transitions[k].prev, c.transitions[k..]);
      assert c.transitions[k].prev == host;
      StripEmpties(Chain(host, c.transitions[k..]));
    }
  }

  /** Settling the last transition decides nothing about reachability. */
  lemma SettledRecoverable(w: World, now: int)
    requires Inv(w)
    ensures Recoverable(Settled(w.chain, w.host), w.host, now) <==> Recoverable(w.chain, w.host, now)
  {
    var c, d, h := w.chain, Settled(w.chain, w.host), w.host;
    SettledQuiet(w);
    forall k: nat ensures ReachedBy(d.transitions, k, h, now) <==> ReachedBy(c.transitions, k, h, now) {
      assert |d.transitions| == |c.transitions|;
      assert forall n | 0 <= n < |c.transitions| - 1 :: d.transitions[n] == c.transitions[n];
      if Dangling(c) && k == |c.transitions| {
        assert d.transitions[k - 1].next == c.transitions[k - 1].next;
      }
    }
  }

  /** In step with the host, a reconcile is never ambiguous. It takes the host's credential
      for the plugin's own work exactly when the chain reaches it by transitions of at most a
      day that were not aborted. It then ends with an empty chain at the host's fingerprint,
      and a further reconcile at any time changes nothing. */
  lemma ReconcileRecoversIff(w: World, now: int, later: int)
    requires Inv(w)
    ensures var r, u := ReportFor(w.chain, w.host, now), Reconciled(w, now);
            && !r.ambiguous
            && (r.observation.kind.Same? || r.observation.kind.OwnedRotation? <==> Recoverable(w.chain, w.host, now))
            && (r.observation.kind.Same? <==> w.host == w.chain.cursor)
            && (Recoverable(w.chain, w.host, now) ==>
                  && u.chain == Chain(w.host, []) && u.host == w.host
                  && Reconciled(u, later) == u && ReportFor(u.chain, u.host, later).observation.kind.Same?)
  {
    SettledQuiet(w);
    SettledRecoverable(w, now);
    QuietRecovers(Settled(w.chain, w.host), w.host, now);
  }

  /** A reconcile ends with an empty chain at the host, or with the settled chain less its
      aborted front. */
  lemma ReconciledForm(w: World, now: int)
    requires Inv(w)
    ensures var r := ReconciledChain(w.chain, w.host, now);
            r == Chain(w.host, []) || r == Strip(Settled(w.chain, w.host))
  {
    SettledQuiet(w);
    QuietRecovers(Settled(w.chain, w.host), w.host, now);
    hide Inv, Quiet, Recoverable, Classify;
  }

  lemma StrippedInv(w: World)
    requires Inv(w)
    ensures Inv(w.(chain := Strip(Settled(w.chain, w.host))))
  {
    var c := Settled(w.chain, w.host);
    hide *;
    InvBounded(w);
    SettledQuiet(w);
    SettledSame(w.chain, w.host);
    var k := StripKeeps(c, w.host);
    MatchesFrom(c.transitions, w.chain.transitions, k);
    QuietInv(w, Strip(c), k);
  }

  lemma InvBounded(w: World)
    requires Inv(w)
    ensures Bounded(w)
  {}

  /** The same transitions from the k-th on, but for their phases. */
  ghost predicate Matches(d: seq<Transition>, c: seq<Transition>, k: nat) {
    k + |d| <= |c| && forall n | 0 <= n < |d| :: d[n].(phase := Planned) == c[n + k].(phase := Planned)
  }

  lemma MatchesFrom(d: seq<Transition>, c: seq<Transition>, k: nat)
    requires k <= |d| && Matches(d, c, 0)
    ensures Matches(d[k..], c, k)
  {
    forall n | 0 <= n < |d[k..]| ensures d[k..][n].(phase := Planned) == c[n + k].(phase := Planned) {
      assert d[k..][n] == d[n + k];
    }
  }

  /** Settling changes phases only. */
  lemma SettledSame(c: Chain, host: Fingerprint)
    ensures Settled(c, host).cursor == c.cursor && Matches(Settled(c, host).transitions, c.transitions, 0)
  {}

  lemma ReconciledInv(w: World, now: int)
    requires Inv(w)
    ensures Inv(Reconciled(w, now))
  {
    ReconciledForm(w, now);
    StrippedInv(w);
    hide ReconciledChain, Strip, Settled;
  }

  lemma QuietInv(w: World, d: Chain, k: nat)
    requires Bounded(w) && Quiet(d, w.host) && d.cursor == w.chain.cursor
    requires Matches(d.transitions, w.chain.transitions, k)
    ensures Inv(w.(chain := d))
  {
    hide LinkedFrom, TailFrom, DistinctFrom;
    forall n | 0 <= n < |d.transitions|
      ensures d.transitions[n].next in w.used && d.transitions[n].saveSeq <= w.lastSeq
    {
      assert d.transitions[n].(phase := Planned) == w.chain.transitions[n + k].(phase := Planned);
    }
  }

  lemma StepInv(w: World, op: Op)
    requires Inv(w) && Enabled(w, op)
    ensures Inv(Step(w, op))
  {
    match op {
      case Save(next, now, outcome) => SavedInv(w, next, now, outcome);
      case Reconcile(now) => ReconciledInv(w, now);
      case RolledBack => UndoneInv(w);
    }
  }

  lemma UndoneInv(w: World)
    requires Inv(w)
    ensures Inv(Undone(w))
  {
    var d := Settled(w.chain, w.host);
    assert Undone(w) == w.(chain := d) by { SettledQuiet(w); }
    hide *;
    InvBounded(w);
    SettledQuiet(w);
    SettledSame(w.chain, w.host);
    QuietInv(w, d, 0);
  }

  lemma {:induction false} ExecInv(w: World, ops: seq<Op>)
    requires Inv(w) && Admissible(w, ops)
    ensures Inv(Exec(w, ops))
    decreases |ops|
  {
    if ops != [] {
      StepInv(w, ops[0]);
      ExecInv(Step(w, ops[0]), ops[1..]);
    }
  }

  // ---- Recovery over whole runs ----

  /** After every run, whatever saves were rejected or cut short and however late the
      reconciles were, the next reconcile recognises the host exactly when it is reachable,
      and then brings the chain back in step with nothing unresolved. */
  lemma RunRecoversIff(f: Fingerprint, ops: seq<Op>, now: int)
    requires Admissible(Start(f), ops)
    ensures var w := Exec(Start(f), ops);
            var r := ReportFor(w.chain, w.host, now);
            && !r.ambiguous
            && (r.observation.kind.Same? || r.observation.kind.OwnedRotation? <==> Recoverable(w.chain, w.host, now))
            && (Recoverable(w.chain, w.host, now) ==> Reconciled(w, now) == w.(chain := Chain(w.host, [])))
  {
    ExecInv(Start(f), ops);
    ReconcileRecoversIff(Exec(Start(f), ops), now, now);
  }

  predicate NoneOld(trs: seq<Transition>, now: int) {
    forall n | 0 <= n < |trs| :: !Old(trs[n], now)
  }

  /** The last save was cut short, or its outcome unclear, and the host did not take it. */
  predicate NotTaken(w: World) {
    Dangling(w.chain) && w.host != LastOf(w.chain.transitions).next
  }

  /** Saves the host did not reject, cut short or not. A reconcile either comes while no
      transition is older than a day, or does not have to abort the last transition; one
      that is rolled back does not have to either. */
  predicate Gentle(w: World, op: Op) {
    match op
    case Save(_, _, outcome) => !outcome.Rejected?
    case Reconcile(now) => NoneOld(w.chain.transitions, now) || !NotTaken(w)
    case RolledBack => !NotTaken(w)
  }

  predicate GentleRun(w: World, ops: seq<Op>)
    decreases |ops|
  {
    ops == [] || (Gentle(w, ops[0]) && GentleRun(Step(w, ops[0]), ops[1..]))
  }

  predicate NoneAborted(trs: seq<Transition>) {
    forall n | 0 <= n < |trs| :: !trs[n].phase.Aborted?
  }

  /** Settling a last transition the host took aborts nothing. */
  lemma SettledNotAborted(w: World)
    requires Inv(w) && NoneAborted(w.chain.transitions) && !NotTaken(w)
    ensures NoneAborted(Settled(w.chain, w.host).transitions)
  {}

  lemma GentleReconcile(w: World, now: int)
    requires Inv(w) && Gentle(w, Reconcile(now)) && NoneAborted(w.chain.transitions)
    ensures NoneAborted(Reconciled(w, now).chain.transitions)
  {
    if NotTaken(w) {
      YoungReachable(w, now);
      ReconcileRecoversIff(w, now, now);
    } else {
      SettledQuiet(w);
      SettledNotAborted(w);
      ReconciledForm(w, now);
      var k := StripKeeps(Settled(w.chain, w.host), w.host);
    }
  }

  lemma GentleStep(w: World, op: Op)
    requires Inv(w) && Enabled(w, op) && Gentle(w, op) && NoneAborted(w.chain.transitions)
    ensures NoneAborted(Step(w, op).chain.transitions)
  {
    match op {
      case Save(next, now, outcome) =>
        if SaveTail(w.chain).Some? && !outcome.NothingDurable? { SavedForm(w, next, now, outcome); }
      case Reconcile(now) => GentleReconcile(w, now);
      case RolledBack => SettledNotAborted(w);
    }
  }

  lemma {:induction false} GentleExec(w: World, ops: seq<Op>)
    requires Inv(w) && Admissible(w, ops) && GentleRun(w, ops) && NoneAborted(w.chain.transitions)
    ensures Inv(Exec(w, ops)) && NoneAborted(Exec(w, ops).chain.transitions)
    decreases |ops|
  {
    if ops != [] {
      GentleStep(w, ops[0]);
      StepInv(w, ops[0]);
      GentleExec(Step(w, ops[0]), ops[1..]);
    }
  }

  lemma YoungReachable(w: World, now: int)
    requires Inv(w) && NoneAborted(w.chain.transitions) && NoneOld(w.chain.transitions, now)
    ensures Recoverable(w.chain, w.host, now)
  {
    var trs := w.chain.transitions;
    TailIsStartOrNext(w.chain.cursor, trs);
    if w.host != w.chain.cursor {
      var n :| 0 <= n < |trs| && w.host == trs[n].next;
      assert ReachedBy(trs, n + 1, w.host, now);
    }
  }

  /** After any such run, and a last save cut short anywhere, with the host written or not,
      a reconcile while no transition is older than a day recovers. */
  lemma CrashedSaveRecovers(f: Fingerprint, ops: seq<Op>, next: Fingerprint, at: int, outcome: Outcome, now: int)
    requires Admissible(Start(f), ops) && GentleRun(Start(f), ops) && next !in Exec(Start(f), ops).used
    requires !outcome.Rejected? && NoneOld(Saved(Exec(Start(f), ops), next, at, outcome).chain.transitions, now)
    ensures var w := Saved(Exec(Start(f), ops), next, at, outcome);
            var r := ReportFor(w.chain, w.host, now);
            && !r.ambiguous && (r.observation.kind.Same? || r.observation.kind.OwnedRotation?)
            && Reconciled(w, now) == w.(chain := Chain(w.host, []))
  {
    GentleExec(Start(f), ops);
    var v := Exec(Start(f), ops);
    var w := Saved(v, next, at, outcome);
    GentleStep(v, Save(next, at, outcome));
    SavedInv(v, next, at, outcome);
    YoungReachable(w, now);
    ReconcileRecoversIff(w, now, now);
  }

  // ---- What an append may lose, and what an operator may not see ----

  /** Saves are refused while a transition is unresolved. So whenever one is planned in a
      reachable world, the append drops no unresolved transition. What a save would start
      from is that of the uncompacted append, whatever becomes of the new transition. */
  lemma ReachableAppendLosesNothing(f: Fingerprint, ops: seq<Op>, next: Fingerprint, phase: Phase, now: int)
    requires Admissible(Start(f), ops) && SaveTail(Exec(Start(f), ops).chain).Some?
    ensures var w := Exec(Start(f), ops);
            var tr := Transition(SaveTail(w.chain).value, next, w.lastSeq + 1, phase, now);
            && !AnyUnresolved(w.chain.transitions)
            && SaveTail(AppendAt(w.chain, tr, now)) == SaveTail(Extended(w.chain, tr)) == SaveTailAfter(tr)
            && Tail(AppendAt(w.chain, tr, now)) == Tail(Extended(w.chain, tr))
  {
    ExecInv(Start(f), ops);
    var w := Exec(Start(f), ops);
    assert Linked(w.chain);
    hide Inv, Exec, Admissible, AppendAt;
    ResolvedAppend(w.chain, Transition(SaveTail(w.chain).value, next, w.lastSeq + 1, phase, now), now);
  }

  /** Where the save after a transition that was appended to a resolved chain starts. */
  function SaveTailAfter(tr: Transition): Option<Fingerprint> {
    if Unresolved(tr) then None else if tr.phase.Applied? then Some(tr.next) else Some(tr.prev)
  }

  lemma ResolvedAppend(c: Chain, tr: Transition, now: int)
    requires Linked(c) && SaveTail(c) == Some(tr.prev)
    ensures !AnyUnresolved(c.transitions)
    ensures SaveTail(AppendAt(c, tr, now)) == SaveTail(Extended(c, tr)) == SaveTailAfter(tr)
    ensures Tail(AppendAt(c, tr, now)) == Tail(Extended(c, tr))
  {
    SaveTailOfLinked(c.cursor, c.transitions);
    AppendKeepsMeaning(c, tr, now);
    AppendKeepsSaveTail(c, tr, now);
    SaveTailExtended(c.cursor, c.transitions, tr);
    hide AppendAt, SaveTailFrom, TailFrom, LinkedFrom;
  }

  lemma {:induction false} SaveTailExtended(cursor: Fingerprint, trs: seq<Transition>, tr: Transition)
    requires LinkedFrom(cursor, trs) && SaveTailFrom(cursor, trs) == Some(tr.prev)
    ensures SaveTailFrom(cursor, trs + [tr]) == SaveTailAfter(tr)
    decreases |trs|
  {
    if trs == [] {
      assert (trs + [tr])[1..] == [];
    } else {
      assert (trs + [tr])[0] == trs[0] && (trs + [tr])[1..] == trs[1..] + [tr];
      SaveTailExtended(After(cursor, trs[0]), trs[1..], tr);
    }
  }

  /** A rejected save, then one cut short: further saves are refused, and so is the operator. */
  lemma OperatorRefusedWhileBlocked(f: Fingerprint, a: Fingerprint, b: Fingerprint, at: int, written: bool)
    requires f != a && f != b && a != b
    ensures var ops := [Save(a, at, Rejected), Save(b, at, OnlyPlanned(written))];
            Admissible(Start(f), ops)
            && var c := Exec(Start(f), ops).chain;
               SaveTail(c) == None && !PendingFrom(c.cursor, c.transitions)
  {
    var w1 := Saved(Start(f), a, at, Rejected);
    assert w1 == World(Chain(f, [Transition(f, a, 1, Aborted, at)]), f, 1, {f, a});
    assert SaveTailFrom(f, w1.chain.transitions[1..]) == Some(f);
    var w2 := Saved(w1, b, at, OnlyPlanned(written));
    assert w2.chain == Chain(f, [Transition(f, a, 1, Aborted, at), Transition(f, b, 2, Planned, at)]);
    assert SaveTailFrom(f, w2.chain.transitions[1..]) == None;
    var ops := [Save(a, at, Rejected), Save(b, at, OnlyPlanned(written))];
    assert ops[1..] == [Save(b, at, OnlyPlanned(written))];
    assert Step(w1, ops[1]) == w2 && Exec(w2, []) == w2;
    assert Exec(w1, ops[1..]) == w2;
    assert Exec(Start(f), ops) == w2;
  }

  // ---- The four ways in which recovery fails ----

  lemma RunCons(w: World, op: Op, u: World, rest: seq<Op>)
    requires Enabled(w, op) && Step(w, op) == u && Admissible(u, rest)
    ensures Admissible(w, [op] + rest) && Exec(w, [op] + rest) == Exec(u, rest)
  {
    assert ([op] + rest)[0] == op && ([op] + rest)[1..] == rest;
  }

  /** A rejected save stays in the chain, and classification does not look past it. */
  lemma RejectedSaveHidesTheNext(f: Fingerprint, a: Fingerprint, b: Fingerprint, at: int, now: int)
    requires f != a && f != b && a != b && b.subject != f.subject
    ensures var ops := [Save(a, at, Rejected), Save(b, at, Success)];
            Admissible(Start(f), ops)
            && var w := Exec(Start(f), ops);
               w.host == b && ReportFor(w.chain, w.host, now).observation.kind.ExternalLogin?
  {
    var w1 := Saved(Start(f), a, at, Rejected);
    assert w1 == World(Chain(f, [Transition(f, a, 1, Aborted, at)]), f, 1, {f, a});
    var w2 := Saved(w1, b, at, Success);
    assert SaveTailFrom(f, w1.chain.transitions[1..]) == Some(f);
    assert w2.chain == Chain(f, [Transition(f, a, 1, Aborted, at), Transition(f, b, 2, Applied, at)]);
    var ops := [Save(a, at, Rejected), Save(b, at, Success)];
    assert ops[1..] == [Save(b, at, Success)];
    assert Step(w1, ops[1]) == w2 && Exec(w2, []) == w2;
    assert Exec(w1, ops[1..]) == w2;
    assert Exec(Start(f), ops) == w2;
  }

  /** The day is counted from the oldest transition kept, not from the last save: one
      nanosecond after a save, a day and a nanosecond after the one before, recovery fails. */
  lemma OldestTransitionCounts(f: Fingerprint, a: Fingerprint, b: Fingerprint, at: int)
    requires f != a && f != b && a != b && b.subject != f.subject && at > 0
    ensures var ops := [Save(a, at, Success), Save(b, at + DAY, OnlyPlanned(true))];
            Admissible(Start(f), ops)
            && var w := Exec(Start(f), ops);
               w.host == b && ReportFor(w.chain, w.host, at + DAY + 1).observation.kind.ExternalLogin?
  {
    var w1 := Saved(Start(f), a, at, Success);
    assert w1 == World(Chain(f, [Transition(f, a, 1, Applied, at)]), a, 1, {f, a});
    assert SaveTailFrom(a, w1.chain.transitions[1..]) == Some(a);
    var w2 := Saved(w1, b, at + DAY, OnlyPlanned(true));
    assert w2.chain == Chain(f, [Transition(f, a, 1, Applied, at), Transition(a, b, 2, Planned, at + DAY)]);
    var ops := [Save(a, at, Success), Save(b, at + DAY, OnlyPlanned(true))];
    assert ops[1..] == [Save(b, at + DAY, OnlyPlanned(true))];
    assert Step(w1, ops[1]) == w2 && Exec(w2, []) == w2;
    assert Exec(w1, ops[1..]) == w2;
    assert Exec(Start(f), ops) == w2;
  }

  /** A reconcile that comes too late may abort a save the host did not take and leave it in
      the chain; the next save, although neither rejected nor old, is then hidden behind it. */
  lemma LateReconcileHidesTheNext(f: Fingerprint, a: Fingerprint, b: Fingerprint, c: Fingerprint, at: int)
    requires f != a && f != b && f != c && a != b && a != c && b != c && c.subject != a.subject && at > 0
    ensures var ops := [Save(a, at, Success), Save(b, at + DAY, OnlyPlanned(false)), Reconcile(at + DAY + 1),
                        Save(c, at + DAY + 1, Success)];
            Admissible(Start(f), ops)
            && var w := Exec(Start(f), ops);
               && w.host == c && NoneOld(w.chain.transitions, at + DAY + 2)
               && ReportFor(w.chain, w.host, at + DAY + 2).observation.kind.ExternalLogin?
  {
    var w1 := Saved(Start(f), a, at, Success);
    assert w1 == World(Chain(f, [Transition(f, a, 1, Applied, at)]), a, 1, {f, a});
    assert SaveTailFrom(a, w1.chain.transitions[1..]) == Some(a);
    var w2 := Saved(w1, b, at + DAY, OnlyPlanned(false));
    var first := Transition(f, a, 1, Applied, at);
    assert w2 == World(Chain(f, [first, Transition(a, b, 2, Planned, at + DAY)]), a, 2, {f, a, b});
    var w3 := Reconciled(w2, at + DAY + 1);
    var gone := Transition(a, b, 2, Aborted, at + DAY);
    LateReconcile(f, a, b, at);
    assert w3 == World(Chain(f, [first, gone]), a, 2, {f, a, b});
    var w4 := Saved(w3, c, at + DAY + 1, Success);
    LateSave(f, a, b, c, at);
    hide Saved, ReconciledChain, NoneOld, ReportFor;
    RunCons(w3, Save(c, at + DAY + 1, Success), w4, []);
    RunCons(w2, Reconcile(at + DAY + 1), w3, [Save(c, at + DAY + 1, Success)] + []);
    RunCons(w1, Save(b, at + DAY, OnlyPlanned(false)), w2,
            [Reconcile(at + DAY + 1)] + ([Save(c, at + DAY + 1, Success)] + []));
    RunCons(Start(f), Save(a, at, Success), w1,
            [Save(b, at + DAY, OnlyPlanned(false))] +
              ([Reconcile(at + DAY + 1)] + ([Save(c, at + DAY + 1, Success)] + [])));
    assert [Save(a, at, Success), Save(b, at + DAY, OnlyPlanned(false)), Reconcile(at + DAY + 1),
            Save(c, at + DAY + 1, Success)] ==
           [Save(a, at, Success)] + ([Save(b, at + DAY, OnlyPlanned(false))] +
             ([Reconcile(at + DAY + 1)] + ([Save(c, at + DAY + 1, Success)] + [])));
  }

  lemma LateReconcile(f: Fingerprint, a: Fingerprint, b: Fingerprint, at: int)
    requires f != a && f != b && a != b && at > 0
    ensures var first := Transition(f, a, 1, Applied, at);
            ReconciledChain(Chain(f, [first, Transition(a, b, 2, Planned, at + DAY)]), a, at + DAY + 1) ==
            Chain(f, [first, Transition(a, b, 2, Aborted, at + DAY)])
  {
    var first := Transition(f, a, 1, Applied, at);
    var c := Chain(f, [first, Transition(a, b, 2, Planned, at + DAY)]);
    assert Settled(c, a) == Chain(f, [first, Transition(a, b, 2, Aborted, at + DAY)]);
    assert Classify(Settled(c, a), a, at + DAY + 1).kind.Ambiguous?;
  }

  lemma LateSave(f: Fingerprint, a: Fingerprint, b: Fingerprint, c: Fingerprint, at: int)
    requires f != a && f != b && f != c && a != b && a != c && b != c && c.subject != a.subject && at > 0
    ensures var first, gone := Transition(f, a, 1, Applied, at), Transition(a, b, 2, Aborted, at + DAY);
            var w3 := World(Chain(f, [first, gone]), a, 2, {f, a, b});
            var w4 := Saved(w3, c, at + DAY + 1, Success);
            && w4.host == c && NoneOld(w4.chain.transitions, at + DAY + 2)
            && ReportFor(w4.chain, w4.host, at + DAY + 2).observation.kind.ExternalLogin?
  {
    var first, gone := Transition(f, a, 1, Applied, at), Transition(a, b, 2, Aborted, at + DAY);
    var w3 := World(Chain(f, [first, gone]), a, 2, {f, a, b});
    assert w3.chain.transitions[1..] == [gone] && [gone][1..] == [];
    assert SaveTailFrom(a, []) == Some(a) && SaveTailFrom(a, [gone]) == Some(a);
    assert SaveTail(w3.chain) == Some(a);
    var tr := Transition(a, c, 3, Planned, at + DAY + 1);
    assert Pruned(Chain(a, [gone]), at + DAY + 1) == Chain(a, [gone]);
    assert Pruned(w3.chain, at + DAY + 1) == Chain(a, [gone]);
    assert AppendAt(w3.chain, tr, at + DAY + 1) == Chain(a, [gone, tr]);
    var w4 := Saved(w3, c, at + DAY + 1, Success);
    assert w4.chain == Chain(a, [gone, tr.(phase := Applied)]);
  }

  /** A reconcile that is rolled back leaves the last transition settled, and so may abort a
      save the host did not take; the next save is hidden behind it, although no save was
      rejected, no transition is old and no reconcile was late. */
  lemma RollbackHidesTheNext(f: Fingerprint, b: Fingerprint, c: Fingerprint, at: int)
    requires f != b && f != c && b != c && c.subject != f.subject && at > 0
    ensures var ops := [Save(b, at, OnlyPlanned(false)), RolledBack, Save(c, at, Success)];
            Admissible(Start(f), ops)
            && var w := Exec(Start(f), ops);
               && w.host == c && NoneOld(w.chain.transitions, at + 1)
               && ReportFor(w.chain, w.host, at + 1).observation.kind.ExternalLogin?
  {
    var w1 := Saved(Start(f), b, at, OnlyPlanned(false));
    assert w1 == World(Chain(f, [Transition(f, b, 1, Planned, at)]), f, 1, {f, b});
    var w2 := Undone(w1);
    assert w2 == World(Chain(f, [Transition(f, b, 1, Aborted, at)]), f, 1, {f, b});
    var w3 := Saved(w2, c, at, Success);
    SaveBehindAborted(f, b, c, at);
    hide Saved, Undone, NoneOld, ReportFor;
    RunCons(w2, Save(c, at, Success), w3, []);
    RunCons(w1, RolledBack, w2, [Save(c, at, Success)] + []);
    RunCons(Start(f), Save(b, at, OnlyPlanned(false)), w1, [RolledBack] + ([Save(c, at, Success)] + []));
    assert [Save(b, at, OnlyPlanned(false)), RolledBack, Save(c, at, Success)] ==
           [Save(b, at, OnlyPlanned(false))] + ([RolledBack] + ([Save(c, at, Success)] + []));
  }

  lemma SaveBehindAborted(f: Fingerprint, b: Fingerprint, c: Fingerprint, at: int)
    requires f != b && f != c && b != c && c.subject != f.subject && at > 0
    ensures var w3 := Saved(World(Chain(f, [Transition(f, b, 1, Aborted, at)]), f, 1, {f, b}), c, at, Success);
            && w3.host == c && NoneOld(w3.chain.transitions, at + 1)
            && ReportFor(w3.chain, w3.host, at + 1).observation.kind.ExternalLogin?
  {
    var w2 := World(Chain(f, [Transition(f, b, 1, Aborted, at)]), f, 1, {f, b});
    assert SaveTailFrom(f, w2.chain.transitions[1..]) == Some(f);
    var w3 := Saved(w2, c, at, Success);
    assert w3.chain == Chain(f, [Transition(f, b, 1, Aborted, at), Transition(f, c, 2, Applied, at)]);
  }

  /** Save numbers come from the counter. */
  predicate Numbered(w: World) {
    Below(w.chain.transitions, w.lastSeq)
  }

  predicate Below(trs: seq<Transition>, seq_: nat) {
    forall n | 0 <= n < |trs| :: trs[n].saveSeq <= seq_
  }

  lemma AppendBelow(c: Chain, tr: Transition, now: int)
    requires Below(c.transitions, tr.saveSeq)
    ensures Below(AppendAt(c, tr, now).transitions, tr.saveSeq)
  {
    var k := Dropped(c, tr, now);
    hide AppendAt;
  }

  lemma SetPhaseBelow(trs: seq<Transition>, saveSeq: nat, phase: Phase, bound: nat)
    requires Below(trs, bound)
    ensures Below(SetPhase(trs, saveSeq, phase), bound)
  {}

  lemma SavedNumbered(w: World, next: Fingerprint, now: int, outcome: Outcome)
    requires Numbered(w)
    ensures Numbered(Saved(w, next, now, outcome))
  {
    if SaveTail(w.chain).Some? {
      var tr := Transition(SaveTail(w.chain).value, next, w.lastSeq + 1, Planned, now);
      AppendBelow(w.chain, tr, now);
      SetPhaseBelow(AppendAt(w.chain, tr, now).transitions, w.lastSeq + 1, Terminal(outcome), w.lastSeq + 1);
      hide AppendAt, SaveTailFrom, SetPhase;
    }
  }

  lemma OnlyPlannedChain(w: World, tail: Fingerprint, next: Fingerprint, now: int)
    requires Numbered(w)
    ensures var planned := PlannedChain(w, tail, next, now);
            SetPhase(planned.transitions, w.lastSeq + 1, Planned) == planned.transitions
  {
    hide AppendAt;
    var tr := Transition(tail, next, w.lastSeq + 1, Planned, now);
    SetPhaseOfLast(w.chain.transitions, Dropped(w.chain, tr, now), tr, Planned);
  }

  // ---- The program's own form ----

  /** The manager's durable state of one instance, with what the host holds beside it. */
  class CredentialManager {
    var chain: Chain
    var lastSeq: nat
    var host: Fingerprint
    ghost var used: set<Fingerprint>

    ghost function View(): World
      reads this
    {
      World(chain, host, lastSeq, used)
    }

    constructor (f: Fingerprint)
      ensures View() == Start(f) && Inv(View())
    {
      chain, lastSeq, host, used := Chain(f, []), 0, f, {f};
    }

    method SetTerminal(saveSeq: nat, phase: Phase)
      modifies this`chain
      ensures chain == old(chain).(transitions := SetPhase(old(chain).transitions, saveSeq, phase))
    {
      var trs := chain.transitions;
      var n := 0;
      while n < |trs|
        invariant 0 <= n <= |trs| == |old(chain).transitions|
        invariant forall m | 0 <= m < n :: trs[m] == SetPhase(old(chain).transitions, saveSeq, phase)[m]
        invariant forall m | n <= m < |trs| :: trs[m] == old(chain).transitions[m]
      {
        if trs[n].saveSeq == saveSeq {
          trs := trs[n := trs[n].(phase := phase)];
        }
        n := n + 1;
      }
      chain := chain.(transitions := trs);
    }

    method Plan(tail: Fingerprint, next: Fingerprint, now: int)
      modifies this`chain, this`lastSeq, this`used
      ensures chain == PlannedChain(old(View()), tail, next, now)
      ensures lastSeq == old(lastSeq) + 1 && used == old(used) + {next}
    {
      hide AppendAt;
      chain := ComputeAppendAt(chain, Transition(tail, next, lastSeq + 1, Planned, now), now);
      lastSeq := lastSeq + 1;
      used := used + {next};
    }

    /** Plan, write to the host, record how it ended, as far as `outcome` says. */
    method Perform(tail: Fingerprint, next: Fingerprint, now: int, outcome: Outcome)
      requires Numbered(View()) && SaveTail(chain) == Some(tail) && !outcome.NothingDurable?
      modifies this
      ensures View() == Saved(old(View()), next, now, outcome)
    {
      OnlyPlannedChain(View(), tail, next, now);
      hide Numbered, PlannedChain, SaveTail, SetPhase;
      Plan(tail, next, now);
      if Written(outcome) {
        host := next;
      }
      if !outcome.OnlyPlanned? {
        SetTerminal(lastSeq, Terminal(outcome));
      }
    }

    /** A save is refused while a transition is unresolved. Any fingerprint may be saved; a
        new one keeps the chain recoverable. */
    method SaveVersioned(next: Fingerprint, now: int, outcome: Outcome) returns (unresolved: bool)
      requires Numbered(View())
      modifies this
      ensures Numbered(View()) && View() == Saved(old(View()), next, now, outcome)
      ensures old(Inv(View())) && next !in old(used) ==> Inv(View())
      ensures unresolved <==> SaveTail(old(chain)).None?
    {
      ghost var w := View();
      SavedNumbered(w, next, now, outcome);
      if Inv(w) && next !in used { SavedInv(w, next, now, outcome); }
      hide Inv, Numbered, PlannedChain, SaveTailFrom, SetPhase;
      var tail := ComputeSaveTail(chain);
      unresolved := tail.None?;
      if !unresolved && !outcome.NothingDurable? {
        Perform(tail.value, next, now, outcome);
      }
    }

    method DropAborted()
      modifies this`chain
      ensures chain == Strip(old(chain))
    {
      while |chain.transitions| > 0 && chain.transitions[0].prev == chain.cursor && chain.transitions[0].phase.Aborted?
        invariant Strip(chain) == Strip(old(chain))
        decreases |chain.transitions|
      {
        chain := chain.(transitions := chain.transitions[1..]);
      }
    }

    /** Settles the last transition in place; none or an ambiguous answer ends the call. */
    method SettleLast() returns (stuck: bool, phase: Option<Phase>)
      modifies this`chain
      ensures stuck <==> Stuck(old(chain), host)
      ensures chain == if stuck then old(chain) else Settled(old(chain), host)
      ensures phase == if |chain.transitions| == 0 then None else Some(LastOf(chain.transitions).phase)
    {
      stuck, phase := false, None;
      if |chain.transitions| > 0 {
        var i := |chain.transitions| - 1;
        var tr := chain.transitions[i];
        if Unresolved(tr) {
          if host == tr.next {
            tr := tr.(phase := Applied);
          } else if host == tr.prev {
            tr := tr.(phase := Aborted);
          } else {
            return true, Some(tr.phase);
          }
          chain := chain.(transitions := chain.transitions[i := tr]);
        }
        phase := Some(tr.phase);
      }
    }

    /** Settle, classify, adopt and commit. When the hook after the commit fails, the chain
        copied before it is put back: the one with the last transition already settled. */
    method Reconcile(now: int, hookFails: bool) returns (report: Report)
      modifies this
      ensures View() == if hookFails then Undone(old(View())) else Reconciled(old(View()), now)
      ensures old(Inv(View())) ==> Inv(View())
      ensures report == ReportFor(old(chain), old(host), now)
    {
      ghost var w := View();
      if Inv(w) { ReconciledInv(w, now); UndoneInv(w); }
      hide Inv, Strip, WalkFrom;
      var stuck, phase := SettleLast();
      if stuck {
        return Report(true, phase, Observation(Same, 0));
      }
      var before := chain;
      var o := ComputeClassify(chain, host, now);
      report := Report(false, phase, o);
      if o.kind.OwnedRotation? {
        WalkOwned(chain.cursor, chain.cursor, chain.transitions, 0, host, now);
        chain := Chain(host, chain.transitions[o.advance..]);
      } else if o.kind.ExternalLogin? {
        chain := Chain(host, []);
      }
      DropAborted();
      if hookFails {
        chain := before;
      }
    }
  }
}
