/** What a result does to a window, told from the window's baseline and the snapshot alone. */
module ProbeOutcomes {
  import opened Basics
  import opened ProbeClassify
  import opened ProbeState

  // ---- What a snapshot shows ----

  predicate Readable(snap: Snapshot) {
    snap.valid && snap.usage.Some?
  }

  /** The window is judged by its reset: it has such a baseline, or is under suspicion. */
  predicate ByReset(b: Baseline) {
    b.kind.ResetBaseline? || b.suspectedLazy
  }

  /** The reset is more than two minutes behind the baseline's, or more than two window
      lengths, or without a known length 120 days, ahead of it. */
  predicate FarOff(b: Baseline, snap: Snapshot) {
    && snap.resetAt.Some?
    && var d := snap.resetAt.value - b.resetAt;
       || d < -(120 * SECOND)
       || (b.length > 0 && d > 2 * b.length)
       || (b.length == 0 && d > 120 * 24 * 60 * MINUTE)
  }

  /** The reset moved forward by more than two minutes, and plausibly. */
  predicate Forward(b: Baseline, snap: Snapshot) {
    !FarOff(b, snap) && snap.resetAt.Some? && snap.resetAt.value > b.resetAt + 120 * SECOND
  }

  /** Used since it was suspected, or, without a reset, back from use to zero. */
  predicate UsageShows(b: Baseline, snap: Snapshot, now: int)
    requires snap.usage.Some?
  {
    || (b.suspectedLazy && !FarOff(b, snap) && snap.usage.value > 0.0)
    || (snap.resetAt.None? && b.usage > 0.0 && snap.usage.value == 0.0
        && (b.kind.UsageOnly? || (b.kind.ResetBaseline? && now >= b.resetAt + MINUTE)))
  }

  /** The window was activated since the baseline was taken. */
  predicate Activated(b: Baseline, snap: Snapshot, now: int) {
    Readable(snap) && ((ByReset(b) && Forward(b, snap)) || UsageShows(b, snap, now))
  }

  predicate Anomalous(b: Baseline, snap: Snapshot) {
    Readable(snap) && ByReset(b) && FarOff(b, snap)
  }

  /** It is too early to tell: less than a minute past the reset, or no reset to judge by yet,
      or a first one still ahead. */
  predicate TooEarly(b: Baseline, snap: Snapshot, now: int) {
    && Readable(snap) && !Activated(b, snap, now) && !Anomalous(b, snap)
    && !(b.suspectedLazy && snap.resetAt.Some?)
    && if b.kind.ResetBaseline? then now < b.resetAt + MINUTE
       else snap.resetAt.None? || snap.resetAt.value > now
  }

  /** A never used window replaced the one under way: nothing used, a reset implausibly far
      ahead, one full length after the observation within three minutes, of the same kind. */
  predicate Replaced(b: Baseline, snap: Snapshot, now: int) {
    && b.kind.ResetBaseline? && snap.valid && snap.usage == Some(0.0) && snap.resetAt.Some?
    && snap.resetAt.value > b.resetAt + 120 * SECOND
    && (b.length > 0 ==> snap.resetAt.value > b.resetAt + 2 * b.length)
    && (b.length == 0 ==> snap.resetAt.value > b.resetAt + 120 * 24 * 60 * MINUTE)
    && (b.windowKind.NoKind? || snap.windowKind == b.windowKind)
    && now != 0 && snap.resetAt.value != 0
    && var length := if snap.lengthKnown && snap.length > 0 then snap.length else b.length;
       length > 0 && now + length - 3 * MINUTE <= snap.resetAt.value <= now + length + 3 * MINUTE
  }

  // ---- The classification means that ----

  lemma KindMeans(b: Baseline, snap: Snapshot, now: int)
    ensures var k := Classify(b, snap, now).kind;
            && (k.Invalid? <==> !Readable(snap))
            && (k.ActivatedNew? || k.ActivatedInferred? <==> Activated(b, snap, now))
            && (k.Anomaly? <==> Anomalous(b, snap))
            && (k.NotDueYet? <==> TooEarly(b, snap, now))
  {}

  lemma ReplacedMeans(b: Baseline, snap: Snapshot, now: int)
    ensures Rebases(b, snap, now) <==> Replaced(b, snap, now)
  {}

  lemma ReplacedIsLazy(b: Baseline, snap: Snapshot, now: int)
    requires Rebases(b, snap, now)
    ensures Classify(Suspect(b, snap), snap, now) == Plain(StillLazy, Suspect(b, snap))
  {}

  /** What becomes of the baseline. */
  lemma BaselineMeans(b: Baseline, snap: Snapshot, now: int)
    ensures var u := Classify(b, snap, now).baseline;
            && (!Readable(snap) || Anomalous(b, snap) ==> u == b)
            && (Activated(b, snap, now) ==>
                  u.usage == snap.usage.value && !u.suspectedLazy && u.kind == b.kind && u.windowKind == b.windowKind)
            && (Activated(b, snap, now) && ByReset(b) ==>
                  u.resetAt == if Forward(b, snap) then snap.resetAt.value else b.resetAt)
            && (Readable(snap) && !b.suspectedLazy && !b.kind.ResetBaseline? && snap.resetAt.Some? ==>
                  && u.kind.ResetBaseline? && u.resetAt == snap.resetAt.value && u.usage == snap.usage.value
                  && u.windowKind == snap.windowKind && !u.suspectedLazy
                  && u.length == if snap.lengthKnown then snap.length else 0)
            && (Readable(snap) && b.kind.ResetBaseline? && !Activated(b, snap, now) ==> u == b)
            && (TooEarly(b, snap, now) && snap.resetAt.None? && !b.kind.ResetBaseline? ==>
                  u.kind.UsageOnly? && u.nextRecheckAt ==
                    if b.kind.UsageOnly? && now < b.nextRecheckAt then b.nextRecheckAt else now + 30 * MINUTE)
  {}

  /** The second of two intervals that agree. */
  predicate Agrees(b: Baseline, delta: int) {
    b.candidateLength > 0 && -(120 * SECOND) <= b.candidateLength - delta <= 120 * SECOND
  }

  /** How a window's length is learned, exactly: a forward move of the reset is an interval; one
      that agrees with the last makes it the length, one that does not starts over. A length
      once known, or the length of a window under suspicion, is never revised. */
  lemma LengthLearnedExactly(b: Baseline, snap: Snapshot, now: int)
    requires Readable(snap) && ByReset(b) && Forward(b, snap)
    ensures var u, delta := Classify(b, snap, now).baseline, snap.resetAt.value - b.resetAt;
            if b.length != 0 || b.suspectedLazy then
              u.length == b.length && u.candidateLength == b.candidateLength && u.stableIntervals == b.stableIntervals
            else
              && u.length == (if Agrees(b, delta) && b.stableIntervals >= 1 then delta else 0)
              && u.candidateLength == (if Agrees(b, delta) then b.candidateLength else delta)
              && u.stableIntervals == (if Agrees(b, delta) then b.stableIntervals + 1 else 1)
  {}

  /** Three resets at equal distances suffice to learn a length, whatever was known before. */
  lemma ThreeResetsSuffice(b: Baseline, snaps: seq<Snapshot>, d: int, t0: int, t1: int)
    requires b.kind.ResetBaseline? && !b.suspectedLazy && b.length == 0 && d > 120 * SECOND
    requires d <= 120 * 24 * 60 * MINUTE && |snaps| == 2
    requires Readable(snaps[0]) && snaps[0].resetAt == Some(b.resetAt + d)
    requires Readable(snaps[1]) && snaps[1].resetAt == Some(b.resetAt + 2 * d)
    ensures var mid := Classify(b, snaps[0], t0).baseline;
            mid.length != 0 || Classify(mid, snaps[1], t1).baseline.length == d
  {
    LengthLearnedExactly(b, snaps[0], t0);
    var mid := Classify(b, snaps[0], t0).baseline;
    BaselineMeans(b, snaps[0], t0);
    if mid.length == 0 { LengthLearnedExactly(mid, snaps[1], t1); }
  }

  // ---- Results ----

  /** The next attempt: one, then five, then always fifteen minutes. */
  function PauseAfter(failures: nat): int {
    if failures <= 1 then 60 * SECOND else if failures == 2 then 300 * SECOND else 900 * SECOND
  }

  ghost predicate RetriedFrom(w: Window, u: Window, now: int) {
    u.state.RetryWait? && u.retryCount == w.retryCount + 1 && u.deadline == now + PauseAfter(w.retryCount + 1)
  }

  /** When a window that waits for its reset is looked at again: a minute after the reset, or
      sooner at the next observation if the length is known; without a reset, when it says. */
  predicate LooksAgain(b: Baseline, now: int, interval: int, deadline: int) {
    if b.kind.UsageOnly? then deadline == b.nextRecheckAt
    else if b.resetAt == 0 then deadline == now
    else if b.length > 0 && interval > 0 && now + interval < b.resetAt + MINUTE then deadline == now + interval
    else deadline == b.resetAt + MINUTE
  }

  /** Every outcome of a verification. It is confirmed exactly on evidence of activation; held
      exactly on an implausible reset that no replacement explains; and retried in all other
      cases in which it is not too early to tell. */
  lemma VerifyOutcome(w: Window, snap: Snapshot, now: int, interval: int)
    ensures var u, anew := Verified(w, snap, now, interval), Replaced(w.baseline, snap, now);
            && (u.state.Confirmed? <==> !anew && Activated(w.baseline, snap, now))
            && (u.state.AnomalyHold? <==> !anew && Anomalous(w.baseline, snap))
            && (u.state.WaitingReset? <==> !anew && TooEarly(w.baseline, snap, now))
            && (!u.state.Confirmed? && !u.state.AnomalyHold? && !u.state.WaitingReset? ==> RetriedFrom(w, u, now))
            && (u.state.Confirmed? ==> u.deadline == 0 && u.retryCount == w.retryCount)
            && (u.state.AnomalyHold? ==> u.deadline == now + 30 * MINUTE && u.retryCount == w.retryCount)
            && (u.state.WaitingReset? ==>
                  LooksAgain(u.baseline, now, interval, u.deadline) && u.retryCount == w.retryCount)
            && u.attempt == w.attempt
            && (anew ==> u.baseline == w.baseline.(resetAt := snap.resetAt.value, usage := 0.0, suspectedLazy := true))
            && (!anew ==> u.baseline == Classify(w.baseline, snap, now).baseline)
  {
    ReplacedMeans(w.baseline, snap, now);
    if Rebases(w.baseline, snap, now) { ReplacedIsLazy(w.baseline, snap, now); }
    KindMeans(w.baseline, snap, now);
    hide Classify, Rebases, Replaced, Activated, Anomalous, TooEarly;
  }

  lemma WithKindSame(slot: Slot, b: Baseline, snap: Snapshot, now: int)
    ensures var d := WithKind(slot, b, snap);
            && d == b.(windowKind := d.windowKind)
            && (Activated(d, snap, now) <==> Activated(b, snap, now))
            && (Anomalous(d, snap) <==> Anomalous(b, snap)) && (TooEarly(d, snap, now) <==> TooEarly(b, snap, now))
  {}

  /** All the precheck shows is a reset that moved forward to an unused window. */
  predicate OnlyMoved(b: Baseline, snap: Snapshot) {
    b.kind.ResetBaseline? && Readable(snap) && Forward(b, snap) && snap.usage.value == 0.0
  }

  lemma UnauthorizedMeans(slot: Slot, b: Baseline, snap: Snapshot, now: int)
    requires !StrictEvidence(slot, b, snap, now)
    ensures PrecheckBaseline(slot, b, snap, now) == WithKind(slot, b, snap)
    ensures Unauthorized(slot, b, snap, now) <==>
              && Readable(snap) && !TooEarly(b, snap, now) && !Anomalous(b, snap)
              && (Activated(b, snap, now) ==> OnlyMoved(b, snap))
  {
    AuthorizedMeans(slot, b, snap, now);
    var d := WithKind(slot, b, snap);
    KindMeans(d, snap, now);
    WithKindSame(slot, b, snap, now);
    NewMeansForward(d, snap, now);
    assert OnlyMoved(b, snap) <==>
           Comparable(b, snap) && Shifted(b, snap) && snap.usage.value == 0.0 && !FarOff(b, snap);
    assert OnlyMoved(b, snap) ==> Activated(b, snap, now);
    hide Classify, Authorized, StrictEvidence, WithKind, Activated, TooEarly, Forward, FarOff;
  }

  lemma DeadlineLooks(b: Baseline, now: int, interval: int)
    ensures LooksAgain(b, now, interval, DeadlineFor(b, now, interval))
    ensures var d := ObservationDeadline(b, now, interval);
            d > now ==> LooksAgain(b, now, interval, d) || d == now + if interval <= 0 then 30 * MINUTE else interval
    ensures ObservationDeadline(b, now, interval) > now
  {}

  /** Every outcome of a precheck but the send: unreadable is retried, implausible held,
      activated confirmed, unless all it shows is a reset moved to an unused window; the rest
      waits read-only. */
  lemma PrecheckOutcome(slot: Slot, w: Window, snap: Snapshot, now: int, interval: int, attempt: nat)
    requires !StrictEvidence(slot, w.baseline, snap, now)
    ensures var u, b := Prechecked(slot, w, snap, now, interval, attempt), w.baseline;
            && (u.state.RetryWait? <==> !Readable(snap)) && (u.state.RetryWait? ==> RetriedFrom(w, u, now))
            && (u.state.AnomalyHold? <==> Anomalous(b, snap))
            && (u.state.AnomalyHold? ==> u.deadline == now + 30 * MINUTE)
            && (u.state.Confirmed? <==> Activated(b, snap, now) && !OnlyMoved(b, snap))
            && (u.state.Confirmed? ==> u.deadline == 0)
            && (u.state.RetryWait? || u.state.AnomalyHold? || u.state.Confirmed? || u.state.WaitingReset?)
            && (u.state.WaitingReset? && TooEarly(b, snap, now) ==>
                  LooksAgain(u.baseline, now, interval, u.deadline) && u.attempt == w.attempt)
            && (u.state.WaitingReset? && !TooEarly(b, snap, now) ==>
                  && u.deadline > now && u.attempt == 0 && !u.baseline.suspectedLazy
                  && (LooksAgain(u.baseline, now, interval, u.deadline)
                      || u.deadline == now + if interval <= 0 then 30 * MINUTE else interval))
  {
    var b := w.baseline;
    var cl := Classify(WithKind(slot, b, snap), snap, now);
    UnauthorizedMeans(slot, b, snap, now);
    KindMeans(WithKind(slot, b, snap), snap, now);
    WithKindSame(slot, b, snap, now);
    DeadlineLooks(cl.baseline, now, interval);
    DeadlineLooks(cl.baseline.(suspectedLazy := false), now, interval);
    hide Classify, Unauthorized, StrictEvidence, WithKind, PrecheckBaseline, Activated, TooEarly, Anomalous, OnlyMoved;
    hide DeadlineFor, ObservationDeadline, LooksAgain, Readable;
  }

  lemma NewMeansForward(b: Baseline, snap: Snapshot, now: int)
    ensures Classify(b, snap, now).kind.ActivatedNew? <==> Readable(snap) && ByReset(b) && Forward(b, snap)
  {}

  // ---- The other events ----

  /** An event in a state, or without a snapshot, that it is not for changes nothing. */
  lemma OthersPass(w: Window, slot: Slot, e: Event, attempt: nat)
    ensures (e.Precheck? && (w.state != PendingCheck || slot !in e.snapshots)) ||
            (e.Verify? && ((w.state != SentAwaitingVerify && w.state != SentUnknown) || slot !in e.snapshots)) ==>
              Next(w, slot, e, attempt) == w && IntentOf(w, slot, e) == None
  {}

  /** A deadline that has passed turns a waiting window to a check, and no other; an auth failure
      blocks every window that is not idle; a login unblocks; a confirmed roster lets a window
      that waited for it go on, to a check at once if it was under suspicion. */
  lemma EventOutcome(w: Window, slot: Slot, e: Event, attempt: nat)
    ensures e.Deadline? ==>
              Next(w, slot, e, attempt) ==
              if w.state in {WaitingReset, RetryWait, AnomalyHold} && w.deadline <= e.now
              then w.(state := PendingCheck, deadline := 0) else w
    ensures e.AuthFailed? ==> Next(w, slot, e, attempt) == if w.state == Idle then w else w.(state := AuthBlocked)
    ensures e.LoginSeen? ==>
              Next(w, slot, e, attempt) == if w.state == AuthBlocked then w.(state := PendingCheck) else w
    ensures e.RosterConfirmed? ==>
              var u := Next(w, slot, e, attempt);
              if w.state != WaitingRoster then u == w
              else if w.baseline.suspectedLazy then u == w.(state := PendingCheck, deadline := 0)
              else u == w.(state := WaitingReset, deadline := u.deadline)
                   && LooksAgain(w.baseline, e.now, e.interval, u.deadline)
    ensures !e.Precheck? && !e.Deadline? ==> IntentOf(w, slot, e) == None
  {}

  /** The controller waits for exactly the times at which a deadline event asks for a check,
      save that of a window whose deadline was never set. */
  lemma WaitsForDue(w: Window, slot: Slot, now: int)
    ensures Waiting(w) && w.deadline <= now <==>
            w.deadline != 0 && IntentOf(w, slot, Deadline(now)) == Some(PrecheckIntent(slot))
  {}

  // ---- Runs of one window ----

  /** Events in order, each with the attempt number a send would be given. */
  function After(w: Window, slot: Slot, es: seq<(Event, nat)>): Window
    decreases |es|
  {
    if es == [] then w else After(Next(w, slot, es[0].0, es[0].1), slot, es[1..])
  }

  function SendsIn(w: Window, slot: Slot, es: seq<(Event, nat)>): nat
    decreases |es|
  {
    if es == [] then 0
    else (if IntentOf(w, slot, es[0].0) == Some(SendIntent(slot)) then 1 else 0)
         + SendsIn(Next(w, slot, es[0].0, es[0].1), slot, es[1..])
  }

  /** A blocked window stays as it is and sends nothing, whatever happens, until a login. */
  lemma {:induction false} BlockedUntilLogin(w: Window, slot: Slot, es: seq<(Event, nat)>)
    requires w.state == AuthBlocked && forall n | 0 <= n < |es| :: !es[n].0.LoginSeen?
    ensures After(w, slot, es) == w && SendsIn(w, slot, es) == 0
    decreases |es|
  {
    if es != [] {
      assert !es[0].0.LoginSeen?;
      BlockedUntilLogin(w, slot, es[1..]);
    }
  }

  predicate Rearms(e: Event) {
    e.Deadline? || e.LoginSeen? || e.RosterConfirmed?
  }

  /** One check, one send at most: until a deadline passes, a login is seen or the roster is
      confirmed, a window sends at most once, and only if it was up for a check. */
  lemma {:induction false} AtMostOneSend(w: Window, slot: Slot, es: seq<(Event, nat)>)
    requires forall n | 0 <= n < |es| :: !Rearms(es[n].0)
    ensures SendsIn(w, slot, es) <= if w.state == PendingCheck then 1 else 0
    decreases |es|
  {
    if es != [] {
      var e, u := es[0].0, Next(w, slot, es[0].0, es[0].1);
      assert !Rearms(e);
      AtMostOneSend(u, slot, es[1..]);
      SendsExactlyOnStrictEvidence(w, slot, e, es[0].1);
      NoneRearmed(w, slot, e, es[0].1);
      hide Next, IntentOf;
    }
  }

  lemma NoneRearmed(w: Window, slot: Slot, e: Event, attempt: nat)
    requires !Rearms(e)
    ensures Next(w, slot, e, attempt).state == PendingCheck ==> w.state == PendingCheck
  {
    hide Classify, Unauthorized, Rebases;
  }
}
