/** Classification of a quota window: has it been activated since the baseline was taken?
    Times and durations count nanoseconds; a time of zero is unset. Usage is a percentage. */
module ProbeClassify {
  import opened Basics

  const SECOND: int := 1_000_000_000
  const MINUTE: int := 60 * SECOND
  const SKEW: int := 120 * SECOND
  const MAX_PLAUSIBLE: int := 120 * 24 * 60 * MINUTE
  const RECHECK: int := 30 * MINUTE
  const AFTER_RESET: int := MINUTE
  const CLOSE: int := 3 * MINUTE

  datatype WindowKind = NoKind | FiveHour | Weekly | Monthly | OtherKind

  datatype BaselineKind = NoBaseline | ResetBaseline | UsageOnly

  datatype Baseline = Baseline(
    kind: BaselineKind,
    windowKind: WindowKind,
    resetAt: int,
    usage: real,
    nextRecheckAt: int,
    length: int,
    candidateLength: int,
    stableIntervals: nat,
    suspectedLazy: bool)

  datatype Snapshot = Snapshot(
    valid: bool,
    resetAt: Option<int>,
    usage: Option<real>,
    windowKind: WindowKind,
    length: int,
    lengthKnown: bool)

  datatype Kind = Invalid | ActivatedNew | ActivatedInferred | NotDueYet | StillLazy | Ambiguous | Anomaly

  datatype Classification = Classification(kind: Kind, baseline: Baseline, lengthUnknown: bool)

  function Abs(x: int): int {
    if x < 0 then -x else x
  }

  function Plain(kind: Kind, base: Baseline): Classification {
    Classification(kind, base, false)
  }

  function ResetFrom(snap: Snapshot): Baseline
    requires snap.resetAt.Some? && snap.usage.Some?
  {
    Baseline(ResetBaseline, snap.windowKind, snap.resetAt.value, snap.usage.value, 0,
             if snap.lengthKnown then snap.length else 0, 0, 0, false)
  }

  predicate UsageActivated(before: real, after: real) {
    before > 0.0 && after == 0.0
  }

  /** The reset lies implausibly far behind or ahead of the baseline's. */
  predicate Implausible(base: Baseline, reset: int) {
    || reset < base.resetAt - SKEW
    || (base.length > 0 && reset - base.resetAt > 2 * base.length)
    || (base.length == 0 && reset - base.resetAt > MAX_PLAUSIBLE)
  }

  /** A window under suspicion; None leaves the decision to the ordinary rules. */
  function ClassifySuspected(base: Baseline, snap: Snapshot): Option<Classification>
    requires snap.usage.Some?
  {
    var usage := snap.usage.value;
    if snap.resetAt.Some? && Implausible(base, snap.resetAt.value) then Some(Plain(Anomaly, base))
    else if snap.resetAt.Some? && snap.resetAt.value > base.resetAt + SKEW then
      Some(Plain(ActivatedNew, base.(resetAt := snap.resetAt.value, usage := usage, suspectedLazy := false)))
    else if usage > 0.0 then Some(Plain(ActivatedInferred, base.(usage := usage, suspectedLazy := false)))
    else if snap.resetAt.Some? && Abs(snap.resetAt.value - base.resetAt) <= SKEW then Some(Plain(StillLazy, base))
    else None
  }

  function FirstSight(snap: Snapshot, now: int): Classification
    requires snap.resetAt.Some? && snap.usage.Some?
  {
    Plain(if snap.resetAt.value > now then NotDueYet else StillLazy, ResetFrom(snap))
  }

  function ClassifyUsageOnly(base: Baseline, snap: Snapshot, now: int): Classification
    requires snap.usage.Some?
  {
    var usage := snap.usage.value;
    if snap.resetAt.Some? then FirstSight(snap, now)
    else if UsageActivated(base.usage, usage) then
      Plain(ActivatedInferred, base.(usage := usage, nextRecheckAt := now + RECHECK, suspectedLazy := false))
    else if now < base.nextRecheckAt then Plain(NotDueYet, base)
    else Plain(NotDueYet, base.(nextRecheckAt := now + RECHECK))
  }

  /** A later reset: the window started anew. Its length is learned from two intervals that agree. */
  function Learned(base: Baseline, reset: int, usage: real): Classification {
    var delta := reset - base.resetAt;
    var n := base.(resetAt := reset, usage := usage, suspectedLazy := false);
    var m :=
      if n.length != 0 then n
      else if n.candidateLength > 0 && Abs(n.candidateLength - delta) <= SKEW then
        var stable := n.stableIntervals + 1;
        n.(stableIntervals := stable, length := if stable >= 2 then delta else 0)
      else n.(candidateLength := delta, stableIntervals := 1);
    Classification(ActivatedNew, m, m.length == 0)
  }

  function ClassifyReset(base: Baseline, snap: Snapshot, now: int): Classification
    requires snap.usage.Some?
  {
    var usage := snap.usage.value;
    if snap.resetAt.Some? && Implausible(base, snap.resetAt.value) then Plain(Anomaly, base)
    else if snap.resetAt.Some? && snap.resetAt.value > base.resetAt + SKEW then Learned(base, snap.resetAt.value, usage)
    else if now < base.resetAt + AFTER_RESET then Plain(NotDueYet, base)
    else if snap.resetAt.None? then
      if UsageActivated(base.usage, usage) then Plain(ActivatedInferred, base.(usage := usage, suspectedLazy := false))
      else Plain(Ambiguous, base)
    else if Abs(snap.resetAt.value - base.resetAt) <= SKEW && !UsageActivated(base.usage, usage)
    then Plain(StillLazy, base)
    else Plain(Ambiguous, base)
  }

  function ClassifyPlain(base: Baseline, snap: Snapshot, now: int): Classification
    requires snap.usage.Some?
  {
    match base.kind
    case NoBaseline =>
      if snap.resetAt.Some? then FirstSight(snap, now)
      else Plain(NotDueYet, Baseline(UsageOnly, NoKind, 0, snap.usage.value, now + RECHECK, 0, 0, 0, false))
    case UsageOnly => ClassifyUsageOnly(base, snap, now)
    case ResetBaseline => ClassifyReset(base, snap, now)
  }

  function Classify(base: Baseline, snap: Snapshot, now: int): Classification {
    if !snap.valid || snap.usage.None? then Plain(Invalid, base)
    else
      var early := if base.suspectedLazy then ClassifySuspected(base, snap) else None;
      if early.Some? then early.value else ClassifyPlain(base, snap, now)
  }

  /** Zero usage and a reset one window length ahead: the clock of the window is not running. */
  predicate StrictLazy(observedAt: int, usage: real, reset: int, length: int) {
    usage == 0.0 && observedAt != 0 && reset != 0 && length > 0 && Abs(reset - (observedAt + length)) <= CLOSE
  }

  // ---- What a classification rests on ----

  /** Activation is never concluded from a reset behind the baseline or implausibly ahead,
      and never without a forward move of the reset or a change of usage. */
  lemma ActivationEvidence(base: Baseline, snap: Snapshot, now: int)
    requires base.kind.ResetBaseline?
    ensures var c := Classify(base, snap, now);
            c.kind.ActivatedNew? || c.kind.ActivatedInferred? ==>
              && snap.valid && snap.usage.Some? && !c.baseline.suspectedLazy
              && (snap.resetAt.Some? ==> !Implausible(base, snap.resetAt.value))
              && (c.kind.ActivatedNew? <==> snap.resetAt.Some? && snap.resetAt.value > base.resetAt + SKEW)
              && (c.kind.ActivatedInferred? ==> snap.usage.value != base.usage || base.suspectedLazy)
  {}

  /** A window length is learned only from two consecutive intervals that agree within the skew. */
  lemma LengthNeedsTwoIntervals(base: Baseline, snap: Snapshot, now: int)
    requires base.kind.ResetBaseline? && base.length == 0 && Classify(base, snap, now).baseline.length != 0
    ensures snap.resetAt.Some? && base.stableIntervals >= 1 && base.candidateLength > 0
    ensures Classify(base, snap, now).baseline.length == snap.resetAt.value - base.resetAt
    ensures Abs(base.candidateLength - (snap.resetAt.value - base.resetAt)) <= SKEW
  {}
}
