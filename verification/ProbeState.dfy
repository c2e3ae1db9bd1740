/** The two-window state machine that decides when an activation may be sent. */
module ProbeState {
  import opened Basics
  import opened ProbeClassify

  datatype Slot = FiveHourSlot | LongSlot

  datatype WindowState =
    | Idle | WaitingReset | PendingCheck | SentAwaitingVerify | SentUnknown
    | RetryWait | Confirmed | AuthBlocked | AnomalyHold | WaitingRoster

  /** An attempt of zero is none. */
  datatype Window = Window(state: WindowState, baseline: Baseline, deadline: int, retryCount: nat, attempt: nat)

  datatype Event =
    | Deadline(now: int)
    | Precheck(now: int, snapshots: map<Slot, Snapshot>, interval: int)
    | Verify(now: int, snapshots: map<Slot, Snapshot>, interval: int)
    | AuthFailed
    | LoginSeen
    | RosterConfirmed(now: int, interval: int)

  datatype Intent = PrecheckIntent(slot: Slot) | SendIntent(slot: Slot)

  // ---- Deadlines ----

  function DeadlineFor(b: Baseline, now: int, interval: int): int {
    if b.kind.UsageOnly? then b.nextRecheckAt
    else if b.resetAt == 0 then now
    else
      var maturity := b.resetAt + AFTER_RESET;
      if b.length <= 0 || interval <= 0 || now + interval >= maturity then maturity else now + interval
  }

  function ObservationDeadline(b: Baseline, now: int, interval: int): int {
    var d := DeadlineFor(b, now, interval);
    if d > now then d else now + (if interval <= 0 then RECHECK else interval)
  }

  function Backoff(n: nat): int {
    if n <= 1 then MINUTE else if n == 2 then 5 * MINUTE else 15 * MINUTE
  }

  // ---- Evidence ----

  predicate LegacyCompatible(slot: Slot, base: Baseline, snap: Snapshot) {
    && base.length > 0 && !snap.windowKind.NoKind? && snap.lengthKnown && snap.length > 0
    && Abs(snap.length - base.length) <= SKEW
    && (if slot.FiveHourSlot? then snap.windowKind.FiveHour? else snap.windowKind.Weekly? || snap.windowKind.Monthly?)
  }

  predicate Comparable(base: Baseline, snap: Snapshot) {
    base.kind.ResetBaseline? && snap.valid && snap.resetAt.Some? && snap.usage.Some?
  }

  predicate Shifted(base: Baseline, snap: Snapshot)
    requires snap.resetAt.Some?
  {
    snap.resetAt.value > base.resetAt + SKEW
  }

  function WithKind(slot: Slot, base: Baseline, snap: Snapshot): Baseline {
    if Comparable(base, snap) && base.windowKind.NoKind? && LegacyCompatible(slot, base, snap)
    then base.(windowKind := snap.windowKind) else base
  }

  predicate Authorized(slot: Slot, base: Baseline, snap: Snapshot, now: int) {
    && Comparable(base, snap)
    && (Shifted(base, snap) || base.suspectedLazy)
    && !WithKind(slot, base, snap).windowKind.NoKind? && snap.windowKind == WithKind(slot, base, snap).windowKind
    && snap.lengthKnown && StrictLazy(now, snap.usage.value, snap.resetAt.value, snap.length)
  }

  function Suspect(base: Baseline, snap: Snapshot): Baseline
    requires snap.resetAt.Some? && snap.usage.Some?
  {
    base.(resetAt := snap.resetAt.value, usage := snap.usage.value, suspectedLazy := true)
  }

  predicate Rebases(base: Baseline, snap: Snapshot, now: int) {
    && Comparable(base, snap) && snap.usage.value == 0.0 && Shifted(base, snap)
    && (base.length > 0 ==> snap.resetAt.value - base.resetAt > 2 * base.length)
    && (base.length == 0 ==> snap.resetAt.value - base.resetAt > MAX_PLAUSIBLE)
    && (!base.windowKind.NoKind? ==> snap.windowKind == base.windowKind)
    && StrictLazy(now, snap.usage.value, snap.resetAt.value,
                  if snap.lengthKnown && snap.length > 0 then snap.length else base.length)
  }

  // ---- One window, one event ----

  /** The baseline a precheck's classification starts from. */
  function PrecheckBaseline(slot: Slot, base: Baseline, snap: Snapshot, now: int): Baseline {
    var b := WithKind(slot, base, snap);
    if Authorized(slot, base, snap, now) then Suspect(b, snap) else b
  }

  /** Lazy, ambiguous or shifted to zero, but without the strict evidence. */
  predicate Unauthorized(slot: Slot, base: Baseline, snap: Snapshot, now: int) {
    var cl := Classify(PrecheckBaseline(slot, base, snap, now), snap, now);
    && !Authorized(slot, base, snap, now)
    && (cl.kind.StillLazy? || cl.kind.Ambiguous?
        || (cl.kind.ActivatedNew? && Comparable(base, snap) && Shifted(base, snap) && snap.usage.value == 0.0))
  }

  function Retried(w: Window, now: int): Window {
    w.(state := RetryWait, retryCount := w.retryCount + 1, deadline := now + Backoff(w.retryCount + 1))
  }

  function Prechecked(slot: Slot, w: Window, snap: Snapshot, now: int, interval: int, attempt: nat): Window {
    var cl := Classify(PrecheckBaseline(slot, w.baseline, snap, now), snap, now);
    var u := w.(baseline := cl.baseline);
    if Unauthorized(slot, w.baseline, snap, now) then
      var b := cl.baseline.(suspectedLazy := false);
      u.(baseline := b, state := WaitingReset, attempt := 0, deadline := ObservationDeadline(b, now, interval))
    else match cl.kind
      case ActivatedNew => u.(state := Confirmed, deadline := 0)
      case ActivatedInferred => u.(state := Confirmed, deadline := 0)
      case NotDueYet => u.(state := WaitingReset, deadline := DeadlineFor(cl.baseline, now, interval))
      case Anomaly => u.(state := AnomalyHold, deadline := now + RECHECK)
      case StillLazy => u.(state := SentAwaitingVerify, attempt := attempt)
      case Ambiguous => u.(state := SentAwaitingVerify, attempt := attempt)
      case Invalid => Retried(u, now)
  }

  predicate Sends(slot: Slot, w: Window, snap: Snapshot, now: int) {
    var cl := Classify(PrecheckBaseline(slot, w.baseline, snap, now), snap, now);
    !Unauthorized(slot, w.baseline, snap, now) && (cl.kind.StillLazy? || cl.kind.Ambiguous?)
  }

  function Verified(w: Window, snap: Snapshot, now: int, interval: int): Window {
    var cl := Classify(if Rebases(w.baseline, snap, now) then Suspect(w.baseline, snap) else w.baseline, snap, now);
    var u := w.(baseline := cl.baseline);
    match cl.kind
    case ActivatedNew => u.(state := Confirmed, deadline := 0)
    case ActivatedInferred => u.(state := Confirmed, deadline := 0)
    case NotDueYet => u.(state := WaitingReset, deadline := DeadlineFor(cl.baseline, now, interval))
    case Anomaly => u.(state := AnomalyHold, deadline := now + RECHECK)
    case _ => Retried(u, now)
  }

  predicate Due(w: Window, now: int) {
    (w.state.WaitingReset? || w.state.RetryWait? || w.state.AnomalyHold?) && w.deadline <= now
  }

  /** The window takes part in the event. */
  predicate Accepts(w: Window, slot: Slot, e: Event) {
    match e
    case Deadline(now) => Due(w, now)
    case Precheck(_, snaps, _) => w.state.PendingCheck? && slot in snaps
    case Verify(_, snaps, _) => (w.state.SentAwaitingVerify? || w.state.SentUnknown?) && slot in snaps
    case AuthFailed => !w.state.Idle?
    case LoginSeen => w.state.AuthBlocked?
    case RosterConfirmed(_, _) => w.state.WaitingRoster?
  }

  function Next(w: Window, slot: Slot, e: Event, attempt: nat): Window {
    if !Accepts(w, slot, e) then w
    else match e
      case Deadline(_) => w.(state := PendingCheck, deadline := 0)
      case Precheck(now, snaps, interval) => Prechecked(slot, w, snaps[slot], now, interval, attempt)
      case Verify(now, snaps, interval) => Verified(w, snaps[slot], now, interval)
      case AuthFailed => w.(state := AuthBlocked)
      case LoginSeen => w.(state := PendingCheck)
      case RosterConfirmed(now, interval) =>
        if w.baseline.suspectedLazy then w.(state := PendingCheck, deadline := 0)
        else w.(state := WaitingReset, deadline := DeadlineFor(w.baseline, now, interval))
  }

  /** The intent an accepted event leads to. */
  function IntentOf(w: Window, slot: Slot, e: Event): Option<Intent> {
    if !Accepts(w, slot, e) then None
    else match e
      case Deadline(_) => Some(PrecheckIntent(slot))
      case Precheck(now, snaps, _) => if Sends(slot, w, snaps[slot], now) then Some(SendIntent(slot)) else None
      case _ => None
  }

  // ---- A send needs strict evidence, and strict evidence sends ----

  /** The precheck shows an unused window whose clock has not started, told from the outside:
      nothing used, a reset one full and known length ahead, of the kind the baseline is
      about, and either already suspected or moved forward since the baseline. */
  predicate StrictEvidence(slot: Slot, base: Baseline, snap: Snapshot, now: int) {
    && base.kind.ResetBaseline? && snap.valid && snap.usage == Some(0.0) && snap.resetAt.Some?
    && now != 0 && snap.resetAt.value != 0 && snap.lengthKnown && snap.length > 0
    && now + snap.length - 3 * MINUTE <= snap.resetAt.value <= now + snap.length + 3 * MINUTE
    && (base.suspectedLazy || snap.resetAt.value > base.resetAt + 120 * SECOND)
    && (if base.windowKind.NoKind? then
          && base.length > 0 && base.length - 120 * SECOND <= snap.length <= base.length + 120 * SECOND
          && snap.windowKind in (if slot == FiveHourSlot then {FiveHour} else {Weekly, Monthly})
        else snap.windowKind == base.windowKind)
  }

  lemma AuthorizedMeans(slot: Slot, base: Baseline, snap: Snapshot, now: int)
    ensures Authorized(slot, base, snap, now) <==> StrictEvidence(slot, base, snap, now)
  {}

  lemma AuthorizedIsLazy(slot: Slot, base: Baseline, snap: Snapshot, now: int)
    requires Authorized(slot, base, snap, now)
    ensures Classify(PrecheckBaseline(slot, base, snap, now), snap, now).kind.StillLazy?
  {}

  /** A send is emitted, and the window awaits its verification, exactly when a pending
      window meets strict evidence. */
  lemma SendsExactlyOnStrictEvidence(w: Window, slot: Slot, e: Event, attempt: nat)
    ensures IntentOf(w, slot, e) == Some(SendIntent(slot)) <==>
            e.Precheck? && w.state.PendingCheck? && slot in e.snapshots
            && StrictEvidence(slot, w.baseline, e.snapshots[slot], e.now)
    ensures IntentOf(w, slot, e) == Some(SendIntent(slot)) <==>
            !w.state.SentAwaitingVerify? && Next(w, slot, e, attempt).state.SentAwaitingVerify?
  {
    if e.Precheck? && slot in e.snapshots {
      AuthorizedMeans(slot, w.baseline, e.snapshots[slot], e.now);
      if Authorized(slot, w.baseline, e.snapshots[slot], e.now) {
        AuthorizedIsLazy(slot, w.baseline, e.snapshots[slot], e.now);
      }
    }
  }

  /** Any other precheck that looks lazy or ambiguous goes back to read-only waiting. */
  lemma OtherwiseReadOnly(w: Window, slot: Slot, snap: Snapshot, now: int, interval: int, attempt: nat)
    requires !StrictEvidence(slot, w.baseline, snap, now)
    requires var k := Classify(WithKind(slot, w.baseline, snap), snap, now).kind; k.StillLazy? || k.Ambiguous?
    ensures var u := Prechecked(slot, w, snap, now, interval, attempt);
            u.state.WaitingReset? && u.attempt == 0 && u.deadline > now && !u.baseline.suspectedLazy
  {
    AuthorizedMeans(slot, w.baseline, snap, now);
  }

  // ---- No spinning ----

  predicate Rests(w: Window, now: int) {
    || w.state.Confirmed? || w.state.SentAwaitingVerify?
    || ((w.state.WaitingReset? || w.state.RetryWait? || w.state.AnomalyHold?) && w.deadline > now)
  }

  /** A classification that says "not due yet" comes with a later deadline. The clock is at
      least a minute past the unset time. */
  lemma NotDueIsLater(base: Baseline, snap: Snapshot, now: int, interval: int)
    requires now >= MINUTE && Classify(base, snap, now).kind.NotDueYet?
    ensures DeadlineFor(Classify(base, snap, now).baseline, now, interval) > now
  {}

  /** After a precheck or verify event an accepting window rests: nothing is due right away. */
  lemma ResultsRest(w: Window, slot: Slot, e: Event, attempt: nat)
    requires (e.Precheck? || e.Verify?) && e.now >= MINUTE && Accepts(w, slot, e)
    ensures Rests(Next(w, slot, e, attempt), e.now)
  {
    var snap := e.snapshots[slot];
    var b := if e.Precheck? then PrecheckBaseline(slot, w.baseline, snap, e.now)
             else if Rebases(w.baseline, snap, e.now) then Suspect(w.baseline, snap) else w.baseline;
    if Classify(b, snap, e.now).kind.NotDueYet? { NotDueIsLater(b, snap, e.now, e.interval); }
    hide Classify, DeadlineFor, Authorized, Rebases, Comparable, Suspect, WithKind;
  }

  /** A deadline leads to one precheck; the window is not due again before a result arrives. */
  lemma DeadlineOnce(w: Window, slot: Slot, now: int, attempt: nat, later: int)
    requires Due(w, now)
    ensures var u := Next(w, slot, Deadline(now), attempt);
            IntentOf(w, slot, Deadline(now)) == Some(PrecheckIntent(slot)) && !Due(u, later)
            && IntentOf(u, slot, Deadline(later)) == None && Next(u, slot, Deadline(later), attempt) == u
  {}

  // ---- The controller ----

  predicate Waiting(w: Window) {
    (w.state.WaitingReset? || w.state.RetryWait? || w.state.AnomalyHold?) && w.deadline != 0
  }

  predicate Concerns(only: Option<Slot>, slot: Slot) {
    only == None || only == Some(slot)
  }

  function Find(windows: map<Instance, map<Slot, Window>>, i: Instance, slot: Slot): Option<Window> {
    if i in windows && slot in windows[i] then Some(windows[i][slot]) else None
  }

  lemma RemovedFinds(before: map<Instance, map<Slot, Window>>, i: Instance, slot: Slot,
                     after: map<Instance, map<Slot, Window>>)
    requires i in before
    requires var ws := before[i] - {slot}; after == if ws == map[] then before - {i} else before[i := ws]
    ensures Find(after, i, slot) == None
    ensures forall j, k | j != i || k != slot :: Find(after, j, k) == Find(before, j, k)
  {
    var ws := before[i] - {slot};
    forall j, k | j != i || k != slot ensures Find(after, j, k) == Find(before, j, k) {
      if j == i && k in before[i] { assert k in ws; }
    }
  }

  class ProbeController {
    var windows: map<Instance, map<Slot, Window>>
    var lastAttempt: nat

    constructor ()
      ensures windows == map[] && lastAttempt == 0
    {
      windows, lastAttempt := map[], 0;
    }

    /** What the controller holds for one window of one instance. */
    function WindowOf(i: Instance, slot: Slot): Option<Window>
      reads this
    {
      Find(windows, i, slot)
    }

    /** An instance is kept only as long as it has a window. */
    ghost predicate NoneEmpty()
      reads this
    {
      forall i | i in windows :: windows[i] != map[]
    }

    /** A lookup afterwards finds the window set, and every other lookup what it found before. */
    method SetWindow(i: Instance, slot: Slot, w: Window)
      modifies this`windows
      ensures WindowOf(i, slot) == Some(w)
      ensures forall j, k | j != i || k != slot :: WindowOf(j, k) == old(WindowOf(j, k))
      ensures old(NoneEmpty()) ==> NoneEmpty()
    {
      windows := windows[i := (if i in windows then windows[i] else map[])[slot := w]];
    }

    method RemoveWindow(i: Instance, slot: Slot)
      modifies this`windows
      ensures WindowOf(i, slot) == None
      ensures forall j, k | j != i || k != slot :: WindowOf(j, k) == old(WindowOf(j, k))
      ensures old(NoneEmpty()) ==> NoneEmpty()
    {
      ghost var before := windows;
      if i in windows {
        var ws := windows[i] - {slot};
        windows := if ws == map[] then windows - {i} else windows[i := ws];
        RemovedFinds(before, i, slot, windows);
      }
    }

    /** An instance that is gone takes all its windows along, and no other's. */
    method RemoveInstance(i: Instance)
      modifies this`windows
      ensures forall k :: WindowOf(i, k) == None
      ensures forall j, k | j != i :: WindowOf(j, k) == old(WindowOf(j, k))
      ensures old(NoneEmpty()) ==> NoneEmpty()
    {
      windows := windows - {i};
    }

    /** One event for one instance, or for one of its windows. Each window moves by itself;
        `ids` names the attempt a sending window was given, a new one for each. */
    method Advance(i: Instance, e: Event, only: Option<Slot>) returns (out: seq<Intent>, ghost ids: map<Slot, nat>)
      modifies this
      ensures i !in old(windows) ==> out == [] && windows == old(windows) && lastAttempt == old(lastAttempt)
      ensures i in old(windows) ==> i in windows && windows == old(windows)[i := windows[i]]
      ensures i in old(windows) ==> Moved(old(windows)[i], old(windows)[i].Keys, e, only, ids, windows[i])
      ensures i in old(windows) ==> Emitted(old(windows)[i], old(windows)[i].Keys, e, only, out)
      ensures Numbered(out, ids, old(lastAttempt), lastAttempt)
    {
      if i !in windows {
        return [], map[];
      }
      var ws;
      var last;
      ws, out, last, ids := AdvanceAll(windows[i], e, only, lastAttempt);
      windows := windows[i := ws];
      lastAttempt := last;
    }

    /** The earliest deadline any window waits for; zero when none does. */
    method NextDeadline() returns (d: int)
      ensures d == 0 <==> forall i, k | i in windows && k in windows[i] :: !Waiting(windows[i][k])
      ensures d != 0 ==> exists i, k ::
        i in windows && k in windows[i] && Waiting(windows[i][k]) && windows[i][k].deadline == d
      ensures d != 0 ==> forall i, k | i in windows && k in windows[i] && Waiting(windows[i][k]) ::
        d <= windows[i][k].deadline
    {
      d := 0;
      var todo := windows.Keys;
      while todo != {}
        invariant todo <= windows.Keys
        invariant d == 0 <==> forall i, k | i in windows && i !in todo && k in windows[i] :: !Waiting(windows[i][k])
        invariant d != 0 ==> exists i, k ::
          i in windows && k in windows[i] && Waiting(windows[i][k]) && windows[i][k].deadline == d
        invariant d != 0 ==> forall i, k | i in windows && i !in todo && k in windows[i] && Waiting(windows[i][k]) ::
          d <= windows[i][k].deadline
        decreases todo
      {
        var i :| i in todo;
        var e := EarliestOf(windows[i]);
        if e != 0 && (d == 0 || e < d) {
          d := e;
        }
        todo := todo - {i};
      }
    }
  }

  /** The windows of the slots done so far have taken the event, the others are untouched. */
  ghost predicate Moved(before: map<Slot, Window>, done: set<Slot>, e: Event, only: Option<Slot>,
                        ids: map<Slot, nat>, ws: map<Slot, Window>) {
    && ws.Keys == before.Keys && ids.Keys == done && done <= before.Keys
    && forall k | k in before ::
         ws[k] == if k in done && only in {None, Some(k)} then Next(before[k], k, e, ids[k]) else before[k]
  }

  /** The intents are those of the slots done so far, one for each at most. */
  ghost predicate Emitted(before: map<Slot, Window>, done: set<Slot>, e: Event, only: Option<Slot>, out: seq<Intent>) {
    && (forall k | k in before && k in done && only in {None, Some(k)} && IntentOf(before[k], k, e).Some? ::
          IntentOf(before[k], k, e).value in out)
    && (forall n | 0 <= n < |out| ::
          && out[n].slot in before && out[n].slot in done && only in {None, Some(out[n].slot)}
          && IntentOf(before[out[n].slot], out[n].slot, e) == Some(out[n]))
    && (forall m, n | 0 <= m < n < |out| :: out[m].slot != out[n].slot)
  }

  /** Every send has an attempt number of its own above all earlier ones. */
  ghost predicate Numbered(out: seq<Intent>, ids: map<Slot, nat>, lo: nat, hi: nat) {
    && lo <= hi
    && (forall n | 0 <= n < |out| && out[n].SendIntent? :: out[n].slot in ids && lo < ids[out[n].slot] <= hi)
    && (forall m, n | 0 <= m < n < |out| && out[m].SendIntent? && out[n].SendIntent? ::
         ids[out[m].slot] < ids[out[n].slot])
  }

  lemma EmittedAdd(before: map<Slot, Window>, done: set<Slot>, e: Event, only: Option<Slot>, out: seq<Intent>, k: Slot)
    requires Emitted(before, done, e, only, out) && k in before && k !in done
    ensures var intent := if Concerns(only, k) then IntentOf(before[k], k, e) else None;
            Emitted(before, done + {k}, e, only, if intent.Some? then out + [intent.value] else out)
  {
    IntentSlot(before[k], k, e);
    hide IntentOf;
  }

  lemma NumberedAdd(out: seq<Intent>, ids: map<Slot, nat>, lo: nat, hi: nat, k: Slot, intent: Option<Intent>)
    requires Numbered(out, ids, lo, hi) && (forall n | 0 <= n < |out| :: out[n].slot != k)
    requires intent.Some? ==> intent.value.slot == k
    ensures var hi' := if intent.Some? && intent.value.SendIntent? then hi + 1 else hi;
            Numbered(if intent.Some? then out + [intent.value] else out, ids[k := hi'], lo, hi')
  {}

  method AdvanceAll(before: map<Slot, Window>, e: Event, only: Option<Slot>, last: nat)
    returns (ws: map<Slot, Window>, out: seq<Intent>, hi: nat, ghost ids: map<Slot, nat>)
    ensures Moved(before, before.Keys, e, only, ids, ws) && Emitted(before, before.Keys, e, only, out)
    ensures Numbered(out, ids, last, hi)
  {
    hide Next, IntentOf, Emitted, Numbered, Moved;
    ws, out, hi, ids := before, [], last, map[];
    var todo := before.Keys;
    ghost var done: set<Slot> := {};
    NothingYet(before, e, only, last);
    while todo != {}
      invariant todo + done == before.Keys && todo !! done
      invariant Moved(before, done, e, only, ids, ws) && Emitted(before, done, e, only, out)
      invariant Numbered(out, ids, last, hi)
      decreases todo
    {
      var k :| k in todo;
      IntentSlot(before[k], k, e);
      EmittedSlots(before, done, e, only, out);
      MovedKeys(before, done, e, only, ids, ws, k);
      EmittedAdd(before, done, e, only, out, k);
      var intent := if Concerns(only, k) then IntentOf(ws[k], k, e) else None;
      NumberedAdd(out, ids, last, hi, k, intent);
      if intent.Some? {
        if intent.value.SendIntent? {
          hi := hi + 1;
        }
        out := out + [intent.value];
      }
      MovedAdd(before, done, e, only, ids, ws, k, hi);
      if Concerns(only, k) {
        ws := ws[k := Next(ws[k], k, e, hi)];
      }
      ids := ids[k := hi];
      todo, done := todo - {k}, done + {k};
    }
    assert done == before.Keys;
  }

  lemma MovedKeys(before: map<Slot, Window>, done: set<Slot>, e: Event, only: Option<Slot>,
                  ids: map<Slot, nat>, ws: map<Slot, Window>, k: Slot)
    requires Moved(before, done, e, only, ids, ws) && k in before && k !in done
    ensures k in ws && ws[k] == before[k]
  {}

  lemma MovedAdd(before: map<Slot, Window>, done: set<Slot>, e: Event, only: Option<Slot>,
                 ids: map<Slot, nat>, ws: map<Slot, Window>, k: Slot, hi: nat)
    requires Moved(before, done, e, only, ids, ws) && k in before && k !in done
    ensures Moved(before, done + {k}, e, only, ids[k := hi],
              if Concerns(only, k) then ws[k := Next(before[k], k, e, hi)] else ws)
  {
    hide Next;
  }

  lemma NothingYet(before: map<Slot, Window>, e: Event, only: Option<Slot>, last: nat)
    ensures Moved(before, {}, e, only, map[], before)
    ensures Emitted(before, {}, e, only, []) && Numbered([], map[], last, last)
  {}

  lemma EmittedSlots(before: map<Slot, Window>, done: set<Slot>, e: Event, only: Option<Slot>, out: seq<Intent>)
    requires Emitted(before, done, e, only, out)
    ensures forall n | 0 <= n < |out| :: out[n].slot in done
  {}

  method EarliestOf(ws: map<Slot, Window>) returns (d: int)
    ensures d == 0 <==> forall k | k in ws :: !Waiting(ws[k])
    ensures d != 0 ==> exists k :: k in ws && Waiting(ws[k]) && ws[k].deadline == d
    ensures d != 0 ==> forall k | k in ws && Waiting(ws[k]) :: d <= ws[k].deadline
  {
    d := 0;
    var todo := ws.Keys;
    while todo != {}
      invariant todo <= ws.Keys
      invariant d == 0 <==> forall k | k in ws && k !in todo :: !Waiting(ws[k])
      invariant d != 0 ==> exists k :: k in ws && Waiting(ws[k]) && ws[k].deadline == d
      invariant d != 0 ==> forall k | k in ws && k !in todo && Waiting(ws[k]) :: d <= ws[k].deadline
      decreases todo
    {
      var k :| k in todo;
      if Waiting(ws[k]) && (d == 0 || ws[k].deadline < d) {
        d := ws[k].deadline;
      }
      todo := todo - {k};
    }
  }

  lemma IntentSlot(w: Window, slot: Slot, e: Event)
    ensures IntentOf(w, slot, e).Some? ==> IntentOf(w, slot, e).value.slot == slot
  {}
}
