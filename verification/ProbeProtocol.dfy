/** The life of probe attempts over every interleaving of claims, sends, roster holds, lease
    expiries, recoveries, crashes and restarts.

    A run is one execution of the probe sequence. Runs of the same attempt may overlap: a
    lease can expire while its executor still works. Every command is one transaction on
    the durable records, or one request sent, or the loss of everything in memory. */
module ProbeProtocol {
  import opened Basics
  import opened ProbeWAL

  datatype Stage =
    | Started                     // holds a prepared attempt
    | Fenced(fence: nat)          // the precheck showed a lazy window; send fence taken
    | Armed(fence: nat)           // the record says sending
    | Posted(fence: nat)
    | Confirmed(fence: nat)       // the record says sent
    | Reading(fence: nat, read: nat)     // verify read begun, after the post
    | Recovering(fence: nat)             // a recovery run, no post of its own
    | RecoveryReading(fence: nat, read: nat)
    | Ended

  datatype Run = Run(instance: Instance, id: nat, stage: Stage)

  datatype State = State(
    records: map<Instance, Attempt>,   // durable
    lastId: nat,                       // durable
    lastFence: nat,                    // the last fence issued; later ones are larger
    runs: seq<Run>,                    // in memory
    armed: set<nat>,                   // ids whose record was ever durably in phase sending
    posts: seq<nat>)                   // every activation request sent, by attempt id

  const Initial := State(map[], 0, 0, [], {}, [])

  datatype Command =
    | Claim(instance: Instance, now: int)                 // the due pass
    | TakeFence(run: nat, skipped: nat)              // precheck lazy
    | NotLazy(run: nat)                              // precheck shows nothing to send
    | FailUnsent(run: nat)
    | ArmSending(run: nat, attempt: Attempt)
    | Post(run: nat)
    | ConfirmSent(run: nat, at: int)
    | FailSent(run: nat, suppress: int)
    | BeginRead(run: nat, skipped: nat)              // verify or recovery read
    | CompleteRead(run: nat)
    | Abandon(run: nat)                              // ends without touching the record
    | Recover(instance: Instance, now: int)
    | Inherit(instance: Instance, id: nat, suppress: int)   // lease expired or result stale
    | Hold(instances: set<Instance>)                 // roster hold
    | DropPrepared(instance: Instance, id: nat)      // prepared attempts found at startup
    | Remove(instances: set<Instance>)               // instances left the roster
    | Crash

  function SetStage(s: State, r: nat, stage: Stage): State
    requires r < |s.runs|
  {
    s.(runs := s.runs[r := s.runs[r].(stage := stage)])
  }

  function StageOf(s: State, r: nat): Stage {
    if r < |s.runs| then s.runs[r].stage else Ended
  }

  /** The stage in which a run takes the step. */
  predicate Enabled(s: State, c: Command) {
    match c
    case TakeFence(r, _) => StageOf(s, r).Started?
    case NotLazy(r) => StageOf(s, r).Started?
    case FailUnsent(r) => StageOf(s, r).Started? || StageOf(s, r).Fenced?
    case ArmSending(r, a) => StageOf(s, r).Fenced? && a.id == s.runs[r].id && a.sendFence == StageOf(s, r).fence
    case Post(r) => StageOf(s, r).Armed?
    case ConfirmSent(r, _) => StageOf(s, r).Posted?
    case FailSent(r, _) => !StageOf(s, r).Started? && !StageOf(s, r).Fenced? && !StageOf(s, r).Ended?
    case BeginRead(r, _) => StageOf(s, r).Confirmed? || StageOf(s, r).Recovering?
    case CompleteRead(r) => StageOf(s, r).Reading? || StageOf(s, r).RecoveryReading?
    case Abandon(r) => r < |s.runs|
    case _ => true
  }

  // ---- The steps ----

  /** An attempt already on record is taken up again only while it is prepared. */
  function Claimed(s: State, i: Instance, now: int): State {
    if i in s.records && s.records[i].id != 0 then
      if s.records[i].phase.Prepared? then s.(runs := s.runs + [Run(i, s.records[i].id, Started)]) else s
    else
      var id := s.lastId + 1;
      s.(records := s.records[i := NewAttempt(id, now)], lastId := id, runs := s.runs + [Run(i, id, Started)])
  }

  /** A run that fails before sending gives a prepared attempt up; a record already sending
      stays, for recovery. */
  function FailedUnsent(s: State, r: nat): State
    requires r < |s.runs|
  {
    SetStage(s, r, Ended).(records := Without(s.records, s.runs[r].instance, s.runs[r].id, {Prepared}))
  }

  function ArmedSending(s: State, r: nat, a: Attempt): State
    requires r < |s.runs|
  {
    var i := s.runs[r].instance;
    if Exact(s.records, i, a.id, {Prepared}) then
      SetStage(s, r, Armed(a.sendFence)).(records := WithSending(s.records, i, a), armed := s.armed + {a.id})
    else FailedUnsent(s, r)
  }

  function FailedSent(s: State, r: nat, suppress: int): State
    requires r < |s.runs|
  {
    SetStage(s, r, Ended).(records := WithUnknown(s.records, s.runs[r].instance, s.runs[r].id, suppress))
  }

  function ConfirmedSent(s: State, r: nat, at: int): State
    requires StageOf(s, r).Posted?
  {
    var i, id := s.runs[r].instance, s.runs[r].id;
    if Exact(s.records, i, id, {Sending}) then
      SetStage(s, r, Confirmed(StageOf(s, r).fence)).(records := WithSent(s.records, i, id, at))
    else FailedSent(s, r, 0)
  }

  function BegunRead(s: State, r: nat, skipped: nat): State
    requires StageOf(s, r).Confirmed? || StageOf(s, r).Recovering?
  {
    var f, q := StageOf(s, r).fence, s.lastFence + skipped + 1;
    var s1 := s.(lastFence := q);
    if q <= f then FailedSent(s1, r, 0)
    else SetStage(s1, r, if StageOf(s, r).Confirmed? then Reading(f, q) else RecoveryReading(f, q))
  }

  function CompletedRead(s: State, r: nat): State
    requires StageOf(s, r).Reading? || StageOf(s, r).RecoveryReading?
  {
    var phases := if StageOf(s, r).Reading? then {Sent} else SentPhases;
    SetStage(s, r, Ended).(records := Without(s.records, s.runs[r].instance, s.runs[r].id, phases))
  }

  function RecoveredOne(s: State, i: Instance, now: int): State {
    if Verifiable(s.records, i, now) && s.records[i].id != 0 && s.records[i].sendFence != 0 then
      s.(records := s.records[i := Recovered(s.records[i], now)],
         runs := s.runs + [Run(i, s.records[i].id, Recovering(s.records[i].sendFence))])
    else s
  }

  function Step(s: State, c: Command): State
    requires Enabled(s, c)
  {
    match c
    case Claim(i, now) => Claimed(s, i, now)
    case TakeFence(r, skipped) =>
      SetStage(s, r, Fenced(s.lastFence + skipped + 1)).(lastFence := s.lastFence + skipped + 1)
    case NotLazy(r) => FailedUnsent(s, r)
    case FailUnsent(r) => FailedUnsent(s, r)
    case ArmSending(r, a) => ArmedSending(s, r, a)
    case Post(r) => SetStage(s, r, Posted(StageOf(s, r).fence)).(posts := s.posts + [s.runs[r].id])
    case ConfirmSent(r, at) => ConfirmedSent(s, r, at)
    case FailSent(r, suppress) => FailedSent(s, r, suppress)
    case BeginRead(r, skipped) => BegunRead(s, r, skipped)
    case CompleteRead(r) => CompletedRead(s, r)
    case Abandon(r) => SetStage(s, r, Ended)
    case Recover(i, now) => RecoveredOne(s, i, now)
    case Inherit(i, id, suppress) => s.(records := WithUnknown(s.records, i, id, suppress))
    case Hold(instances) => s.(records := WithoutPrepared(s.records, instances))
    case DropPrepared(i, id) => s.(records := Without(s.records, i, id, {Prepared}))
    case Remove(instances) => s.(records := s.records - instances)
    case Crash => s.(runs := [])
  }

  predicate Admissible(s: State, cs: seq<Command>)
    decreases |cs|
  {
    cs == [] || (Enabled(s, cs[0]) && Admissible(Step(s, cs[0]), cs[1..]))
  }

  function Exec(s: State, cs: seq<Command>): State
    requires Admissible(s, cs)
    decreases |cs|
  {
    if cs == [] then s else Exec(Step(s, cs[0]), cs[1..])
  }

  // ---- What every step keeps ----

  /** A record with this id, if there is one, is in the state the run's stage says. */
  predicate RunOk(s: State, r: Run) {
    && 0 < r.id <= s.lastId
    && match r.stage
       case Started => true
       case Ended => true
       case Fenced(f) => f > 0
       case Armed(f) => FenceOk(s, r, f) && r.id !in s.posts
       case Posted(f) => FenceOk(s, r, f)
       case Confirmed(f) => FenceOk(s, r, f)
       case Reading(f, q) => FenceOk(s, r, f) && q > f
       case Recovering(f) => FenceOk(s, r, f)
       case RecoveryReading(f, q) => FenceOk(s, r, f) && q > f
  }

  predicate FenceOk(s: State, r: Run, f: nat) {
    && r.id in s.armed && f > 0
    && (r.instance in s.records && s.records[r.instance].id == r.id ==> s.records[r.instance].sendFence == f)
  }

  predicate RecordOk(s: State, a: Attempt) {
    && 0 < a.id <= s.lastId
    && (a.phase.Prepared? <==> a.id !in s.armed)
    && (!a.phase.Prepared? ==> a.sendFence > 0)
  }

  ghost predicate RunsOk(s: State) {
    && (forall n | 0 <= n < |s.runs| :: RunOk(s, s.runs[n]))
    && (forall m, n | 0 <= m < n < |s.runs| && s.runs[m].stage.Armed? && s.runs[n].stage.Armed? ::
         s.runs[m].id != s.runs[n].id)
  }

  ghost predicate RecordsOk(s: State) {
    && (forall i | i in s.records :: RecordOk(s, s.records[i]))
    && (forall i, j | i in s.records && j in s.records && i != j :: s.records[i].id != s.records[j].id)
  }

  ghost predicate PostsOk(s: State) {
    && (forall n | 0 <= n < |s.posts| :: s.posts[n] in s.armed)
    && (forall m, n | 0 <= m < n < |s.posts| :: s.posts[m] != s.posts[n])
    && (forall id | id in s.armed :: id <= s.lastId)
  }

  ghost predicate Inv(s: State) {
    RunsOk(s) && RecordsOk(s) && PostsOk(s)
  }

  /** Nothing was claimed, armed or posted; records at most left or moved on. */
  ghost predicate Calm(s: State, u: State) {
    && u.armed == s.armed && u.posts == s.posts && u.lastId == s.lastId
    && forall i | i in u.records ::
         && i in s.records && u.records[i].id == s.records[i].id && u.records[i].sendFence == s.records[i].sendFence
         && (u.records[i].phase.Prepared? <==> s.records[i].phase.Prepared?)
  }

  lemma CalmInv(s: State, u: State)
    requires Inv(s) && Calm(s, u) && RunsOk(u)
    ensures Inv(u)
  {
    forall i | i in u.records ensures RecordOk(u, u.records[i]) { assert RecordOk(s, s.records[i]); }
  }

  /** The runs stay, except that one may take another stage. */
  lemma CalmRuns(s: State, u: State, r: nat, stage: Stage)
    requires Inv(s) && Calm(s, u) && r < |s.runs| && u.runs == s.runs[r := s.runs[r].(stage := stage)]
    requires !stage.Armed? && RunOk(u, u.runs[r])
    ensures Inv(u)
  {
    forall n | 0 <= n < |u.runs| ensures RunOk(u, u.runs[n]) { if n != r { assert RunOk(s, s.runs[n]); } }
    CalmInv(s, u);
  }

  lemma CalmSameRuns(s: State, u: State)
    requires Inv(s) && Calm(s, u) && u.runs == s.runs
    ensures Inv(u)
  {
    forall n | 0 <= n < |u.runs| ensures RunOk(u, u.runs[n]) { assert RunOk(s, s.runs[n]); }
    CalmInv(s, u);
  }

  lemma ClaimedInv(s: State, i: Instance, now: int)
    requires Inv(s)
    ensures Inv(Claimed(s, i, now))
  {
    var u := Claimed(s, i, now);
    forall n | 0 <= n < |u.runs| ensures RunOk(u, u.runs[n]) {
      if n < |s.runs| { assert RunOk(s, s.runs[n]); } else { assert i in s.records ==> RecordOk(s, s.records[i]); }
    }
    forall j | j in u.records ensures RecordOk(u, u.records[j]) {
      if j in s.records { assert RecordOk(s, s.records[j]); }
    }
    forall j, k | j in u.records && k in u.records && j != k ensures u.records[j].id != u.records[k].id {
      if j in s.records { assert RecordOk(s, s.records[j]); }
      if k in s.records { assert RecordOk(s, s.records[k]); }
    }
  }

  lemma ArmedInv(s: State, r: nat, a: Attempt)
    requires Inv(s) && Enabled(s, ArmSending(r, a)) && Exact(s.records, s.runs[r].instance, a.id, {Prepared})
    ensures Inv(ArmedSending(s, r, a))
  {
    var u := ArmedSending(s, r, a);
    assert RecordOk(s, s.records[s.runs[r].instance]);
    assert RunOk(s, s.runs[r]);
    forall n | 0 <= n < |u.runs| ensures RunOk(u, u.runs[n]) { assert RunOk(s, s.runs[n]); }
    forall i | i in u.records ensures RecordOk(u, u.records[i]) { assert RecordOk(s, s.records[i]); }
  }

  lemma PostInv(s: State, r: nat)
    requires Inv(s) && StageOf(s, r).Armed?
    ensures Inv(Step(s, Post(r)))
  {
    var u := Step(s, Post(r));
    assert RunOk(s, s.runs[r]);
    forall n | 0 <= n < |u.runs| ensures RunOk(u, u.runs[n]) { assert RunOk(s, s.runs[n]); }
    forall i | i in u.records ensures RecordOk(u, u.records[i]) { assert RecordOk(s, s.records[i]); }
  }

  lemma FailedInv(s: State, r: nat, suppress: int)
    requires Inv(s) && r < |s.runs|
    ensures Inv(FailedUnsent(s, r)) && Inv(FailedSent(s, r, suppress)) && Inv(SetStage(s, r, Ended))
  {
    assert RunOk(s, s.runs[r]);
    CalmRuns(s, FailedUnsent(s, r), r, Ended);
    CalmRuns(s, FailedSent(s, r, suppress), r, Ended);
    CalmRuns(s, SetStage(s, r, Ended), r, Ended);
  }

  lemma ConfirmedInv(s: State, r: nat, at: int)
    requires Inv(s) && StageOf(s, r).Posted?
    ensures Inv(ConfirmedSent(s, r, at))
  {
    assert RunOk(s, s.runs[r]);
    FailedInv(s, r, 0);
    if Exact(s.records, s.runs[r].instance, s.runs[r].id, {Sending}) {
      CalmRuns(s, ConfirmedSent(s, r, at), r, Confirmed(StageOf(s, r).fence));
    }
  }

  lemma BegunInv(s: State, r: nat, skipped: nat)
    requires Inv(s) && Enabled(s, BeginRead(r, skipped))
    ensures Inv(BegunRead(s, r, skipped))
  {
    var f, q := StageOf(s, r).fence, s.lastFence + skipped + 1;
    var s1 := s.(lastFence := q);
    CalmSameRuns(s, s1);
    assert RunOk(s1, s1.runs[r]);
    FailedInv(s1, r, 0);
    if q > f {
      var stage := if StageOf(s, r).Confirmed? then Reading(f, q) else RecoveryReading(f, q);
      CalmRuns(s1, BegunRead(s, r, skipped), r, stage);
    }
  }

  lemma RecoveredInv(s: State, i: Instance, now: int)
    requires Inv(s)
    ensures Inv(RecoveredOne(s, i, now))
  {
    var u := RecoveredOne(s, i, now);
    if i in s.records { assert RecordOk(s, s.records[i]); }
    forall n | 0 <= n < |u.runs| ensures RunOk(u, u.runs[n]) {
      if n < |s.runs| { assert RunOk(s, s.runs[n]); }
    }
    CalmInv(s, u);
  }

  lemma StepInv(s: State, c: Command)
    requires Inv(s) && Enabled(s, c)
    ensures Inv(Step(s, c))
  {
    hide Inv, RunOk;
    match c {
      case Claim(i, now) => ClaimedInv(s, i, now);
      case TakeFence(r, skipped) => FencedInv(s, r, skipped);
      case NotLazy(r) => FailedInv(s, r, 0);
      case FailUnsent(r) => FailedInv(s, r, 0);
      case ArmSending(r, a) =>
        if Exact(s.records, s.runs[r].instance, a.id, {Prepared}) { ArmedInv(s, r, a); } else { FailedInv(s, r, 0); }
      case Post(r) => PostInv(s, r);
      case ConfirmSent(r, at) => ConfirmedInv(s, r, at);
      case FailSent(r, suppress) => FailedInv(s, r, suppress);
      case BeginRead(r, skipped) => BegunInv(s, r, skipped);
      case CompleteRead(r) => CompletedInv(s, r);
      case Abandon(r) => FailedInv(s, r, 0);
      case Recover(i, now) => RecoveredInv(s, i, now);
      case Inherit(_, _, _) => CalmSameRuns(s, Step(s, c));
      case Hold(_) => CalmSameRuns(s, Step(s, c));
      case DropPrepared(_, _) => CalmSameRuns(s, Step(s, c));
      case Remove(_) => CalmSameRuns(s, Step(s, c));
      case Crash => CrashInv(s);
    }
  }

  lemma FencedInv(s: State, r: nat, skipped: nat)
    requires Inv(s) && StageOf(s, r).Started?
    ensures Inv(Step(s, TakeFence(r, skipped)))
  {
    var u := Step(s, TakeFence(r, skipped));
    assert RunOk(s, s.runs[r]);
    CalmRuns(s, u, r, Fenced(s.lastFence + skipped + 1));
  }

  lemma CompletedInv(s: State, r: nat)
    requires Inv(s) && Enabled(s, CompleteRead(r))
    ensures Inv(CompletedRead(s, r))
  {
    assert RunOk(s, s.runs[r]);
    CalmRuns(s, CompletedRead(s, r), r, Ended);
  }

  lemma CrashInv(s: State)
    requires Inv(s)
    ensures Inv(s.(runs := []))
  {
    CalmInv(s, s.(runs := []));
  }

  lemma {:induction false} ExecInv(s: State, cs: seq<Command>)
    requires Inv(s) && Admissible(s, cs)
    ensures Inv(Exec(s, cs))
    decreases |cs|
  {
    if cs != [] {
      StepInv(s, cs[0]);
      ExecInv(Step(s, cs[0]), cs[1..]);
    }
  }

  // ---- The protocol's promises ----

  /** In every run of the protocol each attempt id starts at most one activation request,
      and only after its record was durably in phase sending. */
  lemma AtMostOnePost(cs: seq<Command>, m: nat, n: nat)
    requires Admissible(Initial, cs) && m < |Exec(Initial, cs).posts| && n < |Exec(Initial, cs).posts|
    ensures var u := Exec(Initial, cs);
            u.posts[m] in u.armed && (u.posts[m] == u.posts[n] ==> m == n)
  {
    ExecInv(Initial, cs);
  }

  /** An id is armed only by the transaction that writes its record in phase sending, and a
      request is sent only by a run armed before. */
  lemma ArmedByDurableSending(s: State, c: Command)
    requires Inv(s) && Enabled(s, c)
    ensures forall id :: id in Step(s, c).armed && id !in s.armed ==>
              c.ArmSending? && id == c.attempt.id
              && Exact(Step(s, c).records, s.runs[c.run].instance, id, {Sending}) && id !in s.posts
    ensures Step(s, c).posts != s.posts ==> c.Post? && s.runs[c.run].id in s.armed
  {
    match c {
      case Post(r) => assert RunOk(s, s.runs[r]);
      case ArmSending(r, a) => assert RunOk(s, s.runs[r]);
      case _ =>
    }
  }

  /** A record past prepared: it may only have been sent. */
  predicate PastPrepared(s: State, i: Instance) {
    i in s.records && !s.records[i].phase.Prepared?
  }

  /** While it stays, such a record keeps its id and its send fence, and its phase only moves
      forward. It goes only with its instance, or on a read begun after its send fence. */
  lemma RecordsMoveForward(s: State, c: Command, i: Instance)
    requires Inv(s) && Enabled(s, c) && PastPrepared(s, i)
    ensures var u := Step(s, c);
            if i in u.records then
              && u.records[i].id == s.records[i].id && u.records[i].sendFence == s.records[i].sendFence
              && Rank(u.records[i].phase) >= Rank(s.records[i].phase)
              && u.records[i].suppressUntil >= s.records[i].suppressUntil
            else
              || (c.Remove? && i in c.instances)
              || (c.CompleteRead? && s.runs[c.run].id == s.records[i].id
                  && StageOf(s, c.run).read > s.records[i].sendFence)
  {
    assert RecordOk(s, s.records[i]);
    if c.CompleteRead? { assert RunOk(s, s.runs[c.run]); }
  }

  /** The step that ends an attempt's record: its instance goes, or a read begun after the
      send fence completes. */
  predicate EndsAt(s: State, c: Command, i: Instance, id: nat, fence: nat)
    requires Enabled(s, c)
  {
    || (c.Remove? && i in c.instances)
    || (c.CompleteRead? && s.runs[c.run].id == id && StageOf(s, c.run).read > fence)
  }

  predicate EndsWithin(s: State, cs: seq<Command>, i: Instance, id: nat, fence: nat)
    requires Admissible(s, cs)
    decreases |cs|
  {
    cs != [] && (EndsAt(s, cs[0], i, id, fence) || EndsWithin(Step(s, cs[0]), cs[1..], i, id, fence))
  }

  /** Over any continuation, crashes included, a record past prepared is still there, no
      further back and not suppressed for less long, or its instance was removed or it was verified after its send. */
  lemma {:induction false} SentRecordsSurvive(s: State, cs: seq<Command>, i: Instance)
    requires Inv(s) && Admissible(s, cs) && PastPrepared(s, i)
    ensures var u, a := Exec(s, cs), s.records[i];
            || EndsWithin(s, cs, i, a.id, a.sendFence)
            || (i in u.records && u.records[i].id == a.id && u.records[i].sendFence == a.sendFence
                && Rank(u.records[i].phase) >= Rank(a.phase) && u.records[i].suppressUntil >= a.suppressUntil)
    decreases |cs|
  {
    if cs != [] {
      RecordsMoveForward(s, cs[0], i);
      StepInv(s, cs[0]);
      var u := Step(s, cs[0]);
      if i in u.records { SentRecordsSurvive(u, cs[1..], i); }
    }
  }

  // ---- And it gets there ----

  lemma RunCons(s: State, c: Command, u: State, rest: seq<Command>)
    requires Enabled(s, c) && Step(s, c) == u && Admissible(u, rest)
    ensures Admissible(s, [c] + rest) && Exec(s, [c] + rest) == Exec(u, rest)
  {
    assert ([c] + rest)[0] == c && ([c] + rest)[1..] == rest;
  }

  /** The due pass, on an instance without a record: a new attempt under a new id, on record
      as prepared, and a run that holds it. */
  lemma ClaimStarts(s: State, i: Instance, now: int)
    requires Inv(s) && i !in s.records
    ensures var u, r := Step(s, Claim(i, now)), |s.runs|;
            && i in u.records && u.records[i].phase.Prepared? && u.records[i].id == s.lastId + 1 == u.lastId
            && u.records[i].createdAt == now && |u.runs| == r + 1 && u.runs[r] == Run(i, u.lastId, Started)
            && u.posts == s.posts
  {}

  /** One on record is taken up again exactly while it is only prepared. */
  lemma ClaimTakesUp(s: State, i: Instance, now: int)
    requires Inv(s) && i in s.records
    ensures var u := Step(s, Claim(i, now));
            && u.records == s.records && u.lastId == s.lastId
            && u.runs == if s.records[i].phase.Prepared? then s.runs + [Run(i, s.records[i].id, Started)] else s.runs
  {
    assert RecordOk(s, s.records[i]);
  }

  /** An attempt on record as prepared is armed by its run: the record says sending, under the
      fence the run took, suppressed for ten minutes from its creation if for nothing longer. */
  lemma ArmWrites(s: State, r: nat, a: Attempt)
    requires Inv(s) && Enabled(s, ArmSending(r, a))
    ensures var u, i := Step(s, ArmSending(r, a)), s.runs[r].instance;
            if i in s.records && s.records[i].id == a.id && s.records[i].phase.Prepared? then
              && StageOf(u, r) == Armed(StageOf(s, r).fence) && i in u.records
              && u.records[i].id == a.id && u.records[i].phase.Sending? && u.records[i].sendFence == StageOf(s, r).fence
              && u.records[i].suppressUntil ==
                 (if a.suppressUntil == 0 then a.createdAt + TEN_MINUTES else a.suppressUntil)
            else StageOf(u, r).Ended? && u.records == s.records
  {
    assert RunOk(s, s.runs[r]);
  }

  /** Fences in use were issued. */
  predicate FenceOf(stage: Stage, last: nat) {
    match stage
    case Started => true
    case Ended => true
    case Fenced(f) => f <= last
    case Armed(f) => f <= last
    case Posted(f) => f <= last
    case Confirmed(f) => f <= last
    case Reading(f, _) => f <= last
    case Recovering(f) => f <= last
    case RecoveryReading(f, _) => f <= last
  }

  ghost predicate FencesIssued(s: State) {
    && (forall n | 0 <= n < |s.runs| :: FenceOf(s.runs[n].stage, s.lastFence))
    && (forall i | i in s.records :: s.records[i].sendFence <= s.lastFence)
  }

  lemma StepFences(s: State, c: Command)
    requires FencesIssued(s) && Enabled(s, c)
    ensures FencesIssued(Step(s, c)) && s.lastFence <= Step(s, c).lastFence
  {}

  lemma {:induction false} ExecFences(s: State, cs: seq<Command>)
    requires FencesIssued(s) && Admissible(s, cs)
    ensures FencesIssued(Exec(s, cs))
    decreases |cs|
  {
    if cs != [] {
      hide Step, FencesIssued;
      StepFences(s, cs[0]);
      ExecFences(Step(s, cs[0]), cs[1..]);
    }
  }

  lemma FourSteps(s: State, cs: seq<Command>, s1: State, s2: State, s3: State, s4: State)
    requires |cs| == 4 && Enabled(s, cs[0]) && Step(s, cs[0]) == s1 && Enabled(s1, cs[1]) && Step(s1, cs[1]) == s2
    requires Enabled(s2, cs[2]) && Step(s2, cs[2]) == s3 && Enabled(s3, cs[3]) && Step(s3, cs[3]) == s4
    ensures Admissible(s, cs) && Exec(s, cs) == s4
  {
    hide Step, Enabled;
    RunCons(s3, cs[3], s4, []);
    RunCons(s2, cs[2], s3, [cs[3]] + []);
    RunCons(s1, cs[1], s2, [cs[2]] + ([cs[3]] + []));
    RunCons(s, cs[0], s1, [cs[1]] + ([cs[2]] + ([cs[3]] + [])));
    assert cs == [cs[0]] + ([cs[1]] + ([cs[2]] + ([cs[3]] + [])));
  }

  lemma PostConfirms(s: State, r: nat, at: int)
    requires StageOf(s, r).Armed? && Exact(s.records, s.runs[r].instance, s.runs[r].id, {Sending})
    ensures Enabled(s, Post(r))
    ensures var s1, i, f := Step(s, Post(r)), s.runs[r].instance, StageOf(s, r).fence;
            && s1.posts == s.posts + [s.runs[r].id] && Enabled(s1, ConfirmSent(r, at))
            && var s2 := Step(s1, ConfirmSent(r, at));
               && StageOf(s2, r) == Confirmed(f) && s2.runs[r].instance == i && s2.runs[r].id == s.runs[r].id
               && s2.records == s.records[i := s.records[i].(phase := Sent, sentAt := at)]
               && s2.posts == s1.posts && s2.lastFence == s.lastFence
  {}

  lemma ReadCompletes(s: State, r: nat, skipped: nat)
    requires (StageOf(s, r).Confirmed? && Exact(s.records, s.runs[r].instance, s.runs[r].id, {Sent}))
             || (StageOf(s, r).Recovering? && Exact(s.records, s.runs[r].instance, s.runs[r].id, SentPhases))
    requires StageOf(s, r).fence <= s.lastFence
    ensures Enabled(s, BeginRead(r, skipped))
    ensures var s1, i := Step(s, BeginRead(r, skipped)), s.runs[r].instance;
            && Enabled(s1, CompleteRead(r)) && s1.lastFence > s.lastFence
            && var s2 := Step(s1, CompleteRead(r));
               && s2.records == s.records - {i} && StageOf(s2, r).Ended? && s2.posts == s.posts
               && s2.lastFence == s1.lastFence
  {}

  /** From there undisturbed: one request, the record sent at the time given, a read begun
      after the send, and the record is gone. */
  lemma SendCompletes(s: State, r: nat, at: int, skipped: nat)
    requires FencesIssued(s) && StageOf(s, r).Armed?
    requires Exact(s.records, s.runs[r].instance, s.runs[r].id, {Sending})
    ensures var i, cs := s.runs[r].instance, [Post(r), ConfirmSent(r, at), BeginRead(r, skipped), CompleteRead(r)];
            Admissible(s, cs)
            && var u := Exec(s, cs);
               u.posts == s.posts + [s.runs[r].id] && StageOf(u, r).Ended? && u.records == s.records - {i}
  {
    assert FenceOf(s.runs[r].stage, s.lastFence);
    PostConfirms(s, r, at);
    var i := s.runs[r].instance;
    var s1 := Step(s, Post(r));
    var s2 := Step(s1, ConfirmSent(r, at));
    assert s2.records - {i} == s.records - {i};
    hide Step;
    ReadCompletes(s2, r, skipped);
    var s3 := Step(s2, BeginRead(r, skipped));
    FourSteps(s, [Post(r), ConfirmSent(r, at), BeginRead(r, skipped), CompleteRead(r)], s1, s2, s3,
              Step(s3, CompleteRead(r)));
  }

  lemma RecoverStarts(s: State, i: Instance, now: int)
    requires Inv(s) && PastPrepared(s, i) && now >= s.records[i].verifyNotBefore && s.runs == []
    ensures var u, a := Step(s, Recover(i, now)), s.records[i];
            && u.runs == [Run(i, a.id, Recovering(a.sendFence))] && u.posts == s.posts && u.lastFence == s.lastFence
            && u.records.Keys == s.records.Keys && u.records - {i} == s.records - {i}
            && u.records[i] == (if a.phase.Sending? then a.(phase := SentUnknown) else a)
  {
    assert RecordOk(s, s.records[i]);
  }

  /** After a crash at any point past the arming, once the record is due: it is recovered, as
      sent-unknown if it was sending, without a request, and a read ends it. */
  lemma CrashRecovers(s: State, i: Instance, now: int, skipped: nat)
    requires Inv(s) && FencesIssued(s) && PastPrepared(s, i) && now >= s.records[i].verifyNotBefore
    ensures var cs := [Crash, Recover(i, now), BeginRead(0, skipped), CompleteRead(0)];
            Admissible(s, cs)
            && var u := Exec(s, cs); u.posts == s.posts && u.records == s.records - {i}
  {
    var s1 := Step(s, Crash);
    StepInv(s, Crash);
    assert RecordOk(s, s.records[i]) && PastPrepared(s1, i);
    RecoverStarts(s1, i, now);
    var s2 := Step(s1, Recover(i, now));
    assert Exact(s2.records, i, s.records[i].id, SentPhases) && StageOf(s2, 0) == Recovering(s.records[i].sendFence);
    hide Step, Inv;
    ReadCompletes(s2, 0, skipped);
    var s3 := Step(s2, BeginRead(0, skipped));
    FourSteps(s, [Crash, Recover(i, now), BeginRead(0, skipped), CompleteRead(0)], s1, s2, s3,
              Step(s3, CompleteRead(0)));
  }

  /** A run that fails after its request leaves the outcome unknown, suppressed for as long as
      asked; one that fails before takes a prepared record away and no other. */
  lemma FailuresLeave(s: State, r: nat, suppress: int)
    requires Inv(s) && r < |s.runs|
    ensures var i, id := s.runs[r].instance, s.runs[r].id;
            && (Enabled(s, FailSent(r, suppress)) && PastPrepared(s, i) && s.records[i].id == id ==>
                  var u := Step(s, FailSent(r, suppress));
                  && i in u.records && u.records[i].phase.SentUnknown? && u.records[i].id == id
                  && u.records[i].suppressUntil >= suppress && StageOf(u, r).Ended?)
            && (Enabled(s, FailUnsent(r)) ==>
                  var u := Step(s, FailUnsent(r));
                  && StageOf(u, r).Ended?
                  && u.records == if i in s.records && s.records[i].id == id && s.records[i].phase.Prepared?
                                  then s.records - {i} else s.records)
  {
    assert RunOk(s, s.runs[r]);
  }

  /** A roster hold, and the startup's clearing of a prepared attempt, take exactly the prepared
      records they name. */
  lemma HoldTakesPrepared(s: State, instances: set<Instance>, i: Instance, id: nat)
    requires Inv(s)
    ensures var u := Step(s, Hold(instances));
            forall j :: j in u.records <==> j in s.records && !(j in instances && s.records[j].phase.Prepared?)
    ensures forall j | j in Step(s, Hold(instances)).records :: Step(s, Hold(instances)).records[j] == s.records[j]
    ensures Step(s, DropPrepared(i, id)).records ==
            if i in s.records && s.records[i].id == id && s.records[i].phase.Prepared? then s.records - {i}
            else s.records
  {
    if i in s.records { assert RecordOk(s, s.records[i]); }
  }
}
