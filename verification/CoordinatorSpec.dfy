/** The coordinator's command loop as a state machine: one step per command, the commands
    in any order the environment delivers them.

    Executors, lease timers and log callbacks live outside the loop. What they contribute
    (a result, whether it revalidates, whether applying or persisting fails) is part of the
    command. They may speak of any job that was ever started, any number of times. */
module CoordinatorSpec {
  import opened Basics
  import opened JobTable

  datatype Result = Result(token: ExecutionToken, callbackFailed: bool, probePhase: bool, hostLogs: bool)

  datatype Command =
    | Submit(intent: Intent)
    | Expire(job: nat, inheritFails: bool)
    | Deliver(job: nat, result: Result, validates: bool, applyFails: bool, inheritFails: bool)
    | LogCallback(job: nat, failed: bool)
    | MarkProbeSent(job: nat)
    | Cancel(instances: seq<Instance>)
    | Activate(generations: map<Instance, Generation>)
    | Restore(generations: map<Instance, Generation>, tokens: map<Instance, nat>)
    | Drain

  datatype DrainReport = DrainReport(
    completed: nat,
    cancelled: nat,
    invalidated: nat,
    sentUnknown: nat,
    persistenceFailures: nat,
    handoffBlocked: bool)

  /** What became of the jobs a drain found in flight. The program keeps only the report;
      the ledger is the account the report is measured against. */
  datatype Ledger = Ledger(
    queued: set<nat>,      // queued when the drain began
    leased: set<nat>,      // holding a lease when the drain began
    finished: set<nat>,    // since then expired, or answered by a result
    withdrawn: set<nat>,   // since then taken away by an instance cancellation
    marked: set<nat>,      // finished as stale with a probe marked sent
    failed: set<nat>)      // of these, the ones whose handoff could not be persisted

  datatype State = State(
    table: Table,
    accepting: bool,
    completedFence: map<Instance, nat>,
    generations: map<Instance, Generation>,
    cancelledThrough: map<Instance, Generation>,
    cancelTokens: map<Instance, nat>,
    cancelNonce: nat,
    typedNonce: nat,
    drains: seq<DrainReport>,
    ledgers: seq<Ledger>,
    replies: seq<(DrainReport, Ledger)>,  // every report handed back so far
    applied: seq<nat>)                    // every call of Apply so far, by job

  const Initial := State(Empty, true, map[], map[], map[], map[], 0, 0, [], [], [], [])

  function Get(m: map<Instance, nat>, i: Instance): nat {
    if i in m then m[i] else 0
  }

  /** Counters per instance only ever go up. */
  function Raise(m: map<Instance, nat>, i: Instance, v: nat): map<Instance, nat> {
    if v > Get(m, i) then m[i := v] else m
  }

  /** Nothing about cancellation changed, and no job was allocated. */
  ghost predicate SameMarks(s: State, u: State) {
    && u.cancelledThrough == s.cancelledThrough && u.cancelTokens == s.cancelTokens
    && u.cancelNonce == s.cancelNonce && u.generations == s.generations
    && |u.table.jobs| == |s.table.jobs|
  }

  // ---- Submission ----

  datatype Reply = Joined(job: nat) | Rejected | Accepted(job: nat)

  function NonceAfter(s: State, intent: Intent): nat {
    if intent.class_.ProbeSend? then s.typedNonce + 1 else s.typedNonce
  }

  function KeyFor(s: State, intent: Intent): OperationKey {
    OperationKey(intent.instance, intent.class_, intent.generation, intent.attempt,
                 if intent.class_.ProbeSend? then s.typedNonce + 1 else 0)
  }

  predicate Refused(s: State, intent: Intent) {
    || !s.accepting
    || intent.instance in s.cancelledThrough
    || intent.source.UnknownSource?
    || (intent.source.LegacyEnvelope? && !intent.class_.LegacyRefresh?)
  }

  function ReplyTo(s: State, intent: Intent): Reply {
    if KeyFor(s, intent) in s.table.inflight then Joined(s.table.inflight[KeyFor(s, intent)])
    else if Refused(s, intent) then Rejected
    else Accepted(|s.table.jobs|)
  }

  /** Start the head of an instance's queue when the lease is free. A legacy refresh waits
      until the fence it asked for has completed. */
  predicate CanStart(s: State, i: Instance) {
    && s.accepting && i !in s.table.leases && |s.table.QueueOf(i)| > 0
    && s.table.QueueOf(i)[0] < |s.table.jobs|
    && var intent := s.table.jobs[s.table.QueueOf(i)[0]].intent;
       !(intent.class_.LegacyRefresh? && intent.startedAfter > Get(s.completedFence, i))
  }

  function TryStart(s: State, i: Instance): (u: State)
    ensures SameMarks(s, u)
  {
    if CanStart(s, i) then s.(table := StartHead(s.table, i))
    else if s.accepting && i !in s.table.leases && s.table.QueueOf(i) == []
    then s.(table := s.table.(queue := s.table.queue - {i}))
    else s
  }

  function NewJob(s: State, intent: Intent): Job {
    Job(KeyFor(s, intent), intent, Unfinished, false, false, false, false)
  }

  function Submitted(s: State, intent: Intent): State {
    var s1 := s.(typedNonce := NonceAfter(s, intent));
    if ReplyTo(s, intent).Accepted? then
      TryStart(s1.(table := Enqueue(s.table, NewJob(s, intent)),
                   generations := Raise(s.generations, intent.instance, intent.generation)),
               intent.instance)
    else s1
  }

  // ---- The end of a job ----

  function Tally(r: DrainReport, how: Disposition, probe: bool, inheritErr: bool): DrainReport {
    if how.Applied? then r.(completed := r.completed + 1)
    else r.(completed := r.completed + 1,
            invalidated := r.invalidated + 1,
            sentUnknown := r.sentUnknown + (if probe && !inheritErr then 1 else 0),
            persistenceFailures := r.persistenceFailures + (if inheritErr then 1 else 0),
            handoffBlocked := r.handoffBlocked || inheritErr)
  }

  function Record(l: Ledger, j: nat, how: Disposition, probe: bool, inheritErr: bool): Ledger {
    l.(finished := l.finished + {j},
       marked := if !how.Applied? && probe then l.marked + {j} else l.marked,
       failed := if !how.Applied? && inheritErr then l.failed + {j} else l.failed)
  }

  function TallyAll(ds: seq<DrainReport>, how: Disposition, probe: bool, inheritErr: bool): seq<DrainReport> {
    seq(|ds|, d requires 0 <= d < |ds| => Tally(ds[d], how, probe, inheritErr))
  }

  function RecordAll(ls: seq<Ledger>, j: nat, how: Disposition, probe: bool, inheritErr: bool): seq<Ledger> {
    seq(|ls|, d requires 0 <= d < |ls| => Record(ls[d], j, how, probe, inheritErr))
  }

  function Pairs(ds: seq<DrainReport>, ls: seq<Ledger>): seq<(DrainReport, Ledger)>
    requires |ds| == |ls|
  {
    seq(|ds|, d requires 0 <= d < |ds| => (ds[d], ls[d]))
  }

  /** Hand back every waiting report once nothing is in flight. */
  function FinishDrains(s: State): (u: State)
    ensures SameMarks(s, u) && u.table == s.table
  {
    if s.table.inflight == map[] && |s.drains| == |s.ledgers| then
      s.(replies := s.replies + Pairs(s.drains, s.ledgers), drains := [], ledgers := [])
    else s
  }

  /** Take the job out of flight and enter its end in the fence and in every waiting drain. */
  function Closed(s: State, j: nat, how: Disposition, expire: bool, probe: bool, inheritErr: bool): (u: State)
    requires j < |s.table.jobs|
    ensures SameMarks(s, u)
  {
    var job := s.table.jobs[j];
    s.(table := Retire(s.table, j, how, expire),
       completedFence := Raise(s.completedFence, job.key.instance, job.intent.token.fence),
       drains := TallyAll(s.drains, how, probe, inheritErr),
       ledgers := RecordAll(s.ledgers, j, how, probe, inheritErr))
  }

  /** The common end of an expired and of an answered job. */
  function Settle(s: State, j: nat, how: Disposition, expire: bool, probe: bool, inheritErr: bool): (u: State)
    requires j < |s.table.jobs|
    ensures SameMarks(s, u)
  {
    FinishDrains(TryStart(Closed(s, j, how, expire, probe, inheritErr), s.table.jobs[j].key.instance))
  }

  function Expired(s: State, j: nat, inheritFails: bool): (u: State)
    requires j < |s.table.jobs|
    ensures SameMarks(s, u)
  {
    var job := s.table.jobs[j];
    if !s.table.InFlight(j) || job.expired then s
    else Settle(s, j, DiscardedStale, true, job.probeSent, job.probeSent && inheritFails)
  }

  predicate ResultValid(s: State, j: nat, r: Result, validates: bool)
    requires j < |s.table.jobs|
  {
    var job := s.table.jobs[j];
    !job.expired && !job.invalidated && !r.callbackFailed && r.token == job.intent.token && validates
  }

  function Delivered(s: State, j: nat, r: Result, validates: bool, applyFails: bool, inheritFails: bool): (u: State)
    requires j < |s.table.jobs|
    ensures SameMarks(s, u)
  {
    var valid := ResultValid(s, j, r, validates);
    var probe := r.probePhase || s.table.jobs[j].probeSent;
    // Host logs are dispatched first, outside the loop; the result comes back without them.
    if !s.table.InFlight(j) || (valid && r.hostLogs) then s
    else
      var stale := !valid || applyFails;
      Settle(s.(applied := if valid then s.applied + [j] else s.applied), j,
             if stale then DiscardedStale else Applied, false, probe, stale && probe && inheritFails)
  }

  // ---- Cancellation, activation, rollback ----

  function Withdraw(ledgers: seq<Ledger>, j: nat): seq<Ledger> {
    seq(|ledgers|, d requires 0 <= d < |ledgers| => ledgers[d].(withdrawn := ledgers[d].withdrawn + {j}))
  }

  function CancelledOne(s: State, i: Instance): State {
    s.(table := CancelInstance(s.table, i),
       cancelNonce := s.cancelNonce + 1,
       cancelTokens := s.cancelTokens[i := s.cancelNonce + 1],
       cancelledThrough := s.cancelledThrough[i := Get(s.generations, i)],
       ledgers := if i in s.table.leases then Withdraw(s.ledgers, s.table.leases[i]) else s.ledgers)
  }

  function CancelledEach(s: State, instances: seq<Instance>): State
    decreases |instances|
  {
    if instances == [] then s
    else CancelledOne(CancelledEach(s, instances[..|instances| - 1]), instances[|instances| - 1])
  }

  function RaiseAll(m: map<Instance, nat>, gs: map<Instance, nat>): map<Instance, nat> {
    map i | i in m.Keys + gs.Keys && (i in m || gs[i] > 0) :: if Get(gs, i) > Get(m, i) then gs[i] else m[i]
  }

  function Above(gs: map<Instance, nat>, m: map<Instance, nat>): set<Instance> {
    set i | i in gs && gs[i] > Get(m, i)
  }

  function Activated(s: State, gs: map<Instance, Generation>): State {
    s.(generations := RaiseAll(s.generations, gs),
       cancelledThrough := s.cancelledThrough - Above(gs, s.cancelledThrough),
       cancelTokens := s.cancelTokens - Above(gs, s.cancelledThrough))
  }

  predicate RestoreMatches(s: State, i: Instance, generations: map<Instance, Generation>, tokens: map<Instance, nat>) {
    i in generations && Get(s.cancelledThrough, i) == generations[i] && Get(s.cancelTokens, i) == Get(tokens, i)
  }

  function RolledBack(s: State, gs: map<Instance, Generation>, tokens: map<Instance, nat>): set<Instance> {
    set i | i in gs && RestoreMatches(s, i, gs, tokens)
  }

  function Restored(s: State, gs: map<Instance, Generation>, tokens: map<Instance, nat>): State {
    s.(cancelledThrough := s.cancelledThrough - RolledBack(s, gs, tokens),
       cancelTokens := s.cancelTokens - RolledBack(s, gs, tokens))
  }

  // ---- Draining ----

  function QueuedJobs(t: Table): set<nat> {
    set j: nat | j < |t.jobs| && t.Queued(j)
  }

  function LeasedJobs(t: Table): set<nat> {
    set j: nat | j < |t.jobs| && t.Holds(j)
  }

  function Drained(s: State): State {
    var q, l := QueuedJobs(s.table), LeasedJobs(s.table);
    var s1 := s.(accepting := false, table := FlushAll(s.table));
    var report := DrainReport(|q|, |q| + |l|, 0, 0, 0, false);
    var ledger := Ledger(q, l, {}, {}, {}, {});
    if s1.table.inflight == map[] then s1.(replies := s.replies + [(report, ledger)])
    else s1.(drains := s.drains + [report], ledgers := s.ledgers + [ledger])
  }

  // ---- The machine ----

  predicate Enabled(s: State, c: Command) {
    match c
    case Expire(j, _) => j < |s.table.jobs| && s.table.jobs[j].started
    case Deliver(j, _, _, _, _) => j < |s.table.jobs| && s.table.jobs[j].started
    case LogCallback(j, _) => j < |s.table.jobs| && s.table.jobs[j].started
    case MarkProbeSent(j) => j < |s.table.jobs| && s.table.jobs[j].started
    case _ => true
  }

  function Step(s: State, c: Command): State
    requires Enabled(s, c)
  {
    match c
    case Submit(intent) => Submitted(s, intent)
    case Expire(j, f) => Expired(s, j, f)
    case Deliver(j, r, v, a, f) => Delivered(s, j, r, v, a, f)
    case LogCallback(j, failed) => s
    case MarkProbeSent(j) =>
      s.(table := s.table.(jobs := s.table.jobs[j := s.table.jobs[j].(probeSent := true)]))
    case Cancel(instances) => FinishDrains(CancelledEach(s, instances))
    case Activate(g) => Activated(s, g)
    case Restore(g, t) => Restored(s, g, t)
    case Drain => Drained(s)
  }

  /** Every command of the sequence is one the environment can send when its turn comes. */
  predicate Admissible(s: State, cs: seq<Command>)
    decreases |cs|
  {
    cs == [] || (Enabled(s, cs[0]) && Admissible(Step(s, cs[0]), cs[1..]))
  }

  function Exec(s: State, cs: seq<Command>): State
    requires Admissible(s, cs)
    decreases |cs|
  {
    if cs == [] then s else Exec(Step(s, cs[0]), cs[1..])
  }
}
