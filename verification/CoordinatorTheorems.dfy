/** The coordinator's promises, for every sequence of commands. */
module CoordinatorTheorems {
  import opened Basics
  import opened JobTable
  import opened CoordinatorSpec
  import opened CoordinatorProofs

  // ---- Where the jobs are ----

  /** After any commands the jobs in flight are the disjoint union of the queued ones and
      the lease holders, an instance has one holder at most, and exactly the jobs in
      flight have unfinished futures. */
  lemma InFlightPartition(cs: seq<Command>, j: nat)
    requires Admissible(Initial, cs)
    ensures var t := Exec(Initial, cs).table;
            && (t.InFlight(j) <==> t.Queued(j) || t.Holds(j))
            && !(t.Queued(j) && t.Holds(j))
            && (j < |t.jobs| ==> (t.jobs[j].future.Unfinished? <==> t.InFlight(j)))
            && (forall x: nat | t.InFlight(x) && t.InFlight(j) && t.jobs[x].started && t.jobs[j].started
                  && t.jobs[x].key.instance == t.jobs[j].key.instance :: x == j)
  {
    ExecInv(Initial, cs);
    var t := Exec(Initial, cs).table;
    InFlightSplit(t, j);
    forall x: nat | t.InFlight(x) && t.InFlight(j) && t.jobs[x].started && t.jobs[j].started
                 && t.jobs[x].key.instance == t.jobs[j].key.instance
      ensures x == j
    {
      OneHolderPerInstance(t, x, j);
    }
  }

  // ---- What a step does to a job that exists already ----

  /** Jobs keep their key, never come back into flight and never lose the invalid mark. */
  ghost predicate Older(t: Table, u: Table) {
    && |t.jobs| <= |u.jobs|
    && (forall j: nat | j < |t.jobs| ::
          && u.jobs[j].key == t.jobs[j].key
          && (u.InFlight(j) ==> t.InFlight(j))
          && (t.jobs[j].invalidated ==> u.jobs[j].invalidated)
          && (t.jobs[j].probeSent ==> u.jobs[j].probeSent))
  }

  lemma TryStartOlder(s: State, i: Instance)
    requires s.table.Valid()
    ensures Older(s.table, TryStart(s, i).table)
  {
    TryStartKeeps(s, i);
  }

  lemma SettleOlder(s: State, j: nat, how: Disposition, expire: bool, probe: bool, inheritErr: bool)
    requires s.table.Valid() && s.table.InFlight(j) && s.table.jobs[j].started
    ensures Older(s.table, Settle(s, j, how, expire, probe, inheritErr).table)
    ensures !Settle(s, j, how, expire, probe, inheritErr).table.InFlight(j)
  {
    var u := Closed(s, j, how, expire, probe, inheritErr);
    RetireValid(s.table, j, how, expire, false);
    RetireFlights(s.table, j, how, expire, false);
    TryStartKeeps(u, s.table.jobs[j].key.instance);
    TryStartOlder(u, s.table.jobs[j].key.instance);
  }

  lemma OlderSelf(t: Table)
    ensures Older(t, t)
  {}

  lemma OlderTrans(t: Table, u: Table, v: Table)
    requires Older(t, u) && Older(u, v)
    ensures Older(t, v)
  {}

  lemma OlderJob(t: Table, u: Table, j: nat)
    requires Older(t, u) && j < |t.jobs|
    ensures j < |u.jobs| && u.jobs[j].key == t.jobs[j].key && (u.InFlight(j) ==> t.InFlight(j))
  {}

  lemma CancelledEachTable(s: State, rest: seq<Instance>, i: Instance)
    ensures CancelledEach(s, rest + [i]).table == CancelInstance(CancelledEach(s, rest).table, i)
  {
    assert (rest + [i])[..|rest|] == rest;
  }

  lemma CancelInstanceOlder(t: Table, i: Instance)
    requires t.Valid()
    ensures Older(t, CancelInstance(t, i))
  {
    CancelInstanceJobs(t, i);
    forall j: nat | j < |t.jobs|
      ensures CancelInstance(t, i).InFlight(j) ==> t.InFlight(j)
      ensures t.jobs[j].probeSent ==> CancelInstance(t, i).jobs[j].probeSent
    {
      CancelInstanceFlights(t, i, j);
    }
    hide CancelInstance, Table.Valid, Table.InFlight;
  }

  lemma {:induction false} CancelledEachOlder(s: State, instances: seq<Instance>)
    requires DueInv(s)
    ensures Older(s.table, CancelledEach(s, instances).table)
    decreases |instances|
  {
    if instances == [] {
      OlderSelf(s.table);
    } else {
      hide *;
      var rest, i := instances[..|instances| - 1], instances[|instances| - 1];
      assert instances == rest + [i];
      var mid := CancelledEach(s, rest).table;
      CancelledEachOlder(s, rest);
      CancelledEachInv(s, rest);
      DueInvFacts(CancelledEach(s, rest));
      CancelledEachTable(s, rest, i);
      CancelInstanceOlder(mid, i);
      OlderTrans(s.table, mid, CancelInstance(mid, i));
    }
  }

  lemma {:induction false} CancelledEachGone(s: State, instances: seq<Instance>, j: nat)
    requires DueInv(s) && j < |s.table.jobs| && s.table.jobs[j].key.instance in instances
    ensures !CancelledEach(s, instances).table.InFlight(j)
    decreases |instances|
  {
    hide *;
    var rest, i := instances[..|instances| - 1], instances[|instances| - 1];
    assert instances == rest + [i];
    var mid := CancelledEach(s, rest).table;
    CancelledEachInv(s, rest);
    DueInvFacts(CancelledEach(s, rest));
    CancelledEachOlder(s, rest);
    OlderJob(s.table, mid, j);
    CancelledEachTable(s, rest, i);
    CancelInstanceFlights(mid, i, j);
    if s.table.jobs[j].key.instance in rest { CancelledEachGone(s, rest, j); }
  }

  lemma SubmittedOlder(s: State, intent: Intent)
    requires Inv(s)
    ensures Older(s.table, Submitted(s, intent).table)
  {
    if ReplyTo(s, intent).Accepted? {
      EnqueueValid(s.table, NewJob(s, intent));
      var s1 := s.(typedNonce := NonceAfter(s, intent), table := Enqueue(s.table, NewJob(s, intent)),
                   generations := Raise(s.generations, intent.instance, intent.generation));
      TryStartOlder(s1, intent.instance);
    }
  }

  lemma ExpiredOlder(s: State, j: nat, f: bool)
    requires Inv(s) && j < |s.table.jobs| && s.table.jobs[j].started
    ensures Older(s.table, Expired(s, j, f).table)
    ensures !Expired(s, j, f).table.InFlight(j)
  {
    if s.table.InFlight(j) {
      SettleOlder(s, j, DiscardedStale, true, s.table.jobs[j].probeSent, s.table.jobs[j].probeSent && f);
    }
  }

  lemma DeliveredOlder(s: State, j: nat, r: Result, v: bool, a: bool, f: bool)
    requires Inv(s) && j < |s.table.jobs| && s.table.jobs[j].started
    ensures Older(s.table, Delivered(s, j, r, v, a, f).table)
    ensures !(ResultValid(s, j, r, v) && r.hostLogs) ==> !Delivered(s, j, r, v, a, f).table.InFlight(j)
  {
    var valid := ResultValid(s, j, r, v);
    if s.table.InFlight(j) && !(valid && r.hostLogs) {
      var probe := r.probePhase || s.table.jobs[j].probeSent;
      var stale := !valid || a;
      SettleOlder(s.(applied := if valid then s.applied + [j] else s.applied), j,
                  if stale then DiscardedStale else Applied, false, probe, stale && probe && f);
    }
  }

  lemma DrainedOlder(s: State)
    requires Inv(s)
    ensures Older(s.table, Drained(s).table)
  {
    DrainedTable(s);
    DrainedJobs(s);
    hide Drained, Inv, AppliedOk, CancelOk, DrainingOk, Table.Valid, Table.InFlight, LeasedJobs;
  }

  lemma DrainedJobs(s: State)
    ensures var u := Drained(s).table;
            |u.jobs| == |s.table.jobs| &&
            forall j: nat | j < |u.jobs| ::
              && u.jobs[j].key == s.table.jobs[j].key
              && (s.table.jobs[j].invalidated ==> u.jobs[j].invalidated)
              && (s.table.jobs[j].probeSent ==> u.jobs[j].probeSent)
  {
    hide QueuedJobs, LeasedJobs;
  }

  lemma StepOlder(s: State, c: Command)
    requires Inv(s) && Enabled(s, c)
    ensures Older(s.table, Step(s, c).table)
  {
    match c
    case Submit(intent) => SubmittedOlder(s, intent);
    case Expire(j, f) => ExpiredOlder(s, j, f);
    case Deliver(j, r, v, a, f) => DeliveredOlder(s, j, r, v, a, f);
    case LogCallback(j, failed) =>
    case MarkProbeSent(j) =>
    case Cancel(instances) => CancelledEachOlder(s, instances);
    case Activate(g) =>
    case Restore(g, t) =>
    case Drain => DrainedOlder(s);
  }

  lemma HeldNotQueued(t: Table, j: nat)
    requires t.Valid() && j < |t.jobs| && t.jobs[j].started
    ensures !t.Queued(j)
  {}

  // ---- Apply ----

  /** What must hold when a result is handled for Apply to run. */
  ghost predicate MayApply(s: State, c: Command) {
    && c.Deliver? && s.table.Holds(c.job)
    && !s.table.jobs[c.job].invalidated && !s.table.jobs[c.job].expired
    && c.validates && !c.result.callbackFailed
    && c.result.token == s.table.jobs[c.job].intent.token
  }

  lemma ExpiredKeepsApplied(s: State, j: nat, f: bool)
    requires j < |s.table.jobs|
    ensures Expired(s, j, f).applied == s.applied
  {}

  lemma DeliveredApplied(s: State, j: nat, r: Result, v: bool, a: bool, f: bool)
    requires j < |s.table.jobs|
    ensures Delivered(s, j, r, v, a, f).applied ==
            if s.table.InFlight(j) && ResultValid(s, j, r, v) && !r.hostLogs then s.applied + [j] else s.applied
  {
    hide Closed, SameMarks, ResultValid, Table.InFlight;
    if s.table.InFlight(j) {
      var valid, probe := ResultValid(s, j, r, v), r.probePhase || s.table.jobs[j].probeSent;
      var stale := !valid || a;
      SettleKeepsApplied(s.(applied := if valid then s.applied + [j] else s.applied), j,
                         if stale then DiscardedStale else Applied, false, probe, stale && probe && f);
    }
  }

  lemma SettleKeepsApplied(s: State, j: nat, how: Disposition, expire: bool, probe: bool, inheritErr: bool)
    requires j < |s.table.jobs|
    ensures Settle(s, j, how, expire, probe, inheritErr).applied == s.applied
  {}

  /** Apply runs only for a result whose own job, at that moment, holds its instance's
      lease, is neither expired nor invalidated, carries the same token and revalidates;
      with no host logs left to dispatch it then does run, and the job leaves flight. */
  lemma AppliesOnlyForHolder(s: State, c: Command)
    requires Inv(s) && Enabled(s, c)
    ensures Step(s, c).applied == if MayApply(s, c) && !c.result.hostLogs then s.applied + [c.job] else s.applied
    ensures MayApply(s, c) && !c.result.hostLogs ==> !Step(s, c).table.InFlight(c.job)
  {
    hide Settle, Submitted, CancelledEach, Drained, Expired, Older;
    match c
    case Deliver(j, r, v, a, f) =>
      DeliveredOlder(s, j, r, v, a, f);
      DeliveredApplied(s, j, r, v, a, f);
      assert s.table.InFlight(j) <==> s.table.Holds(j) by { InFlightSplit(s.table, j); HeldNotQueued(s.table, j); }
    case Expire(j, f) => ExpiredKeepsApplied(s, j, f);
    case Cancel(instances) => CancelKeepsApplied(s, instances);
    case Submit(intent) => SubmittedKeepsApplied(s, intent);
    case Drain => DrainedKeepsApplied(s);
    case _ =>
  }

  lemma SubmittedKeepsApplied(s: State, intent: Intent)
    ensures Submitted(s, intent).applied == s.applied
  {}

  lemma DrainedKeepsApplied(s: State)
    ensures Drained(s).applied == s.applied
  {}

  lemma CancelKeepsApplied(s: State, instances: seq<Instance>)
    ensures CancelledEach(s, instances).applied == s.applied
    decreases |instances|
  {
    if instances != [] { CancelKeepsApplied(s, instances[..|instances| - 1]); }
  }

  /** Apply runs at most once for a job, whatever the commands. */
  lemma AppliedAtMostOnce(cs: seq<Command>)
    requires Admissible(Initial, cs)
    ensures var log := Exec(Initial, cs).applied;
            forall a, b | 0 <= a < b < |log| :: log[a] != log[b]
  {
    ExecInv(Initial, cs);
  }

  /** A job that left flight, or was invalidated, is never applied again, even when a new
      job reuses its operation key. */
  lemma {:induction false} NeverAppliesLater(s: State, cs: seq<Command>, j: nat)
    requires Inv(s) && Admissible(s, cs)
    requires j < |s.table.jobs| && (!s.table.InFlight(j) || s.table.jobs[j].invalidated)
    ensures j in Exec(s, cs).applied <==> j in s.applied
    decreases |cs|
  {
    if cs != [] {
      StepInv(s, cs[0]);
      StepOlder(s, cs[0]);
      AppliesOnlyForHolder(s, cs[0]);
      NeverAppliesLater(Step(s, cs[0]), cs[1..], j);
    }
  }

  /** A result that arrives after its job's lease expired never applies. */
  lemma CutOffByExpiry(s: State, j: nat, f: bool, cs: seq<Command>)
    requires Inv(s) && Enabled(s, Expire(j, f)) && Admissible(Step(s, Expire(j, f)), cs)
    ensures j in Exec(Step(s, Expire(j, f)), cs).applied <==> j in s.applied
  {
    ExpiredInv(s, j, f);
    ExpiredOlder(s, j, f);
    ExpiredKeepsApplied(s, j, f);
    NeverAppliesLater(Step(s, Expire(j, f)), cs, j);
  }

  /** A result that arrives after its instance was cancelled never applies. */
  lemma CutOffByCancel(s: State, instances: seq<Instance>, cs: seq<Command>, j: nat)
    requires Inv(s) && Admissible(Step(s, Cancel(instances)), cs)
    requires j < |s.table.jobs| && s.table.jobs[j].key.instance in instances
    ensures j in Exec(Step(s, Cancel(instances)), cs).applied <==> j in s.applied
  {
    var u := Step(s, Cancel(instances));
    StepInv(s, Cancel(instances));
    StepOlder(s, Cancel(instances));
    OlderJob(s.table, u.table, j);
    CancelKeepsApplied(s, instances);
    InvDue(s);
    CancelledEachGone(s, instances, j);
    assert u.table == CancelledEach(s, instances).table && u.applied == CancelledEach(s, instances).applied;
    hide *;
    NeverAppliesLater(u, cs, j);
  }

  /** Once a drain began nothing is applied any more. */
  lemma {:induction false} NothingAppliesAfterDrain(s: State, cs: seq<Command>)
    requires Inv(s) && !s.accepting && Admissible(s, cs)
    ensures Exec(s, cs).applied == s.applied
    decreases |cs|
  {
    if cs != [] {
      StepInv(s, cs[0]);
      AppliesOnlyForHolder(s, cs[0]);
      DrainIsForever(s, cs[0]);
      NothingAppliesAfterDrain(Step(s, cs[0]), cs[1..]);
    }
  }

  lemma DrainIsForever(s: State, c: Command)
    requires Enabled(s, c) && !s.accepting
    ensures !Step(s, c).accepting
  {
    if c.Cancel? { CancelKeepsAccepting(s, c.instances); }
  }

  lemma CancelKeepsAccepting(s: State, instances: seq<Instance>)
    ensures CancelledEach(s, instances).accepting == s.accepting
    decreases |instances|
  {
    if instances != [] { CancelKeepsAccepting(s, instances[..|instances| - 1]); }
  }
}
