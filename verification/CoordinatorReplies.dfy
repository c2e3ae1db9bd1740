/** What callers of the coordinator get: the answer to a submission and the end of a job. */
module CoordinatorReplies {
  import opened Basics
  import opened JobTable
  import opened CoordinatorSpec
  import opened CoordinatorProofs
  import opened CoordinatorTheorems
  import opened CoordinatorAccounts
  import opened CoordinatorOrder

  // ---- Submissions ----

  /** Numbered sends: no send in flight bears a number that was not yet given out. */
  ghost predicate NoncesGiven(s: State) {
    forall k | k in s.table.inflight :: k.nonce <= s.typedNonce && (k.nonce > 0 <==> k.class_.ProbeSend?)
  }

  lemma SettleKeys(s: State, j: nat, how: Disposition, expire: bool, probe: bool, inheritErr: bool)
    requires j < |s.table.jobs|
    ensures var u := Settle(s, j, how, expire, probe, inheritErr);
            u.table.inflight.Keys <= s.table.inflight.Keys && u.typedNonce == s.typedNonce
  {
    hide TallyAll, RecordAll;
  }

  lemma {:induction false} CancelledEachKeys(s: State, instances: seq<Instance>)
    ensures var u := CancelledEach(s, instances);
            u.table.inflight.Keys <= s.table.inflight.Keys && u.typedNonce == s.typedNonce
    decreases |instances|
  {
    if instances != [] {
      CancelledEachKeys(s, instances[..|instances| - 1]);
      CancelInstanceKeys(CancelledEach(s, instances[..|instances| - 1]).table, instances[|instances| - 1]);
      hide CancelInstance, Withdraw;
    }
  }

  lemma CancelInstanceKeys(t: Table, i: Instance)
    ensures CancelInstance(t, i).inflight.Keys <= t.inflight.Keys
  {}

  lemma SubmittedNonces(s: State, intent: Intent)
    requires NoncesGiven(s)
    ensures NoncesGiven(Submitted(s, intent))
  {}

  lemma DrainedKeys(s: State)
    ensures Drained(s).table.inflight.Keys <= s.table.inflight.Keys && Drained(s).typedNonce == s.typedNonce
  {
    hide QueuedJobs, LeasedJobs;
  }

  lemma StepNonces(s: State, c: Command)
    requires Enabled(s, c) && NoncesGiven(s)
    ensures NoncesGiven(Step(s, c))
  {
    hide Settle, Submitted, CancelledEach, Drained;
    if c.Expire? || c.Deliver? {
      var w, how, expire, probe, err := EndedStep(s, c);
      hide Step, EndedNow;
      if EndedNow(s, c).Some? { SettleKeys(w, EndedNow(s, c).value, how, expire, probe, err); }
    } else {
      match c
      case Submit(intent) => SubmittedNonces(s, intent);
      case Cancel(instances) => CancelledEachKeys(s, instances);
      case Drain => DrainedKeys(s);
      case _ =>
    }
  }

  lemma {:induction false} ExecNonces(s: State, cs: seq<Command>)
    requires Admissible(s, cs) && NoncesGiven(s)
    ensures NoncesGiven(Exec(s, cs))
    decreases |cs|
  {
    if cs != [] {
      hide Step, NoncesGiven;
      StepNonces(s, cs[0]);
      ExecNonces(Step(s, cs[0]), cs[1..]);
    }
  }

  /** The job does what the submission asks for. */
  predicate SameOperation(job: Job, intent: Intent) {
    && job.key.instance == intent.instance && job.key.class_ == intent.class_
    && job.key.generation == intent.generation && job.key.attempt == intent.attempt
  }

  /** The exact answer to a submission, after every run. It joins a job in flight that does the
      same, unless it is a probe send, which never joins. Otherwise it is rejected exactly
      while the coordinator drains, the instance is cancelled, the source is unknown, or the
      legacy source asks for anything but a legacy refresh; and else it becomes a new job. */
  lemma ReplyExactly(cs: seq<Command>, intent: Intent)
    requires Admissible(Initial, cs)
    ensures var s := Exec(Initial, cs);
            var reply := ReplyTo(s, intent);
            && (reply.Joined? <==>
                  && !intent.class_.ProbeSend?
                  && exists j: nat :: s.table.InFlight(j) && SameOperation(s.table.jobs[j], intent))
            && (reply.Joined? ==> s.table.InFlight(reply.job) && SameOperation(s.table.jobs[reply.job], intent))
            && (!reply.Joined? ==>
                  (reply.Rejected? <==>
                     || !s.accepting || intent.instance in s.cancelledThrough || intent.source == UnknownSource
                     || (intent.source == LegacyEnvelope && intent.class_ != LegacyRefresh)))
            && (reply.Accepted? ==> reply.job == |s.table.jobs|)
  {
    ExecInv(Initial, cs);
    ExecNonces(Initial, cs);
    var s := Exec(Initial, cs);
    hide Exec, Admissible;
    InvDue(s);
    DueInvFacts(s);
    JoinsExactly(s, intent);
    hide Inv, NoncesGiven, Table.Valid, Table.InFlight, KeyFor;
  }

  lemma JoinsExactly(s: State, intent: Intent)
    requires s.table.Valid() && NoncesGiven(s)
    ensures KeyFor(s, intent) in s.table.inflight <==>
              && !intent.class_.ProbeSend?
              && exists j: nat :: s.table.InFlight(j) && SameOperation(s.table.jobs[j], intent)
    ensures KeyFor(s, intent) in s.table.inflight ==>
              var j := s.table.inflight[KeyFor(s, intent)];
              s.table.InFlight(j) && SameOperation(s.table.jobs[j], intent)
  {
    var k := KeyFor(s, intent);
    if !intent.class_.ProbeSend? {
      if j: nat :| s.table.InFlight(j) && SameOperation(s.table.jobs[j], intent) {
        var key := s.table.jobs[j].key;
        assert key in s.table.inflight && key.nonce == 0;
        assert key == k;
      }
    }
  }

  /** Generations of an instance: the highest of those submitted and accepted, or activated. */
  lemma GenerationsRise(s: State, c: Command, i: Instance)
    requires Enabled(s, c)
    ensures var g, u := Get(s.generations, i), Get(Step(s, c).generations, i);
            var given := match c
                         case Submit(intent) =>
                           if intent.instance == i && ReplyTo(s, intent).Accepted? then intent.generation else 0
                         case Activate(gs) => Get(gs, i)
                         case _ => 0;
            u == if given > g then given else g
  {
    hide Settle, CancelledEach, Drained, FlushAll;
    if c.Expire? || c.Deliver? {
      var w, how, expire, probe, err := EndedStep(s, c);
      hide Step, EndedNow;
    } else {
      match c
      case Submit(intent) => SubmittedGenerations(s, intent);
      case Cancel(instances) => CancelledEachGenerations(s, instances);
      case Drain => DrainedGenerations(s);
      case _ =>
    }
  }

  lemma SubmittedGenerations(s: State, intent: Intent)
    ensures Submitted(s, intent).generations ==
            if ReplyTo(s, intent).Accepted? then Raise(s.generations, intent.instance, intent.generation)
            else s.generations
  {
    hide Enqueue, StartHead;
  }

  lemma CancelledEachGenerations(s: State, instances: seq<Instance>)
    ensures CancelledEach(s, instances).generations == s.generations
    decreases |instances|
  {
    if instances != [] { CancelledEachGenerations(s, instances[..|instances| - 1]); }
  }

  lemma DrainedGenerations(s: State)
    ensures Drained(s).generations == s.generations
  {
    hide FlushAll, QueuedJobs, LeasedJobs;
  }

  // ---- How a job ends for those who wait for it ----

  /** What a job that leaves flight in this step is told. */
  ghost function EndFor(s: State, c: Command): Disposition {
    if c.Deliver? && MayApply(s, c) && !c.applyFails then Applied
    else if c.Deliver? || c.Expire? then DiscardedStale
    else Cancelled
  }

  lemma RetireFuture(t: Table, j: nat, how: Disposition, expire: bool)
    requires j < |t.jobs|
    ensures Retire(t, j, how, expire).jobs[j].future == t.jobs[j].future.Complete(how)
  {}

  lemma SettleFuture(s: State, j: nat, how: Disposition, expire: bool, probe: bool, inheritErr: bool)
    requires s.table.Valid() && s.table.InFlight(j) && s.table.jobs[j].started
    ensures var u := Settle(s, j, how, expire, probe, inheritErr).table;
            j < |u.jobs| && u.jobs[j].future == Finished(how)
  {
    var v := Closed(s, j, how, expire, probe, inheritErr);
    RetireFuture(s.table, j, how, expire);
    assert v.table == Retire(s.table, j, how, expire);
    TryStartFuture(v, s.table.jobs[j].key.instance, j);
    hide Closed, Retire, TryStart;
  }

  lemma TryStartFuture(s: State, i: Instance, j: nat)
    requires j < |s.table.jobs|
    ensures TryStart(s, i).table.jobs[j].future == s.table.jobs[j].future
  {}

  lemma DeliverHow(s: State, c: Command)
    requires Inv(s) && Enabled(s, c) && c.Deliver? && EndedNow(s, c).Some?
    ensures EndFor(s, c) ==
            if ResultValid(s, c.job, c.result, c.validates) && !c.applyFails then Applied else DiscardedStale
  {
    InFlightSplit(s.table, c.job);
    HeldNotQueued(s.table, c.job);
  }

  lemma EndedFuture(s: State, c: Command, j: nat)
    requires Inv(s) && Enabled(s, c) && EndedNow(s, c) == Some(j)
    ensures j < |Step(s, c).table.jobs| && Step(s, c).table.jobs[j].future == Finished(EndFor(s, c))
  {
    InvDue(s);
    DueInvFacts(s);
    var w, how, expire, probe, err := EndedStep(s, c);
    if c.Deliver? { DeliverHow(s, c); }
    assert how == EndFor(s, c);
    hide Step, Inv, EndFor, Settle, Table.Valid, Table.InFlight;
    SettleFuture(w, j, how, expire, probe, err);
  }

  lemma CancelFuture(t: Table, i: Instance, j: nat)
    requires t.Valid() && t.InFlight(j) && t.jobs[j].key.instance == i
    ensures CancelInstance(t, i).jobs[j].future == Finished(Cancelled)
  {
    InFlightSplit(t, j);
    var u := FlushQueue(t, i);
    assert |u.jobs| == |t.jobs| && u.leases == t.leases;
    if t.Queued(j) {
      assert u.jobs[j].future == Finished(Cancelled);
    } else {
      assert u.jobs[j] == t.jobs[j];
      RetireFuture(u, j, Cancelled, false);
    }
  }

  /** Futures are finished once: a finished one keeps its result. */
  ghost predicate FinishedKept(t: Table, u: Table) {
    && |t.jobs| <= |u.jobs|
    && forall j: nat | j < |t.jobs| && t.jobs[j].future.Finished? :: u.jobs[j].future == t.jobs[j].future
  }

  lemma CancelFinishedKept(t: Table, i: Instance)
    ensures FinishedKept(t, CancelInstance(t, i)) && |CancelInstance(t, i).jobs| == |t.jobs|
  {}

  lemma {:induction false} CancelledEachFuture(s: State, instances: seq<Instance>, j: nat)
    requires DueInv(s) && s.table.InFlight(j) && s.table.jobs[j].key.instance in instances
    ensures var u := CancelledEach(s, instances).table; j < |u.jobs| && u.jobs[j].future == Finished(Cancelled)
    decreases |instances|
  {
    var rest, i := instances[..|instances| - 1], instances[|instances| - 1];
    var mid := CancelledEach(s, rest).table;
    assert instances == rest + [i];
    CancelledEachTable(s, rest, i);
    CancelledEachInv(s, rest);
    CancelledEachOlder(s, rest);
    OlderJob(s.table, mid, j);
    DueInvFacts(CancelledEach(s, rest));
    CancelFinishedKept(mid, i);
    hide CancelledEach, CancelInstance, DueInv, Table.InFlight;
    if s.table.jobs[j].key.instance in rest {
      CancelledEachFuture(s, rest, j);
    } else {
      StaysInFlight(s, rest, j);
      CancelFuture(mid, i, j);
    }
  }

  lemma {:induction false} StaysInFlight(s: State, instances: seq<Instance>, j: nat)
    requires DueInv(s) && s.table.InFlight(j) && s.table.jobs[j].key.instance !in instances
    ensures CancelledEach(s, instances).table.InFlight(j)
    ensures CancelledEach(s, instances).table.jobs[j].key == s.table.jobs[j].key
    decreases |instances|
  {
    if instances != [] {
      var rest, i := instances[..|instances| - 1], instances[|instances| - 1];
      assert instances == rest + [i];
      CancelledEachTable(s, rest, i);
      StaysInFlight(s, rest, j);
      CancelledEachInv(s, rest);
      DueInvFacts(CancelledEach(s, rest));
      CancelInstanceFlights(CancelledEach(s, rest).table, i, j);
      CancelInstanceJobs(CancelledEach(s, rest).table, i);
      hide CancelledEach, CancelInstance;
    }
  }

  lemma DrainFuture(s: State, j: nat)
    requires s.table.Valid() && s.table.InFlight(j) && !Drained(s).table.InFlight(j)
    ensures Drained(s).table.jobs[j].future == Finished(Cancelled)
  {
    InFlightSplit(s.table, j);
    DrainedFlights(s);
    assert s.table.Queued(j);
    hide QueuedJobs, LeasedJobs;
  }

  /** Whoever waits for a job is told, in the step in which it leaves flight: applied exactly if
      its result was applied and applying did not fail; stale if its lease expired or its result
      came too late or could not be applied; cancelled otherwise. */
  lemma FutureTells(s: State, c: Command, j: nat)
    requires Inv(s) && Enabled(s, c) && LeavesAt(s, c, j)
    ensures j < |Step(s, c).table.jobs| && Step(s, c).table.jobs[j].future == Finished(EndFor(s, c))
  {
    StepSame(s, c);
    InvDue(s);
    DueInvFacts(s);
    if c.Expire? || c.Deliver? {
      EndedLeaves(s, c, j);
      EndedFuture(s, c, j);
    } else if c.Cancel? {
      CancelTells(s, c.instances, j);
    } else if c.Drain? {
      DrainFuture(s, j);
    } else {
      OthersKeepFlights(s, c, j);
    }
  }

  lemma CancelTells(s: State, instances: seq<Instance>, j: nat)
    requires DueInv(s) && LeavesAt(s, Cancel(instances), j)
    ensures var u := CancelledEach(s, instances).table; j < |u.jobs| && u.jobs[j].future == Finished(Cancelled)
  {
    hide DueInv, CancelledEach;
    if s.table.jobs[j].key.instance !in instances { StaysInFlight(s, instances, j); }
    CancelledEachFuture(s, instances, j);
  }

  lemma OthersKeepFlights(s: State, c: Command, j: nat)
    requires Inv(s) && Enabled(s, c) && !c.Expire? && !c.Deliver? && !c.Cancel? && !c.Drain? && s.table.InFlight(j)
    ensures Step(s, c).table.InFlight(j)
  {
    if c.Submit? { SubmitKeepsFlights(s, c.intent, j); }
    if c.MarkProbeSent? { MarkedTable(s.table, c.job); }
    hide Submitted, Inv;
  }
}
