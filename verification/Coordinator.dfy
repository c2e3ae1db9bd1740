/** The coordinator's loop in its own form: one object whose maps and lists each command
    updates in place. Every method is proved to take the step of the state machine. */
module Coordinator {
  import opened Basics
  import opened JobTable
  import Spec = CoordinatorSpec
  import opened CoordinatorProofs
  import opened DrainSteps

  /** The queue of an instance names jobs that exist. */
  ghost predicate QueueBounded(t: Table, i: Instance) {
    forall a | 0 <= a < |t.QueueOf(i)| :: t.QueueOf(i)[a] < |t.jobs|
  }

  lemma ValidQueueBounded(t: Table, i: Instance)
    requires t.Valid()
    ensures QueueBounded(t, i)
  {
    var q := t.QueueOf(i);
    forall a | 0 <= a < |q| ensures q[a] < |t.jobs| { assert t.queue[i][a] == q[a]; }
  }

  lemma EnqueueQueueBounded(s: Spec.State, job: Job)
    requires Inv(s)
    ensures QueueBounded(Enqueue(s.table, job), job.key.instance)
  {
    ValidQueueBounded(s.table, job.key.instance);
  }

  lemma DueFacts(s: Spec.State, j: nat)
    requires Inv(s) && j < |s.table.jobs|
    ensures QueueBounded(s.table, s.table.jobs[j].key.instance) && |s.drains| == |s.ledgers|
  {
    ValidQueueBounded(s.table, s.table.jobs[j].key.instance);
  }

  lemma KeyInstance(s: Spec.State, intent: Intent)
    ensures Spec.KeyFor(s, intent).instance == intent.instance
  {}

  class Loop {
    var inflight: map<OperationKey, nat>
    var leases: map<Instance, nat>
    var queue: map<Instance, seq<nat>>
    var jobs: seq<Job>
    var accepting: bool
    var completedFence: map<Instance, nat>
    var generations: map<Instance, Generation>
    var cancelledThrough: map<Instance, Generation>
    var cancelTokens: map<Instance, nat>
    var cancelNonce: nat
    var typedNonce: nat
    var drains: seq<Spec.DrainReport>
    ghost var ledgers: seq<Spec.Ledger>
    ghost var replies: seq<(Spec.DrainReport, Spec.Ledger)>
    ghost var applied: seq<nat>

    ghost function Jobs(): Table
      reads this
    {
      Table(inflight, leases, queue, jobs)
    }

    ghost function View(): Spec.State
      reads this
    {
      Spec.State(Jobs(), accepting, completedFence, generations, cancelledThrough, cancelTokens,
                 cancelNonce, typedNonce, drains, ledgers, replies, applied)
    }

    ghost predicate Valid()
      reads this
    {
      Inv(View())
    }

    constructor ()
      ensures View() == Spec.Initial && Valid()
    {
      inflight, leases, queue, jobs := map[], map[], map[], [];
      accepting, completedFence, generations := true, map[], map[];
      cancelledThrough, cancelTokens, cancelNonce, typedNonce := map[], map[], 0, 0;
      drains, ledgers, replies, applied := [], [], [], [];
    }

    function QueueOf(i: Instance): (q: seq<nat>)
      reads this
      ensures q == Jobs().QueueOf(i)
    {
      if i in queue then queue[i] else []
    }

    // ---- Submitting and starting ----

    method TryStart(i: Instance)
      requires QueueBounded(Jobs(), i)
      modifies this
      ensures View() == Spec.TryStart(old(View()), i)
    {
      if !accepting || i in leases {
        return;
      }
      var q := QueueOf(i);
      if |q| > 0 {
        var intent := jobs[q[0]].intent;
        if intent.class_.LegacyRefresh? && intent.startedAfter > Spec.Get(completedFence, i) {
          return;
        }
        queue := queue[i := q[1..]];
        leases := leases[i := q[0]];
        jobs := jobs[q[0] := jobs[q[0]].(started := true)];
      } else {
        queue := queue - {i};
      }
    }

    method Append(job: Job)
      modifies this
      ensures View() == old(View()).(table := Enqueue(old(Jobs()), job))
    {
      var j := |jobs|;
      jobs := jobs + [job];
      inflight := inflight[job.key := j];
      queue := queue[job.key.instance := QueueOf(job.key.instance) + [j]];
    }

    method NextKey(intent: Intent) returns (key: OperationKey)
      modifies this`typedNonce
      ensures key == Spec.KeyFor(old(View()), intent) && typedNonce == Spec.NonceAfter(old(View()), intent)
    {
      var nonce := 0;
      if intent.class_.ProbeSend? {
        typedNonce := typedNonce + 1;
        nonce := typedNonce;
      }
      key := OperationKey(intent.instance, intent.class_, intent.generation, intent.attempt, nonce);
    }

    method Submit(intent: Intent) returns (reply: Spec.Reply)
      requires Valid()
      modifies this
      ensures Valid()
      ensures View() == Spec.Submitted(old(View()), intent)
      ensures reply == Spec.ReplyTo(old(View()), intent)
    {
      ghost var s := View();
      SubmittedInv(s, intent);
      EnqueueQueueBounded(s, Spec.NewJob(s, intent));
      hide Inv, QueueBounded, Enqueue, Spec.TryStart, Spec.SameMarks, Spec.KeyFor, Spec.NonceAfter, Spec.Raise;
      KeyInstance(s, intent);
      var key := NextKey(intent);
      if key in inflight {
        return Spec.Joined(inflight[key]);
      }
      if !accepting || intent.instance in cancelledThrough || intent.source.UnknownSource?
         || (intent.source.LegacyEnvelope? && !intent.class_.LegacyRefresh?) {
        return Spec.Rejected;
      }
      reply := Spec.Accepted(|jobs|);
      Accept(Job(key, intent, Unfinished, false, false, false, false));
    }

    method Accept(job: Job)
      requires QueueBounded(Enqueue(Jobs(), job), job.key.instance) && job.key.instance == job.intent.instance
      modifies this
      ensures var s, i := old(View()), job.intent.instance;
              View() == Spec.TryStart(s.(table := Enqueue(s.table, job),
                                         generations := Spec.Raise(s.generations, i, job.intent.generation)), i)
    {
      hide QueueBounded, Enqueue, Spec.TryStart, Spec.SameMarks;
      var i := job.intent.instance;
      if job.intent.generation > Spec.Get(generations, i) {
        generations := generations[i := job.intent.generation];
      }
      Append(job);
      TryStart(i);
    }

    // ---- The end of a job ----

    method TallyDrains(how: Disposition, probe: bool, inheritErr: bool)
      modifies this`drains
      ensures drains == Spec.TallyAll(old(drains), how, probe, inheritErr)
    {
      var d := 0;
      while d < |drains|
        invariant 0 <= d <= |drains| == |old(drains)|
        invariant forall e | 0 <= e < d :: drains[e] == Spec.Tally(old(drains)[e], how, probe, inheritErr)
        invariant forall e | d <= e < |drains| :: drains[e] == old(drains)[e]
      {
        var r := drains[d];
        r := r.(completed := r.completed + 1);
        if how.DiscardedStale? || how.Cancelled? {
          r := r.(invalidated := r.invalidated + 1);
          if probe && !inheritErr {
            r := r.(sentUnknown := r.sentUnknown + 1);
          }
          if inheritErr {
            r := r.(persistenceFailures := r.persistenceFailures + 1, handoffBlocked := true);
          }
        }
        drains := drains[d := r];
        d := d + 1;
      }
    }

    method FinishDrains()
      requires |drains| == |ledgers|
      modifies this
      ensures View() == Spec.FinishDrains(old(View()))
    {
      if |inflight| != 0 || |drains| == 0 {
        assert Spec.FinishDrains(View()).replies == replies;
        return;
      }
      replies := replies + Spec.Pairs(drains, ledgers);
      drains, ledgers := [], [];
    }

    method RetireJob(j: nat, how: Disposition, expire: bool, invalidate: bool)
      requires j < |jobs|
      modifies this`inflight, this`leases, this`jobs
      ensures View() == old(View()).(table := Retire(old(Jobs()), j, how, expire, invalidate))
    {
      var job := jobs[j];
      inflight := inflight - {job.key};
      if job.key.instance in leases && leases[job.key.instance] == j {
        leases := leases - {job.key.instance};
      }
      jobs := jobs[j := job.(future := job.future.Complete(how),
                             expired := job.expired || expire,
                             invalidated := job.invalidated || invalidate)];
    }

    method RaiseFence(i: Instance, fence: nat)
      modifies this`completedFence
      ensures View() == old(View()).(completedFence := Spec.Raise(old(completedFence), i, fence))
    {
      if fence > Spec.Get(completedFence, i) {
        completedFence := completedFence[i := fence];
      }
    }

    /** Enter the end of a job in every waiting report. */
    method EnterEnd(j: nat, how: Disposition, probe: bool, inheritErr: bool)
      modifies this`drains, this`ledgers
      ensures View() == old(View()).(drains := Spec.TallyAll(old(drains), how, probe, inheritErr),
                                     ledgers := Spec.RecordAll(old(ledgers), j, how, probe, inheritErr))
    {
      hide Spec.TallyAll, Spec.RecordAll;
      TallyDrains(how, probe, inheritErr);
      ledgers := Spec.RecordAll(ledgers, j, how, probe, inheritErr);
    }

    method Close(j: nat, how: Disposition, expire: bool, probe: bool, inheritErr: bool)
      requires j < |jobs|
      modifies this
      ensures View() == Spec.Closed(old(View()), j, how, expire, probe, inheritErr)
    {
      hide Retire, Spec.TallyAll, Spec.RecordAll, Spec.SameMarks, Spec.Raise, Spec.Closed;
      ClosedIs(View(), j, how, expire, probe, inheritErr);
      var job := jobs[j];
      RetireJob(j, how, expire, false);
      RaiseFence(job.key.instance, job.intent.token.fence);
      EnterEnd(j, how, probe, inheritErr);
    }

    method Settle(j: nat, how: Disposition, expire: bool, probe: bool, inheritErr: bool)
      requires j < |jobs| && QueueBounded(Jobs(), jobs[j].key.instance) && |drains| == |ledgers|
      modifies this
      ensures View() == Spec.Settle(old(View()), j, how, expire, probe, inheritErr)
    {
      var i := jobs[j].key.instance;
      Close(j, how, expire, probe, inheritErr);
      assert Jobs().QueueOf(i) == old(Jobs().QueueOf(i)) && |jobs| == old(|jobs|);
      TryStart(i);
      FinishDrains();
    }

    /** A lease timer fired. Persisting that a probe was sent may fail. */
    method Expire(j: nat, inheritFails: bool)
      requires Valid() && j < |jobs| && jobs[j].started
      modifies this
      ensures Valid()
      ensures View() == Spec.Expired(old(View()), j, inheritFails)
    {
      ExpiredInv(View(), j, inheritFails);
      DueFacts(View(), j);
      hide Inv, QueueBounded, Spec.Settle, Spec.SameMarks;
      var job := jobs[j];
      if !(job.key in inflight && inflight[job.key] == j) || job.expired {
        return;
      }
      Settle(j, DiscardedStale, true, job.probeSent, job.probeSent && inheritFails);
    }

    /** An executor answered. The out-parameter says whether the host logs are dispatched
        first; Apply runs for a valid result only. */
    method Deliver(j: nat, r: Spec.Result, validates: bool, applyFails: bool, inheritFails: bool)
      returns (dispatchLogs: bool)
      requires Valid() && j < |jobs| && jobs[j].started
      modifies this
      ensures Valid()
      ensures View() == Spec.Delivered(old(View()), j, r, validates, applyFails, inheritFails)
      ensures dispatchLogs ==> View() == old(View()) && Jobs().InFlight(j)
    {
      DeliveredInv(View(), j, r, validates, applyFails, inheritFails);
      DueFacts(View(), j);
      hide Inv, QueueBounded, Spec.Settle, Spec.SameMarks;
      var job := jobs[j];
      dispatchLogs := false;
      if !(job.key in inflight && inflight[job.key] == j) {
        return;
      }
      var valid := !job.expired && !job.invalidated && !r.callbackFailed && r.token == job.intent.token && validates;
      if valid && r.hostLogs {
        dispatchLogs := true;
        return;
      }
      assert valid == Spec.ResultValid(View(), j, r, validates);
      Answer(j, r.probePhase || job.probeSent, valid, applyFails, inheritFails);
    }

    method Answer(j: nat, probe: bool, valid: bool, applyFails: bool, inheritFails: bool)
      requires j < |jobs| && QueueBounded(Jobs(), jobs[j].key.instance) && |drains| == |ledgers|
      modifies this
      ensures var s, stale := old(View()), !valid || applyFails;
              View() == Spec.Settle(s.(applied := if valid then s.applied + [j] else s.applied), j,
                                    if stale then DiscardedStale else Applied,
                                    false, probe, stale && probe && inheritFails)
    {
      hide QueueBounded, Spec.Settle, Spec.SameMarks;
      var how := Applied;
      var inheritErr := false;
      if !valid || applyFails {
        how := DiscardedStale;
        inheritErr := probe && inheritFails;
      }
      if valid {
        applied := applied + [j];
      }
      Settle(j, how, false, probe, inheritErr);
    }

    method MarkProbeSent(j: nat)
      requires Valid() && j < |jobs| && jobs[j].started
      modifies this
      ensures Valid()
      ensures View() == Spec.Step(old(View()), Spec.MarkProbeSent(j))
    {
      hide Inv;
      StepInv(View(), Spec.MarkProbeSent(j));
      jobs := jobs[j := jobs[j].(probeSent := true)];
    }

    // ---- Cancellation, activation, rollback ----

    method CancelQueued(j: nat)
      requires j < |jobs|
      modifies this`inflight, this`jobs
      ensures Jobs() == CancelJob(old(Jobs()), j)
    {
      if jobs[j].key in inflight && inflight[jobs[j].key] == j {
        inflight := inflight - {jobs[j].key};
      }
      jobs := jobs[j := jobs[j].(invalidated := true, future := jobs[j].future.Complete(Cancelled))];
    }

    method FlushQueue(i: Instance)
      requires Jobs().KeysMatch() && QueueBounded(Jobs(), i)
      modifies this`inflight, this`queue, this`jobs
      ensures Jobs() == JobTable.FlushQueue(old(Jobs()), i)
    {
      var q := QueueOf(i);
      ghost var t := Jobs();
      CancelNoJobs(t);
      hide CancelJobs, CancelJob, Table.KeysMatch;
      var a := 0;
      while a < |q|
        invariant 0 <= a <= |q|
        invariant Jobs() == CancelJobs(t, q[..a])
      {
        CancelJobsFrame(t, q[..a]);
        CancelJobsAdd(t, q[..a], q[a]);
        CancelQueued(q[a]);
        assert q[..a + 1] == q[..a] + [q[a]];
        a := a + 1;
      }
      assert q[..a] == q;
      CancelJobsFrame(t, q);
      queue := queue - {i};
    }

    /** The mark and its token; the drains under way learn which lease holder went. */
    method MarkCancelled(i: Instance)
      modifies this`cancelNonce, this`cancelTokens, this`cancelledThrough, this`ledgers
      ensures cancelNonce == old(cancelNonce) + 1
      ensures cancelTokens == old(cancelTokens)[i := old(cancelNonce) + 1]
      ensures cancelledThrough == old(cancelledThrough)[i := Spec.Get(generations, i)]
      ensures ledgers == if i in leases then Spec.Withdraw(old(ledgers), leases[i]) else old(ledgers)
    {
      hide Spec.Withdraw, Spec.Get;
      if i in leases {
        ledgers := Spec.Withdraw(ledgers, leases[i]);
      }
      cancelNonce := cancelNonce + 1;
      cancelTokens := cancelTokens[i := cancelNonce];
      cancelledThrough := cancelledThrough[i := Spec.Get(generations, i)];
    }

    method CancelOne(i: Instance)
      requires Jobs().KeysMatch() && QueueBounded(Jobs(), i) && (i in leases ==> leases[i] < |jobs|)
      modifies this
      ensures View() == Spec.CancelledOne(old(View()), i)
    {
      hide CancelInstance, Spec.Withdraw, Spec.Get, QueueBounded, Table.KeysMatch;
      MarkCancelled(i);
      CancelJobsOf(i);
    }

    method CancelJobsOf(i: Instance)
      requires Jobs().KeysMatch() && QueueBounded(Jobs(), i) && (i in leases ==> leases[i] < |jobs|)
      modifies this`inflight, this`leases, this`queue, this`jobs
      ensures Jobs() == CancelInstance(old(Jobs()), i)
    {
      FlushQueue(i);
      if i in leases {
        RetireJob(leases[i], Cancelled, false, true);
      }
    }

    /** Each instance gets a token of its own; the tokens are what a rollback must show. */
    method Cancel(instances: seq<Instance>) returns (tokens: map<Instance, nat>)
      requires Valid()
      modifies this
      ensures Valid()
      ensures View() == Spec.FinishDrains(Spec.CancelledEach(old(View()), instances))
      ensures tokens.Keys == (set i | i in instances)
      ensures forall i | i in instances :: i in cancelTokens && tokens[i] == cancelTokens[i]
    {
      hide Inv, DueInv, Spec.CancelledOne;
      ghost var s := View();
      InvDue(s);
      StepInv(s, Spec.Cancel(instances));
      tokens := map[];
      var n := 0;
      while n < |instances|
        invariant 0 <= n <= |instances|
        invariant DueInv(View()) && View() == Spec.CancelledEach(s, instances[..n])
        invariant tokens.Keys == (set i | i in instances[..n])
        invariant forall i | i in instances[..n] :: i in cancelTokens && tokens[i] == cancelTokens[i]
      {
        var i := instances[n];
        DueInvFacts(View());
        FlushQueueLease(Jobs(), i);
        CancelledOneInv(View(), i);
        CancelledOneTokens(View(), i);
        CancelledEachAdd(s, instances, n);
        CancelOne(i);
        tokens := tokens[i := cancelTokens[i]];
        n := n + 1;
      }
      assert instances[..n] == instances;
      DueInvFacts(View());
      FinishDrains();
    }

    method ActivateEach(gs: map<Instance, Generation>)
      modifies this`generations, this`cancelledThrough, this`cancelTokens
      ensures generations == Spec.RaiseAll(old(generations), gs)
      ensures cancelledThrough == old(cancelledThrough) - Spec.Above(gs, old(cancelledThrough))
      ensures cancelTokens == old(cancelTokens) - Spec.Above(gs, old(cancelledThrough))
    {
      hide Spec.RaiseAll, Spec.Above;
      ghost var g0, c0, t0 := generations, cancelledThrough, cancelTokens;
      ghost var done: map<Instance, Generation> := map[];
      var todo := gs.Keys;
      NothingRaised(g0, c0);
      while todo != {}
        invariant done.Keys + todo == gs.Keys && done.Keys !! todo && forall i | i in done :: done[i] == gs[i]
        invariant generations == Spec.RaiseAll(g0, done)
        invariant cancelledThrough == c0 - Spec.Above(done, c0)
        invariant cancelTokens == t0 - Spec.Above(done, c0)
        decreases todo
      {
        var i :| i in todo;
        RaiseAllAdd(g0, done, i, gs[i]);
        AboveAdd(c0, done, i, gs[i]);
        if gs[i] > Spec.Get(generations, i) {
          generations := generations[i := gs[i]];
        }
        if gs[i] > Spec.Get(cancelledThrough, i) {
          cancelledThrough := cancelledThrough - {i};
          cancelTokens := cancelTokens - {i};
        }
        todo, done := todo - {i}, done[i := gs[i]];
      }
      assert done == gs;
    }

    method Activate(gs: map<Instance, Generation>)
      requires Valid()
      modifies this
      ensures Valid()
      ensures View() == Spec.Activated(old(View()), gs)
    {
      hide Inv, Spec.RaiseAll, Spec.Above;
      StepInv(View(), Spec.Activate(gs));
      ActivateEach(gs);
    }

    method RestoreEach(gs: map<Instance, Generation>, tokens: map<Instance, nat>)
      modifies this`cancelledThrough, this`cancelTokens
      ensures cancelledThrough == old(cancelledThrough) - Spec.RolledBack(old(View()), gs, tokens)
      ensures cancelTokens == old(cancelTokens) - Spec.RolledBack(old(View()), gs, tokens)
    {
      ghost var s := View();
      var todo := gs.Keys;
      while todo != {}
        invariant todo <= gs.Keys
        invariant cancelledThrough == s.cancelledThrough - Spec.RolledBack(s, gs - todo, tokens)
        invariant cancelTokens == s.cancelTokens - Spec.RolledBack(s, gs - todo, tokens)
        decreases todo
      {
        var i :| i in todo;
        RolledBackAdd(s, gs - todo, tokens, i, gs[i]);
        RestrictAdd(gs, todo, i);
        if Spec.Get(cancelledThrough, i) == gs[i] && Spec.Get(cancelTokens, i) == Spec.Get(tokens, i) {
          cancelledThrough := cancelledThrough - {i};
          cancelTokens := cancelTokens - {i};
        }
        todo := todo - {i};
      }
      assert gs - todo == gs;
    }

    method Restore(gs: map<Instance, Generation>, tokens: map<Instance, nat>)
      requires Valid()
      modifies this
      ensures Valid()
      ensures View() == Spec.Restored(old(View()), gs, tokens)
    {
      hide Inv, Spec.RolledBack;
      StepInv(View(), Spec.Restore(gs, tokens));
      RestoreEach(gs, tokens);
    }

    // ---- Draining ----

    method DropQueued(j: nat)
      requires j < |jobs|
      modifies this`inflight, this`jobs
      ensures Jobs() == DropJob(old(Jobs()), j)
    {
      if jobs[j].key in inflight && inflight[jobs[j].key] == j {
        inflight := inflight - {jobs[j].key};
      }
      jobs := jobs[j := jobs[j].(future := jobs[j].future.Complete(Cancelled))];
    }

    method DropQueue(q: seq<nat>, ghost t: Table, ghost xs: seq<nat>)
      requires t.KeysMatch() && (forall a | 0 <= a < |q| :: q[a] < |t.jobs|)
      requires inflight == DropJobs(t, xs).inflight && jobs == DropJobs(t, xs).jobs
      modifies this`inflight, this`jobs
      ensures inflight == DropJobs(t, xs + q).inflight && jobs == DropJobs(t, xs + q).jobs
    {
      hide DropJobs, Table.KeysMatch;
      var a := 0;
      assert xs + q[..a] == xs;
      while a < |q|
        invariant 0 <= a <= |q|
        invariant inflight == DropJobs(t, xs + q[..a]).inflight && jobs == DropJobs(t, xs + q[..a]).jobs
      {
        DropJobsAdd(t, xs + q[..a], q[a]);
        DropQueued(q[a]);
        assert xs + q[..a + 1] == xs + q[..a] + [q[a]];
        a := a + 1;
      }
      assert q[..a] == q;
    }

    method FlushQueues() returns (count: nat, ghost xs: seq<nat>)
      requires Jobs().Valid()
      modifies this`inflight, this`queue, this`jobs
      ensures Flushed(old(Jobs()), {}, xs) && count == |xs|
      ensures Jobs() == DropJobs(old(Jobs()), xs).(queue := map[])
    {
      hide DropJobs;
      ghost var t := Jobs();
      count, xs := 0, [];
      DropNoJobs(t);
      while |queue| > 0
        invariant queue.Keys <= t.queue.Keys && forall i | i in queue :: queue[i] == t.queue[i]
        invariant inflight == DropJobs(t, xs).inflight && jobs == DropJobs(t, xs).jobs
        invariant Flushed(t, queue.Keys, xs) && count == |xs|
        decreases |queue|
      {
        assert queue.Keys != {};
        var i :| i in queue.Keys;
        FlushedAdd(t, queue.Keys, i, xs);
        ValidQueueBounded(t, i);
        DropQueue(queue[i], t, xs);
        count, xs := count + |queue[i]|, xs + queue[i];
        queue := queue - {i};
      }
      assert queue == map[];
      DropJobsFrame(t, xs);
    }

    method InvalidateLeased() returns (count: nat)
      requires Jobs().KeysMatch() && forall k | k in inflight :: inflight[k] < |jobs| && jobs[inflight[k]].started
      modifies this`jobs
      ensures jobs == MarkJobs(old(Jobs()), inflight.Keys)
      ensures count == |inflight|
    {
      hide MarkJobs, Table.KeysMatch;
      ghost var t := Jobs();
      MarkNoJobs(t);
      var flights := inflight;
      var todo := flights.Keys;
      ghost var done: set<OperationKey> := {};
      count := 0;
      while todo != {}
        invariant done + todo == flights.Keys && done !! todo
        invariant jobs == MarkJobs(t, done)
        invariant count == |done|
        decreases todo
      {
        var k :| k in todo;
        var j := flights[k];
        MarkJobsAdd(t, done, k);
        if jobs[j].started {
          jobs := jobs[j := jobs[j].(invalidated := true)];
          count := count + 1;
        }
        todo, done := todo - {k}, done + {k};
      }
    }

    method DrainJobs() returns (dropped: nat, marked: nat)
      requires Jobs().Valid()
      modifies this`inflight, this`queue, this`jobs
      ensures Jobs() == FlushAll(old(Jobs()))
      ensures dropped == |Spec.QueuedJobs(old(Jobs()))| && marked == |Spec.LeasedJobs(old(Jobs()))|
    {
      hide Table.Valid, MarkJobs, FlushAll, Flushed, Spec.QueuedJobs, Spec.LeasedJobs, DropJobs;
      ghost var t := Jobs();
      ghost var xs;
      dropped, xs := FlushQueues();
      DroppedFlights(t, xs);
      DroppedCounts(t, xs);
      FlushAllSteps(t, xs);
      marked := InvalidateLeased();
    }

    method StopAccepting() returns (dropped: nat, marked: nat)
      requires Jobs().Valid()
      modifies this`inflight, this`queue, this`jobs, this`accepting
      ensures View() == Stopped(old(View()))
      ensures dropped == |Spec.QueuedJobs(old(Jobs()))| && marked == |Spec.LeasedJobs(old(Jobs()))|
    {
      hide Table.Valid, FlushAll, Spec.QueuedJobs, Spec.LeasedJobs;
      accepting := false;
      dropped, marked := DrainJobs();
    }

    /** A report goes out at once when nothing is in flight, and waits otherwise. */
    method FileReport(report: Spec.DrainReport, ghost ledger: Spec.Ledger)
      modifies this`drains, this`ledgers, this`replies
      ensures View() == Filed(old(View()), report, ledger)
    {
      if |inflight| == 0 {
        replies := replies + [(report, ledger)];
      } else {
        drains := drains + [report];
        ledgers := ledgers + [ledger];
      }
    }

    method DrainAll()
      requires Jobs().Valid()
      modifies this
      ensures View() == Spec.Drained(old(View()))
    {
      ghost var s := View();
      hide Table.Valid, Spec.Drained, Stopped, Filed, Spec.QueuedJobs, Spec.LeasedJobs;
      DrainedIs(s);
      var dropped, marked := StopAccepting();
      FileReport(Spec.DrainReport(dropped, dropped + marked, 0, 0, 0, false),
                 Spec.Ledger(Spec.QueuedJobs(s.table), Spec.LeasedJobs(s.table), {}, {}, {}, {}));
    }

    method Drain()
      requires Valid()
      modifies this
      ensures Valid()
      ensures View() == Spec.Drained(old(View()))
    {
      DrainedInv(View());
      InvDue(View());
      DueInvFacts(View());
      hide Inv, DueInv, Table.Valid, Spec.Drained, View;
      DrainAll();
    }
  }

  ghost function Stopped(s: Spec.State): Spec.State {
    s.(accepting := false, table := FlushAll(s.table))
  }

  ghost function Filed(s: Spec.State, report: Spec.DrainReport, ledger: Spec.Ledger): Spec.State {
    if s.table.inflight == map[] then s.(replies := s.replies + [(report, ledger)])
    else s.(drains := s.drains + [report], ledgers := s.ledgers + [ledger])
  }

  lemma ClosedIs(s: Spec.State, j: nat, how: Disposition, expire: bool, probe: bool, inheritErr: bool)
    requires j < |s.table.jobs|
    ensures var job := s.table.jobs[j];
            Spec.Closed(s, j, how, expire, probe, inheritErr) ==
            s.(table := Retire(s.table, j, how, expire),
               completedFence := Spec.Raise(s.completedFence, job.key.instance, job.intent.token.fence),
               drains := Spec.TallyAll(s.drains, how, probe, inheritErr),
               ledgers := Spec.RecordAll(s.ledgers, j, how, probe, inheritErr))
  {}

  lemma DrainedIs(s: Spec.State)
    ensures var q, l := Spec.QueuedJobs(s.table), Spec.LeasedJobs(s.table);
            Spec.Drained(s) ==
            Filed(Stopped(s), Spec.DrainReport(|q|, |q| + |l|, 0, 0, 0, false), Spec.Ledger(q, l, {}, {}, {}, {}))
  {
    hide FlushAll, Spec.QueuedJobs, Spec.LeasedJobs;
  }

  lemma DropJobsFrame(t: Table, xs: seq<nat>)
    ensures DropJobs(t, xs).leases == t.leases
  {}

  // ---- Cancelling several instances ----

  lemma CancelledOneTokens(s: Spec.State, i: Instance)
    ensures var u := Spec.CancelledOne(s, i);
            i in u.cancelTokens
            && forall k | k != i && k in s.cancelTokens :: k in u.cancelTokens && u.cancelTokens[k] == s.cancelTokens[k]
  {}

  lemma CancelledEachAdd(s: Spec.State, instances: seq<Instance>, n: nat)
    requires n < |instances|
    ensures Spec.CancelledEach(s, instances[..n + 1]) ==
            Spec.CancelledOne(Spec.CancelledEach(s, instances[..n]), instances[n])
  {
    assert instances[..n + 1][..n] == instances[..n];
  }

  // ---- Queued jobs are cancelled one after the other ----

  function CancelJob(t: Table, j: nat): Table
    requires j < |t.jobs|
  {
    var job := t.jobs[j];
    t.(inflight := if job.key in t.inflight && t.inflight[job.key] == j then t.inflight - {job.key} else t.inflight,
       jobs := t.jobs[j := job.(invalidated := true, future := job.future.Complete(Cancelled))])
  }

  lemma CancelNoJobs(t: Table)
    ensures CancelJobs(t, []) == t
  {
    assert CancelJobs(t, []).inflight == t.inflight;
    assert CancelJobs(t, []).jobs == t.jobs;
  }

  lemma CancelJobsFrame(t: Table, q: seq<nat>)
    ensures var u := CancelJobs(t, q); |u.jobs| == |t.jobs| && u.leases == t.leases && u.queue == t.queue
  {}

  lemma CancelJobsAdd(t: Table, q: seq<nat>, j: nat)
    requires t.KeysMatch() && j < |t.jobs|
    ensures CancelJobs(t, q + [j]) == CancelJob(CancelJobs(t, q), j)
  {
    var u, w := CancelJobs(t, q + [j]), CancelJob(CancelJobs(t, q), j);
    assert u.inflight == w.inflight;
    assert u.jobs == w.jobs;
  }

  lemma FlushQueueLease(t: Table, i: Instance)
    requires t.Valid()
    ensures QueueBounded(t, i)
    ensures i in t.leases ==> t.leases[i] < |t.jobs|
  {
    ValidQueueBounded(t, i);
  }

  // ---- A map of generations is worked off one instance at a time, in any order ----

  lemma RaiseAllAdd(m: map<Instance, nat>, gs: map<Instance, nat>, i: Instance, g: nat)
    requires i !in gs
    ensures Spec.RaiseAll(m, gs[i := g]) == Spec.Raise(Spec.RaiseAll(m, gs), i, g)
  {
    var u, w := Spec.RaiseAll(m, gs[i := g]), Spec.Raise(Spec.RaiseAll(m, gs), i, g);
    assert Spec.Get(Spec.RaiseAll(m, gs), i) == Spec.Get(m, i);
    forall k | k in u || k in w ensures k in u && k in w && u[k] == w[k] {}
  }

  lemma AboveAdd(m: map<Instance, nat>, gs: map<Instance, nat>, i: Instance, g: nat)
    requires i !in gs
    ensures var a := Spec.Above(gs, m);
            i !in a && Spec.Above(gs[i := g], m) == if g > Spec.Get(m, i) then a + {i} else a
  {}

  lemma NothingRaised(m: map<Instance, nat>, c: map<Instance, nat>)
    ensures Spec.RaiseAll(m, map[]) == m && Spec.Above(map[], c) == {}
  {}

  lemma RestrictAdd(gs: map<Instance, nat>, todo: set<Instance>, i: Instance)
    requires i in todo && todo <= gs.Keys
    ensures gs - (todo - {i}) == (gs - todo)[i := gs[i]]
  {}

  lemma RolledBackAdd(s: Spec.State, gs: map<Instance, Generation>, tokens: map<Instance, nat>, i: Instance,
                      g: Generation)
    requires i !in gs
    ensures var a := Spec.RolledBack(s, gs, tokens);
            i !in a && Spec.RolledBack(s, gs[i := g], tokens) ==
              if Spec.Get(s.cancelledThrough, i) == g && Spec.Get(s.cancelTokens, i) == Spec.Get(tokens, i)
              then a + {i} else a
  {
    assert forall k | k in gs ::
      Spec.RestoreMatches(s, k, gs[i := g], tokens) <==> Spec.RestoreMatches(s, k, gs, tokens);
  }
}
