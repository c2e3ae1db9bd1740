/** When jobs start: at once where the lease is free, in the order they were accepted, and
    only a legacy refresh may be made to wait, for a fence that has not completed yet. */
module CoordinatorOrder {
  import opened Basics
  import opened JobTable
  import opened CoordinatorSpec
  import opened CoordinatorProofs
  import opened CoordinatorTheorems
  import opened CoordinatorDrains
  import opened CoordinatorAccounts

  // ---- What every step keeps ----

  /** A legacy refresh that asks for a fence after the one given. */
  predicate WaitsFor(intent: Intent, fence: nat) {
    intent.class_.LegacyRefresh? && intent.startedAfter > fence
  }

  ghost predicate Ascending(t: Table) {
    forall i, a, b | i in t.queue && 0 <= a < b < |t.queue[i]| :: t.queue[i][a] < t.queue[i][b]
  }

  /** No job is queued behind the back of a later one of its instance that was started. */
  ghost predicate InOrder(t: Table) {
    forall j: nat, k: nat | j < k < |t.jobs| && t.jobs[k].started && t.jobs[j].key.instance == t.jobs[k].key.instance ::
      !t.Queued(j)
  }

  /** A free lease beside a queue: the head of the queue waits for its fence. */
  predicate PromptAt(s: State, i: Instance) {
    i !in s.table.leases && s.table.QueueOf(i) != [] ==>
      var h := s.table.QueueOf(i)[0];
      h < |s.table.jobs| && WaitsFor(s.table.jobs[h].intent, Get(s.completedFence, i))
  }

  ghost predicate PromptBut(s: State, but: set<Instance>) {
    s.accepting ==> forall i: Instance | i !in but :: PromptAt(s, i)
  }

  /** A legacy refresh was started only once its fence had completed. */
  ghost predicate FencesMet(s: State) {
    forall j: nat | j < |s.table.jobs| && s.table.jobs[j].started ::
      !WaitsFor(s.table.jobs[j].intent, Get(s.completedFence, s.table.jobs[j].key.instance))
  }

  ghost predicate Orderly(s: State) {
    Ascending(s.table) && InOrder(s.table) && PromptBut(s, {}) && FencesMet(s)
  }

  // ---- Starting ----

  lemma QueueBelow(t: Table, i: Instance, a: nat)
    requires t.QueuesMatch() && a < |t.QueueOf(i)|
    ensures t.QueueOf(i)[a] < |t.jobs|
  {
    assert t.queue[i][a] == t.QueueOf(i)[a];
  }

  lemma HeadFirst(t: Table, i: Instance, j: nat)
    requires t.Valid() && Ascending(t) && t.QueueOf(i) != [] && t.Queued(j) && t.jobs[j].key.instance == i
    ensures t.QueueOf(i)[0] <= j
  {
    var a :| 0 <= a < |t.queue[i]| && t.queue[i][a] == j;
  }

  lemma StartHeadQueued(t: Table, i: Instance, j: nat)
    requires t.Valid() && i !in t.leases && |t.QueueOf(i)| > 0
    ensures t.QueueOf(i)[0] < |t.jobs|
    ensures StartHead(t, i).Queued(j) ==> t.Queued(j) && j != t.QueueOf(i)[0]
  {
    assert t.queue[i][0] == t.QueueOf(i)[0];
    var u := StartHead(t, i);
    if u.Queued(j) && t.jobs[j].key.instance == i {
      var a :| 0 <= a < |u.queue[i]| && u.queue[i][a] == j;
      assert t.queue[i][a + 1] == j;
    }
  }

  lemma StartHeadOrder(t: Table, i: Instance)
    requires t.Valid() && i !in t.leases && |t.QueueOf(i)| > 0 && Ascending(t) && InOrder(t)
    ensures t.QueueOf(i)[0] < |t.jobs| && Ascending(StartHead(t, i)) && InOrder(StartHead(t, i))
  {
    assert t.queue[i][0] == t.QueueOf(i)[0];
    var h, u := t.queue[i][0], StartHead(t, i);
    assert t.jobs[h].key.instance == i;
    forall j: nat, k: nat | j < k < |u.jobs| && u.jobs[k].started && u.jobs[j].key.instance == u.jobs[k].key.instance
      ensures !u.Queued(j)
    {
      StartHeadQueued(t, i, j);
      if k == h && t.Queued(j) { HeadFirst(t, i, j); }
    }
  }

  lemma TryStartOrder(s: State, i: Instance)
    requires s.table.Valid() && Ascending(s.table) && InOrder(s.table)
    ensures Ascending(TryStart(s, i).table) && InOrder(TryStart(s, i).table)
  {
    if CanStart(s, i) {
      StartHeadOrder(s.table, i);
    } else {
      QueueGone(s.table, i);
    }
  }

  /** An empty queue may be dropped. */
  lemma QueueGone(t: Table, i: Instance)
    requires Ascending(t) && InOrder(t)
    ensures var u := t.(queue := t.queue - {i}); Ascending(u) && InOrder(u)
  {
    var u := t.(queue := t.queue - {i});
    forall j: nat | u.Queued(j) ensures t.Queued(j) {}
  }

  lemma TryStartPrompt(s: State, i: Instance)
    requires s.table.Valid() && PromptBut(s, {i})
    ensures PromptBut(TryStart(s, i), {})
  {
    var u := TryStart(s, i);
    if s.accepting {
      forall x: Instance ensures PromptAt(u, x) {
        if x != i { assert PromptAt(s, x); }
        StartedHeads(s, i, x);
      }
    }
  }

  lemma StartHeadOther(t: Table, i: Instance, x: Instance)
    requires |t.QueueOf(i)| > 0 && t.QueueOf(i)[0] < |t.jobs| && x != i
    ensures var u := StartHead(t, i);
            && u.QueueOf(x) == t.QueueOf(x) && (x in u.leases <==> x in t.leases) && |u.jobs| == |t.jobs|
            && forall j: nat | j < |t.jobs| :: u.jobs[j].intent == t.jobs[j].intent
  {}

  lemma DropQueueOther(t: Table, i: Instance, x: Instance)
    requires x != i
    ensures t.(queue := t.queue - {i}).QueueOf(x) == t.QueueOf(x)
  {}

  lemma StartedHeads(s: State, i: Instance, x: Instance)
    requires s.table.Valid() && s.accepting && (x != i ==> PromptAt(s, x))
    ensures PromptAt(TryStart(s, i), x)
  {
    if s.table.QueueOf(i) != [] { QueueBelow(s.table, i, 0); }
    if x != i {
      DropQueueOther(s.table, i, x);
      if CanStart(s, i) { StartHeadOther(s.table, i, x); }
      hide Table.Valid, SameMarks, StartHead, Table.QueueOf, CanStart;
    } else {
      StartedSelf(s, i);
    }
  }

  lemma StartedSelf(s: State, i: Instance)
    requires s.accepting && (s.table.QueueOf(i) != [] ==> s.table.QueueOf(i)[0] < |s.table.jobs|)
    ensures PromptAt(TryStart(s, i), i)
  {
    hide SameMarks;
  }

  lemma TryStartFences(s: State, i: Instance)
    requires s.table.Valid() && FencesMet(s)
    ensures FencesMet(TryStart(s, i))
  {
    if CanStart(s, i) {
      var h := s.table.queue[i][0];
      assert s.table.jobs[h].key.instance == i;
    }
  }

  // ---- Each command ----

  lemma EnqueueQueued(t: Table, job: Job, j: nat)
    requires t.QueuesMatch() && j < |t.jobs|
    ensures Enqueue(t, job).Queued(j) ==> t.Queued(j)
  {
    var u, i := Enqueue(t, job), job.key.instance;
    if u.Queued(j) && t.jobs[j].key.instance == i {
      var a :| 0 <= a < |u.queue[i]| && u.queue[i][a] == j;
      assert a < |t.QueueOf(i)| ==> t.QueueOf(i)[a] == j;
    }
  }

  lemma EnqueueAscending(t: Table, job: Job)
    requires t.QueuesMatch() && Ascending(t)
    ensures Ascending(Enqueue(t, job))
  {
    var u, i := Enqueue(t, job), job.key.instance;
    forall x, a, b | x in u.queue && 0 <= a < b < |u.queue[x]| ensures u.queue[x][a] < u.queue[x][b] {
      if x == i { QueueBelow(t, i, a); }
    }
    hide Table.QueuesMatch;
  }

  lemma EnqueueInOrder(t: Table, job: Job)
    requires t.QueuesMatch() && !job.started && InOrder(t)
    ensures InOrder(Enqueue(t, job))
  {
    var u := Enqueue(t, job);
    forall j: nat, k: nat | j < k < |u.jobs| && u.jobs[k].started && u.jobs[j].key.instance == u.jobs[k].key.instance
      ensures !u.Queued(j)
    {
      assert k < |t.jobs|;
      EnqueueQueued(t, job, j);
      hide Table.Queued;
    }
  }

  lemma EnqueueOrder(t: Table, job: Job)
    requires t.Valid() && !job.started && Ascending(t) && InOrder(t)
    ensures Ascending(Enqueue(t, job)) && InOrder(Enqueue(t, job))
  {
    EnqueueAscending(t, job);
    EnqueueInOrder(t, job);
  }

  lemma EnqueuePrompt(s: State, w: State, job: Job)
    requires PromptBut(s, {}) && w.table == Enqueue(s.table, job)
    requires w.accepting == s.accepting && w.completedFence == s.completedFence
    ensures PromptBut(w, {job.key.instance})
  {
    if s.accepting {
      forall x: Instance | x != job.key.instance ensures PromptAt(w, x) { assert PromptAt(s, x); }
    }
  }

  lemma SubmittedOrderly(s: State, intent: Intent)
    requires Inv(s) && Orderly(s)
    ensures Orderly(Submitted(s, intent))
  {
    if ReplyTo(s, intent).Accepted? {
      var job := NewJob(s, intent);
      var w := s.(typedNonce := NonceAfter(s, intent), table := Enqueue(s.table, job),
                  generations := Raise(s.generations, intent.instance, intent.generation));
      EnqueueValid(s.table, job);
      EnqueueOrder(s.table, job);
      EnqueuePrompt(s, w, job);
      assert FencesMet(w);
      assert Submitted(s, intent) == TryStart(w, intent.instance);
      hide Submitted, Enqueue, TryStart, Inv, Table.Valid, Ascending, InOrder, PromptBut, FencesMet;
      TryStartOrder(w, intent.instance);
      TryStartPrompt(w, intent.instance);
      TryStartFences(w, intent.instance);
    } else {
      hide Inv, Ascending, InOrder;
      SameHeads(s, Submitted(s, intent));
    }
  }

  /** Nothing about queues, leases and fences changed. */
  lemma SameHeads(s: State, u: State)
    requires Orderly(s) && u.table == s.table && u.completedFence == s.completedFence && u.accepting == s.accepting
    ensures Orderly(u)
  {
    if s.accepting {
      forall x: Instance ensures PromptAt(u, x) { assert PromptAt(s, x); }
    }
  }

  lemma RetireOrder(t: Table, j: nat, how: Disposition, expire: bool, invalidate: bool)
    requires j < |t.jobs| && Ascending(t) && InOrder(t)
    ensures Ascending(Retire(t, j, how, expire, invalidate)) && InOrder(Retire(t, j, how, expire, invalidate))
  {
    var u := Retire(t, j, how, expire, invalidate);
    forall x: nat ensures u.Queued(x) <==> t.Queued(x) {}
  }

  lemma ClosedPrompt(s: State, j: nat, how: Disposition, expire: bool, probe: bool, inheritErr: bool)
    requires s.table.Valid() && s.table.InFlight(j) && s.table.jobs[j].started && PromptBut(s, {}) && FencesMet(s)
    ensures var u := Closed(s, j, how, expire, probe, inheritErr);
            PromptBut(u, {s.table.jobs[j].key.instance}) && FencesMet(u)
  {
    var u, i := Closed(s, j, how, expire, probe, inheritErr), s.table.jobs[j].key.instance;
    hide TallyAll, RecordAll;
    if s.accepting {
      forall x: Instance | x != i ensures PromptAt(u, x) {
        assert PromptAt(s, x);
        assert u.table.QueueOf(x) == s.table.QueueOf(x);
      }
    }
  }

  lemma SettleOrderly(s: State, j: nat, how: Disposition, expire: bool, probe: bool, inheritErr: bool)
    requires s.table.Valid() && s.table.InFlight(j) && s.table.jobs[j].started && Orderly(s)
    ensures Orderly(Settle(s, j, how, expire, probe, inheritErr))
  {
    var w, i := Closed(s, j, how, expire, probe, inheritErr), s.table.jobs[j].key.instance;
    RetireValid(s.table, j, how, expire, false);
    RetireOrder(s.table, j, how, expire, false);
    ClosedPrompt(s, j, how, expire, probe, inheritErr);
    assert w.table == Retire(s.table, j, how, expire);
    hide Closed, Retire, TryStart, Table.Valid, Ascending, InOrder, PromptBut, FencesMet;
    TryStartOrder(w, i);
    TryStartPrompt(w, i);
    TryStartFences(w, i);
    FinishedOrderly(TryStart(w, i));
  }

  lemma FinishedOrderly(s: State)
    requires Orderly(s)
    ensures Orderly(FinishDrains(s))
  {
    assert FinishDrains(s).accepting == s.accepting && FinishDrains(s).completedFence == s.completedFence;
    hide Orderly, FinishDrains;
    SameHeads(s, FinishDrains(s));
  }

  lemma ExpiredOrderly(s: State, j: nat, f: bool)
    requires Inv(s) && Orderly(s) && j < |s.table.jobs| && s.table.jobs[j].started
    ensures Orderly(Expired(s, j, f))
  {
    hide Orderly, Settle;
    if s.table.InFlight(j) {
      SettleOrderly(s, j, DiscardedStale, true, s.table.jobs[j].probeSent, s.table.jobs[j].probeSent && f);
    }
  }

  lemma DeliveredOrderly(s: State, j: nat, r: Result, v: bool, a: bool, f: bool)
    requires Inv(s) && Orderly(s) && j < |s.table.jobs| && s.table.jobs[j].started
    ensures Orderly(Delivered(s, j, r, v, a, f))
  {
    hide Orderly, Settle;
    var valid := ResultValid(s, j, r, v);
    if s.table.InFlight(j) && !(valid && r.hostLogs) {
      var probe, stale := r.probePhase || s.table.jobs[j].probeSent, !valid || a;
      var w := s.(applied := if valid then s.applied + [j] else s.applied);
      SameHeads(s, w);
      SettleOrderly(w, j, if stale then DiscardedStale else Applied, false, probe, stale && probe && f);
    }
  }

  /** Jobs keep their key, what they were submitted with, and whether they were started. */
  ghost predicate SameStarts(t: Table, u: Table) {
    |u.jobs| == |t.jobs| &&
    forall j: nat | j < |t.jobs| ::
      && u.jobs[j].intent == t.jobs[j].intent && u.jobs[j].started == t.jobs[j].started
      && u.jobs[j].key == t.jobs[j].key
  }

  lemma FlushQueueShape(t: Table, i: Instance)
    ensures var u := FlushQueue(t, i); u.queue == t.queue - {i} && u.leases == t.leases && SameStarts(t, u)
  {}

  lemma FewerQueued(t: Table, u: Table, i: Instance)
    requires u.queue == t.queue - {i} && SameStarts(t, u) && Ascending(t) && InOrder(t)
    ensures Ascending(u) && InOrder(u)
  {
    forall j: nat | u.Queued(j) ensures t.Queued(j) {}
  }

  lemma RetireShape(t: Table, j: nat, how: Disposition, invalidate: bool)
    requires j < |t.jobs| && t.Holds(j)
    ensures var u := Retire(t, j, how, false, invalidate);
            u.queue == t.queue && u.leases == t.leases - {t.jobs[j].key.instance} && SameStarts(t, u)
  {}

  lemma CancelInstanceShape(t: Table, i: Instance)
    requires t.Valid()
    ensures var u := CancelInstance(t, i);
            u.queue == t.queue - {i} && u.leases == t.leases - {i} && SameStarts(t, u)
  {
    var u := FlushQueue(t, i);
    FlushQueueShape(t, i);
    if i in t.leases {
      var j := t.leases[i];
      assert t.InFlight(j) && t.jobs[j].key.instance == i;
      assert u.jobs[j].key == t.jobs[j].key;
      RetireShape(u, j, Cancelled, true);
    }
    hide FlushQueue, Retire, Table.Valid;
  }

  lemma CancelledOneOrderly(s: State, i: Instance)
    requires s.table.Valid() && Orderly(s)
    ensures Orderly(CancelledOne(s, i))
  {
    var u := CancelledOne(s, i);
    CancelInstanceShape(s.table, i);
    FewerQueued(s.table, CancelInstance(s.table, i), i);
    hide CancelInstance, Ascending, InOrder, Table.Valid, Withdraw;
    if s.accepting {
      forall x: Instance ensures PromptAt(u, x) { assert PromptAt(s, x); }
    }
  }

  lemma {:induction false} CancelledEachOrderly(s: State, instances: seq<Instance>)
    requires DueInv(s) && Orderly(s)
    ensures Orderly(CancelledEach(s, instances))
    decreases |instances|
  {
    if instances != [] {
      var rest, i := instances[..|instances| - 1], instances[|instances| - 1];
      assert CancelledEach(s, instances) == CancelledOne(CancelledEach(s, rest), i);
      hide *;
      CancelledEachInv(s, rest);
      DueInvFacts(CancelledEach(s, rest));
      CancelledEachOrderly(s, rest);
      CancelledOneOrderly(CancelledEach(s, rest), i);
    }
  }

  lemma DrainedOrderly(s: State)
    requires Orderly(s)
    ensures Orderly(Drained(s))
  {
    var t := FlushAll(s.table);
    assert Drained(s).table == t && !Drained(s).accepting && Drained(s).completedFence == s.completedFence;
    forall j: nat ensures !t.Queued(j) {}
    hide Drained, QueuedJobs, LeasedJobs;
  }

  lemma MarkedOrderly(s: State, j: nat)
    requires Orderly(s) && Enabled(s, MarkProbeSent(j))
    ensures Orderly(Step(s, MarkProbeSent(j)))
  {
    var u := Step(s, MarkProbeSent(j));
    forall x: nat ensures u.table.Queued(x) <==> s.table.Queued(x) {}
    if s.accepting {
      forall x: Instance ensures PromptAt(u, x) { assert PromptAt(s, x); }
    }
  }

  lemma StepOrderly(s: State, c: Command)
    requires Inv(s) && Enabled(s, c) && Orderly(s)
    ensures Orderly(Step(s, c))
  {
    hide Orderly, Inv, Submitted, Expired, Delivered, Drained, CancelledEach;
    match c {
      case Submit(intent) => SubmittedOrderly(s, intent);
      case Expire(j, f) => ExpiredOrderly(s, j, f);
      case Deliver(j, r, v, a, f) => DeliveredOrderly(s, j, r, v, a, f);
      case MarkProbeSent(j) => MarkedOrderly(s, j);
      case Cancel(instances) =>
        InvDue(s);
        CancelledEachOrderly(s, instances);
        FinishedOrderly(CancelledEach(s, instances));
      case Drain => DrainedOrderly(s);
      case _ => SameHeads(s, Step(s, c));
    }
  }

  lemma {:induction false} ExecOrderly(s: State, cs: seq<Command>)
    requires Inv(s) && Orderly(s) && Admissible(s, cs)
    ensures Inv(Exec(s, cs)) && Orderly(Exec(s, cs))
    decreases |cs|
  {
    if cs != [] {
      hide Orderly, Inv, Step;
      StepInv(s, cs[0]);
      StepOrderly(s, cs[0]);
      ExecOrderly(Step(s, cs[0]), cs[1..]);
    }
  }

  // ---- Fences, from the run itself ----

  /** The job was ended by its lease timer or by a result. */
  predicate Ended(e: Exit) {
    e.Leaves? && (e.by_.Expire? || e.by_.Deliver?)
  }

  lemma SettleFence(s: State, j: nat, how: Disposition, expire: bool, probe: bool, inheritErr: bool)
    requires j < |s.table.jobs|
    ensures var job := s.table.jobs[j];
            Settle(s, j, how, expire, probe, inheritErr).completedFence ==
            Raise(s.completedFence, job.key.instance, job.intent.token.fence)
  {
    hide Retire, TallyAll, RecordAll, StartHead, Raise;
  }

  lemma CancelKeepsFence(s: State, instances: seq<Instance>)
    ensures CancelledEach(s, instances).completedFence == s.completedFence
    decreases |instances|
  {
    if instances != [] { CancelKeepsFence(s, instances[..|instances| - 1]); }
  }

  /** The job an expiry or a result ends in this step, if it does. */
  function EndedNow(s: State, c: Command): Option<nat>
    requires Enabled(s, c)
  {
    match c
    case Expire(j, _) => if s.table.InFlight(j) && !s.table.jobs[j].expired then Some(j) else None
    case Deliver(j, r, v, _, _) =>
      if s.table.InFlight(j) && !(ResultValid(s, j, r, v) && r.hostLogs) then Some(j) else None
    case _ => None
  }

  lemma ExpiredIs(s: State, j: nat, f: bool)
    requires j < |s.table.jobs|
    ensures var sent := s.table.jobs[j].probeSent;
            Expired(s, j, f) == if !s.table.InFlight(j) || s.table.jobs[j].expired then s
                                else Settle(s, j, DiscardedStale, true, sent, sent && f)
  {
    hide Settle;
  }

  lemma DeliveredIs(s: State, j: nat, r: Result, v: bool, a: bool, f: bool)
    requires j < |s.table.jobs|
    ensures var valid, probe := ResultValid(s, j, r, v), r.probePhase || s.table.jobs[j].probeSent;
            var stale := !valid || a;
            Delivered(s, j, r, v, a, f) ==
            if !s.table.InFlight(j) || (valid && r.hostLogs) then s
            else Settle(s.(applied := if valid then s.applied + [j] else s.applied), j,
                        if stale then DiscardedStale else Applied, false, probe, stale && probe && f)
  {
    hide Settle, ResultValid;
  }

  /** An expiry or a result settles the job it ends, and otherwise changes nothing. */
  lemma EndedStep(s: State, c: Command) returns (w: State, how: Disposition, expire: bool, probe: bool, err: bool)
    requires Enabled(s, c) && (c.Expire? || c.Deliver?)
    ensures EndedNow(s, c).None? ==> Step(s, c) == s
    ensures EndedNow(s, c).Some? ==>
              && w == s.(applied := w.applied) && s.table.InFlight(EndedNow(s, c).value)
              && s.table.jobs[EndedNow(s, c).value].started
              && Step(s, c) == Settle(w, EndedNow(s, c).value, how, expire, probe, err)
    ensures how == if c.Deliver? && ResultValid(s, c.job, c.result, c.validates) && !c.applyFails then Applied
                   else DiscardedStale
  {
    hide Settle, ResultValid, Expired, Delivered, Table.InFlight;
    match c {
      case Expire(j, f) =>
        ExpiredIs(s, j, f);
        w, how, expire := s, DiscardedStale, true;
        probe, err := s.table.jobs[j].probeSent, s.table.jobs[j].probeSent && f;
      case Deliver(j, r, v, a, f) =>
        DeliveredIs(s, j, r, v, a, f);
        var valid := ResultValid(s, j, r, v);
        w := s.(applied := if valid then s.applied + [j] else s.applied);
        how, expire := if !valid || a then DiscardedStale else Applied, false;
        probe := r.probePhase || s.table.jobs[j].probeSent;
        err := (!valid || a) && probe && f;
    }
  }

  lemma StepFence(s: State, c: Command)
    requires Enabled(s, c)
    ensures var x := EndedNow(s, c);
            Step(s, c).completedFence ==
            if x.None? then s.completedFence
            else Raise(s.completedFence, s.table.jobs[x.value].key.instance, s.table.jobs[x.value].intent.token.fence)
  {
    hide Settle, Raise;
    if c.Expire? || c.Deliver? {
      var w, how, expire, probe, err := EndedStep(s, c);
      hide Step, EndedNow;
      if EndedNow(s, c).Some? { SettleFence(w, EndedNow(s, c).value, how, expire, probe, err); }
    } else {
      OtherFence(s, c);
    }
  }

  lemma OtherFence(s: State, c: Command)
    requires Enabled(s, c) && !c.Expire? && !c.Deliver?
    ensures Step(s, c).completedFence == s.completedFence
  {
    hide Submitted, CancelledEach, Drained;
    match c
    case Submit(intent) => SubmittedFence(s, intent);
    case Cancel(instances) => CancelKeepsFence(s, instances);
    case Drain => DrainedFence(s);
    case _ =>
  }

  lemma SubmittedFence(s: State, intent: Intent)
    ensures Submitted(s, intent).completedFence == s.completedFence
  {
    hide Enqueue, StartHead;
  }

  lemma DrainedFence(s: State)
    ensures Drained(s).completedFence == s.completedFence
  {
    hide FlushAll, QueuedJobs, LeasedJobs;
  }

  /** Jobs keep what they were submitted with. */
  ghost predicate SameJobs(t: Table, u: Table) {
    && |t.jobs| <= |u.jobs|
    && forall j: nat | j < |t.jobs| :: u.jobs[j].intent == t.jobs[j].intent && u.jobs[j].key == t.jobs[j].key
  }

  lemma {:induction false} CancelledEachSame(s: State, instances: seq<Instance>)
    ensures |CancelledEach(s, instances).table.jobs| == |s.table.jobs|
    ensures SameJobs(s.table, CancelledEach(s, instances).table)
    decreases |instances|
  {
    if instances != [] {
      CancelledEachSame(s, instances[..|instances| - 1]);
      CancelInstanceSame(CancelledEach(s, instances[..|instances| - 1]).table, instances[|instances| - 1]);
      hide CancelInstance;
    }
  }

  lemma CancelInstanceSame(t: Table, i: Instance)
    ensures |CancelInstance(t, i).jobs| == |t.jobs| && SameJobs(t, CancelInstance(t, i))
  {}

  lemma SettleSame(s: State, j: nat, how: Disposition, expire: bool, probe: bool, inheritErr: bool)
    requires j < |s.table.jobs|
    ensures SameJobs(s.table, Settle(s, j, how, expire, probe, inheritErr).table)
  {
    hide TallyAll, RecordAll;
  }

  lemma SubmittedSame(s: State, intent: Intent)
    ensures SameJobs(s.table, Submitted(s, intent).table)
  {}

  lemma DrainedSame(s: State)
    ensures SameJobs(s.table, Drained(s).table)
  {
    hide QueuedJobs, LeasedJobs;
  }

  lemma StepSame(s: State, c: Command)
    requires Enabled(s, c)
    ensures SameJobs(s.table, Step(s, c).table)
  {
    hide Settle, Submitted, CancelledEach, Drained, SameJobs;
    SameSelf(s.table);
    if c.Expire? || c.Deliver? {
      var w, how, expire, probe, err := EndedStep(s, c);
      hide Step, EndedNow;
      if EndedNow(s, c).Some? { SettleSame(w, EndedNow(s, c).value, how, expire, probe, err); }
    } else {
      match c
      case Submit(intent) => SubmittedSame(s, intent);
      case Cancel(instances) => CancelledEachSame(s, instances);
      case Drain => DrainedSame(s);
      case MarkProbeSent(j) => MarkedSame(s.table, j);
      case _ =>
    }
  }

  lemma SameSelf(t: Table)
    ensures SameJobs(t, t)
  {}

  lemma MarkedSame(t: Table, j: nat)
    requires j < |t.jobs|
    ensures SameJobs(t, t.(jobs := t.jobs[j := t.jobs[j].(probeSent := true)]))
  {}

  lemma {:induction false} ExecSame(s: State, cs: seq<Command>)
    requires Admissible(s, cs)
    ensures SameJobs(s.table, Exec(s, cs).table)
    decreases |cs|
  {
    if cs != [] {
      StepSame(s, cs[0]);
      ExecSame(Step(s, cs[0]), cs[1..]);
      hide Step;
    }
  }

  /** The job that an expiry or a result ends leaves flight, and no other does. */
  lemma EndedLeaves(s: State, c: Command, j: nat)
    requires Inv(s) && Enabled(s, c) && (c.Expire? || c.Deliver?)
    ensures LeavesAt(s, c, j) <==> EndedNow(s, c) == Some(j)
  {
    InvDue(s);
    DueInvFacts(s);
    hide Settle, Inv, DueInv, Table.Valid;
    var w, how, expire, probe, err := EndedStep(s, c);
    hide Step, EndedNow;
    if EndedNow(s, c).Some? { SettleFlights(w, EndedNow(s, c).value, how, expire, probe, err, j); }
  }

  lemma StepCovers(s: State, c: Command, i: Instance, j: nat)
    requires Inv(s) && Enabled(s, c)
    ensures Get(s.completedFence, i) <= Get(Step(s, c).completedFence, i)
    ensures LeavesAt(s, c, j) && (c.Expire? || c.Deliver?) ==>
              && j < |s.table.jobs|
              && (s.table.jobs[j].key.instance == i ==>
                    s.table.jobs[j].intent.token.fence <= Get(Step(s, c).completedFence, i))
  {
    StepFence(s, c);
    if c.Expire? || c.Deliver? { EndedLeaves(s, c, j); }
    hide Step, Inv;
  }

  /** The fence of an instance covers the token fences of all its jobs ended so far. */
  lemma {:induction false} FenceCovers(s: State, cs: seq<Command>, i: Instance, j: nat)
    requires Inv(s) && Admissible(s, cs)
    ensures var u := Exec(s, cs);
            && Get(s.completedFence, i) <= Get(u.completedFence, i)
            && (Ended(ExitOf(s, cs, j)) ==>
                  && j < |u.table.jobs|
                  && (u.table.jobs[j].key.instance == i ==>
                        u.table.jobs[j].intent.token.fence <= Get(u.completedFence, i)))
    decreases |cs|
  {
    if cs != [] {
      var c, v, rest := cs[0], Step(s, cs[0]), cs[1..];
      assert Enabled(s, c) && Admissible(v, rest) && Exec(s, cs) == Exec(v, rest) by { hide Step; }
      StepInv(s, c);
      ExitNext(s, cs, j);
      hide Step, Exec, Inv, Admissible, ExitOf, LeavesAt;
      StepCovers(s, c, i, j);
      StepSame(s, c);
      FenceCovers(v, rest, i, j);
      ExecSame(v, rest);
    }
  }

  lemma {:induction false} FenceComesFrom(s: State, cs: seq<Command>, i: Instance) returns (j: nat)
    requires Inv(s) && Admissible(s, cs) && Get(Exec(s, cs).completedFence, i) != Get(s.completedFence, i)
    ensures var u := Exec(s, cs);
            && Ended(ExitOf(s, cs, j)) && j < |u.table.jobs| && u.table.jobs[j].key.instance == i
            && u.table.jobs[j].intent.token.fence == Get(u.completedFence, i)
    decreases |cs|
  {
    assert cs != [];
    var c, v, rest := cs[0], Step(s, cs[0]), cs[1..];
    assert Enabled(s, c) && Admissible(v, rest) && Exec(s, cs) == Exec(v, rest);
    StepInv(s, c);
    StepFence(s, c);
    StepSame(s, c);
    ExecSame(v, rest);
    if Get(Exec(v, rest).completedFence, i) != Get(v.completedFence, i) {
      j := FenceComesFrom(v, rest, i);
      ExitNext(s, cs, j);
      if LeavesAt(s, c, j) {
        StepOlder(s, c);
        OlderJob(s.table, v.table, j);
        GoneStays(v, rest, j);
      }
    } else {
      j := EndedNow(s, c).value;
      EndedLeaves(s, c, j);
      ExitNext(s, cs, j);
    }
  }

  // ---- The promises ----

  /** Of all jobs of the instance that the run ended, none had the fence the refresh asks for. */
  ghost predicate StillWaits(cs: seq<Command>, intent: Intent, i: Instance)
    requires Admissible(Initial, cs)
  {
    && intent.class_.LegacyRefresh? && intent.startedAfter > 0
    && forall j: nat | j < |Exec(Initial, cs).table.jobs| && Ended(ExitOf(Initial, cs, j)) ::
         var job := Exec(Initial, cs).table.jobs[j];
         job.key.instance == i ==> job.intent.token.fence < intent.startedAfter
  }

  lemma WaitsMeans(cs: seq<Command>, intent: Intent, i: Instance)
    requires Admissible(Initial, cs)
    ensures WaitsFor(intent, Get(Exec(Initial, cs).completedFence, i)) <==> StillWaits(cs, intent, i)
  {
    var u := Exec(Initial, cs);
    forall j: nat | j < |u.table.jobs| && Ended(ExitOf(Initial, cs, j)) && u.table.jobs[j].key.instance == i
      ensures u.table.jobs[j].intent.token.fence <= Get(u.completedFence, i)
    {
      FenceCovers(Initial, cs, i, j);
    }
    if Get(u.completedFence, i) != 0 {
      var j := FenceComesFrom(Initial, cs, i);
    }
    hide Exec, ExitOf, Admissible, Ended;
  }

  ghost predicate OldestQueued(t: Table, i: Instance, h: nat) {
    && t.Queued(h) && t.jobs[h].key.instance == i
    && forall k: nat | t.Queued(k) && t.jobs[k].key.instance == i :: h <= k
  }

  lemma HeadIsOldest(t: Table, i: Instance)
    requires t.Valid() && Ascending(t) && t.QueueOf(i) != []
    ensures OldestQueued(t, i, t.QueueOf(i)[0])
  {
    QueuedHead(t, i);
    forall k: nat | t.Queued(k) && t.jobs[k].key.instance == i ensures t.QueueOf(i)[0] <= k { HeadFirst(t, i, k); }
  }

  /** After every run, while jobs are accepted: an instance without a lease holder has nothing
      queued, or its oldest queued job is a legacy refresh whose fence has not completed. */
  lemma IdleOnlyWhileWaiting(cs: seq<Command>, i: Instance) returns (h: nat)
    requires Admissible(Initial, cs)
    ensures var u := Exec(Initial, cs);
            u.accepting && i !in u.table.leases ==>
              || (forall j: nat | u.table.Queued(j) :: u.table.jobs[j].key.instance != i)
              || (OldestQueued(u.table, i, h) && StillWaits(cs, u.table.jobs[h].intent, i))
  {
    ExecOrderly(Initial, cs);
    var u := Exec(Initial, cs);
    if u.accepting && i !in u.table.leases && u.table.QueueOf(i) != [] {
      h := u.table.QueueOf(i)[0];
      assert PromptAt(u, i);
      HeadIsOldest(u.table, i);
      hide Exec, Admissible, StillWaits, Inv, Orderly, Table.Valid, Table.Queued;
      WaitsMeans(cs, u.table.jobs[h].intent, i);
    } else {
      h := 0;
    }
  }

  lemma QueuedHead(t: Table, i: Instance)
    requires t.Valid() && t.QueueOf(i) != []
    ensures t.Queued(t.QueueOf(i)[0]) && t.jobs[t.QueueOf(i)[0]].key.instance == i
  {
    assert t.queue[i][0] == t.QueueOf(i)[0];
  }

  /** After every run: a job of an instance was started only after every earlier accepted one
      was started or had left flight, and while it holds the lease all of them have left. */
  lemma StartedInOrder(cs: seq<Command>, j: nat, k: nat)
    requires Admissible(Initial, cs) && j < k < |Exec(Initial, cs).table.jobs|
    requires var t := Exec(Initial, cs).table; t.jobs[k].started && t.jobs[j].key.instance == t.jobs[k].key.instance
    ensures var t := Exec(Initial, cs).table;
            && (t.InFlight(j) ==> t.jobs[j].started)
            && (t.InFlight(k) ==> !t.InFlight(j))
  {
    ExecOrderly(Initial, cs);
    var t := Exec(Initial, cs).table;
    InFlightSplit(t, j);
    if t.InFlight(j) && t.InFlight(k) && t.jobs[j].started { OneHolderPerInstance(t, j, k); }
  }

  /** A legacy refresh was never started before its fence completed. */
  lemma StartedMeansFenceMet(cs: seq<Command>, j: nat)
    requires Admissible(Initial, cs) && j < |Exec(Initial, cs).table.jobs| && Exec(Initial, cs).table.jobs[j].started
    ensures var job := Exec(Initial, cs).table.jobs[j]; !StillWaits(cs, job.intent, job.key.instance)
  {
    ExecOrderly(Initial, cs);
    var job := Exec(Initial, cs).table.jobs[j];
    WaitsMeans(cs, job.intent, job.key.instance);
  }

  /** A job accepted on an idle instance holds the lease at once, unless, and only unless, it
      is a legacy refresh that must wait. */
  lemma AcceptedOnIdle(cs: seq<Command>, intent: Intent)
    requires Admissible(Initial, cs)
    requires var s := Exec(Initial, cs);
             && ReplyTo(s, intent).Accepted?
             && intent.instance !in s.table.leases && s.table.QueueOf(intent.instance) == []
    ensures var s := Exec(Initial, cs);
            var u, j := Step(s, Submit(intent)), |s.table.jobs|;
            && u.table.InFlight(j) && u.table.jobs[j].intent == intent
            && (u.table.Holds(j) && u.table.jobs[j].started <==> !StillWaits(cs, intent, intent.instance))
  {
    ExecOrderly(Initial, cs);
    var s, i := Exec(Initial, cs), intent.instance;
    WaitsMeans(cs, intent, i);
    hide Exec, Admissible, StillWaits, Inv, Orderly;
    InvDue(s);
    DueInvFacts(s);
    SubmittedIdle(s, intent);
  }

  lemma SubmittedIdle(s: State, intent: Intent)
    requires s.table.Valid() && s.accepting && ReplyTo(s, intent).Accepted?
    requires intent.instance !in s.table.leases && s.table.QueueOf(intent.instance) == []
    ensures var u, j := Submitted(s, intent), |s.table.jobs|;
            && u.table.InFlight(j) && u.table.jobs[j].intent == intent
            && (u.table.Holds(j) && u.table.jobs[j].started <==>
                  !WaitsFor(intent, Get(s.completedFence, intent.instance)))
  {
    var job, i, j := NewJob(s, intent), intent.instance, |s.table.jobs|;
    var w := s.(typedNonce := NonceAfter(s, intent), table := Enqueue(s.table, job),
                generations := Raise(s.generations, i, intent.generation));
    assert Submitted(s, intent) == TryStart(w, i);
    EnqueueIdle(s.table, job);
    hide Submitted, Enqueue, Table.Valid, SameMarks, TryStart, Table.InFlight, Table.Holds, Table.QueueOf;
    StartsOnly(w, i, j);
  }

  lemma EnqueueIdle(t: Table, job: Job)
    requires job.key.instance !in t.leases && t.QueueOf(job.key.instance) == []
    ensures var u, j := Enqueue(t, job), |t.jobs|;
            && u.QueueOf(job.key.instance) == [j] && u.InFlight(j) && u.jobs[j] == job && u.leases == t.leases
  {}

  lemma StartsOnly(w: State, i: Instance, j: nat)
    requires w.accepting && i !in w.table.leases && w.table.QueueOf(i) == [j] && w.table.InFlight(j)
    requires w.table.jobs[j].key.instance == i && !w.table.jobs[j].started
    ensures var t, intent := TryStart(w, i).table, w.table.jobs[j].intent;
            && t.InFlight(j) && t.jobs[j].intent == intent
            && (t.Holds(j) && t.jobs[j].started <==> !WaitsFor(intent, Get(w.completedFence, i)))
  {
    hide SameMarks;
  }
}
