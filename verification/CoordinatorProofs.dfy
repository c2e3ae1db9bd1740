/** What holds of the coordinator after every sequence of commands. */
module CoordinatorProofs {
  import opened Basics
  import opened JobTable
  import opened CoordinatorSpec

  // ---- The invariant ----

  ghost predicate AppliedOk(s: State) {
    && (forall a | 0 <= a < |s.applied| :: s.applied[a] < |s.table.jobs| && !s.table.InFlight(s.applied[a]))
    && (forall a, b | 0 <= a < b < |s.applied| :: s.applied[a] != s.applied[b])
  }

  /** A cancelled instance carries its token, has nothing in flight and is recorded no
      higher than the highest generation seen for it. */
  ghost predicate CancelOk(s: State) {
    && s.cancelTokens.Keys == s.cancelledThrough.Keys
    && (forall i | i in s.cancelTokens :: 1 <= s.cancelTokens[i] <= s.cancelNonce)
    && (forall i | i in s.cancelledThrough :: s.cancelledThrough[i] <= Get(s.generations, i))
    && (forall j: nat | s.table.InFlight(j) :: s.table.jobs[j].key.instance !in s.cancelledThrough)
  }

  /** Once a drain began, nothing is queued and whatever is in flight is invalidated. */
  ghost predicate DrainingOk(s: State) {
    !s.accepting ==>
      && s.table.queue == map[]
      && (forall j: nat | s.table.InFlight(j) :: s.table.jobs[j].invalidated)
  }

  /** The report says of the ledger's jobs exactly what became of them. */
  ghost predicate Balanced(r: DrainReport, l: Ledger) {
    && r.completed == |l.queued| + |l.finished|
    && r.cancelled == |l.queued| + |l.leased|
    && r.invalidated == |l.finished|
    && r.sentUnknown + r.persistenceFailures == |l.marked| && r.persistenceFailures == |l.failed|
    && (r.handoffBlocked <==> r.persistenceFailures > 0)
    && l.finished !! l.withdrawn && l.failed <= l.marked <= l.finished
    && l.finished + l.withdrawn <= l.leased
  }

  /** The jobs of a waiting drain that are neither finished nor withdrawn are in flight. */
  ghost predicate Outstanding(t: Table, l: Ledger) {
    forall j: nat :: t.InFlight(j) <==> j in l.leased && j !in l.finished && j !in l.withdrawn
  }

  ghost predicate LedgersOk(s: State) {
    && |s.drains| == |s.ledgers|
    && (s.drains != [] ==> !s.accepting && s.table.inflight != map[])
    && (forall d | 0 <= d < |s.drains| :: Balanced(s.drains[d], s.ledgers[d]) && Outstanding(s.table, s.ledgers[d]))
  }

  ghost predicate RepliesOk(s: State) {
    forall d | 0 <= d < |s.replies| ::
      var (r, l) := s.replies[d];
      Balanced(r, l) && l.leased == l.finished + l.withdrawn
  }

  ghost predicate Inv(s: State) {
    s.table.Valid() && AppliedOk(s) && CancelOk(s) && DrainingOk(s) && LedgersOk(s) && RepliesOk(s)
  }

  // ---- Starting a queued job moves it, and touches nothing else ----

  ghost predicate SameFlights(t: Table, u: Table) {
    && |u.jobs| == |t.jobs|
    && (forall j: nat | j < |t.jobs| ::
         u.jobs[j].key == t.jobs[j].key && u.jobs[j].invalidated == t.jobs[j].invalidated)
    && (forall j: nat :: u.InFlight(j) <==> t.InFlight(j))
    && u.inflight == t.inflight
  }

  lemma DropEmptyQueueValid(t: Table, i: Instance)
    requires t.Valid() && t.QueueOf(i) == []
    ensures t.(queue := t.queue - {i}).Valid()
  {
    var u := t.(queue := t.queue - {i});
    forall j: nat ensures u.InFlight(j) <==> t.InFlight(j) {}
    assert u.QueuesMatch() by {
      forall x, a | x in u.queue && 0 <= a < |u.queue[x]|
        ensures u.queue[x][a] == t.queue[x][a] && u.InFlight(t.queue[x][a])
      {}
    }
  }

  lemma TryStartKeeps(s: State, i: Instance)
    requires s.table.Valid()
    ensures TryStart(s, i).table.Valid()
    ensures SameFlights(s.table, TryStart(s, i).table)
    ensures !s.accepting ==> TryStart(s, i) == s
  {
    if CanStart(s, i) {
      StartHeadValid(s.table, i);
    } else if s.accepting && i !in s.table.leases && s.table.QueueOf(i) == [] {
      DropEmptyQueueValid(s.table, i);
    }
  }

  lemma TryStartInv(s: State, i: Instance)
    requires Inv(s)
    ensures Inv(TryStart(s, i))
  {
    TryStartKeeps(s, i);
  }

  /** The invariant, except that reports may be due: nothing need be in flight any more. */
  ghost predicate DueInv(s: State) {
    && s.table.Valid() && AppliedOk(s) && CancelOk(s) && DrainingOk(s) && RepliesOk(s)
    && |s.drains| == |s.ledgers|
    && (s.drains != [] ==> !s.accepting)
    && (forall d | 0 <= d < |s.drains| :: Balanced(s.drains[d], s.ledgers[d]) && Outstanding(s.table, s.ledgers[d]))
  }

  lemma InvDue(s: State)
    requires Inv(s)
    ensures DueInv(s)
  {}

  lemma DueInvFacts(s: State)
    requires DueInv(s)
    ensures s.table.Valid() && |s.drains| == |s.ledgers|
  {}

  lemma TryStartDueInv(s: State, i: Instance)
    requires DueInv(s)
    ensures DueInv(TryStart(s, i))
  {
    TryStartKeeps(s, i);
  }

  lemma FinishDrainsInv(s: State)
    requires DueInv(s)
    ensures Inv(FinishDrains(s))
  {
    var u := FinishDrains(s);
    if s.table.inflight == map[] {
      forall d | 0 <= d < |u.replies|
        ensures Balanced(u.replies[d].0, u.replies[d].1)
        ensures u.replies[d].1.leased == u.replies[d].1.finished + u.replies[d].1.withdrawn
      {
        if d >= |s.replies| {
          var l := s.ledgers[d - |s.replies|];
          assert Outstanding(s.table, l);
          assert forall j: nat :: !s.table.InFlight(j);
        }
      }
    }
  }

  // ---- Each command keeps the invariant ----

  lemma SubmittedInv(s: State, intent: Intent)
    requires Inv(s)
    ensures Inv(Submitted(s, intent))
  {
    if ReplyTo(s, intent).Accepted? {
      var job := NewJob(s, intent);
      EnqueueValid(s.table, job);
      var s1 := s.(typedNonce := NonceAfter(s, intent), table := Enqueue(s.table, job),
                   generations := Raise(s.generations, intent.instance, intent.generation));
      forall j: nat | s1.table.InFlight(j)
        ensures s1.table.jobs[j].key.instance !in s1.cancelledThrough
      {
        if j < |s.table.jobs| { assert s.table.InFlight(j) && s1.table.jobs[j] == s.table.jobs[j]; }
      }
      TryStartInv(s1, intent.instance);
    }
  }

  /** One more finished job keeps a report balanced with its ledger. A job counts as applied
      only while no drain is waiting. */
  lemma TallyBalanced(t: Table, r: DrainReport, l: Ledger, j: nat, probe: bool, inheritErr: bool)
    requires Balanced(r, l) && Outstanding(t, l) && t.InFlight(j)
    requires inheritErr ==> probe
    ensures Balanced(Tally(r, DiscardedStale, probe, inheritErr), Record(l, j, DiscardedStale, probe, inheritErr))
  {}

  /** A finished job leaves every waiting drain balanced. */
  lemma ClosedLedgers(s: State, j: nat, how: Disposition, expire: bool, probe: bool, inheritErr: bool)
    requires s.table.Valid() && LedgersOk(s)
    requires s.table.InFlight(j) && s.table.jobs[j].started
    requires inheritErr ==> probe
    requires !s.accepting ==> how.DiscardedStale?
    ensures var u := Closed(s, j, how, expire, probe, inheritErr);
            forall d | 0 <= d < |u.drains| :: Balanced(u.drains[d], u.ledgers[d]) && Outstanding(u.table, u.ledgers[d])
  {
    var u := Closed(s, j, how, expire, probe, inheritErr);
    RetireFlights(s.table, j, how, expire, false);
    forall d | 0 <= d < |u.drains|
      ensures Balanced(u.drains[d], u.ledgers[d]) && Outstanding(u.table, u.ledgers[d])
    {
      assert Balanced(s.drains[d], s.ledgers[d]) && Outstanding(s.table, s.ledgers[d]);
      TallyBalanced(s.table, s.drains[d], s.ledgers[d], j, probe, inheritErr);
    }
  }

  lemma ClosedRest(s: State, j: nat, how: Disposition, expire: bool, probe: bool, inheritErr: bool)
    requires s.table.Valid() && CancelOk(s) && DrainingOk(s) && RepliesOk(s)
    requires s.table.InFlight(j) && s.table.jobs[j].started
    ensures var u := Closed(s, j, how, expire, probe, inheritErr);
            u.table.Valid() && CancelOk(u) && DrainingOk(u) && RepliesOk(u)
  {
    RetireValid(s.table, j, how, expire, false);
    RetireFlights(s.table, j, how, expire, false);
  }

  lemma SettleInv(s: State, j: nat, how: Disposition, expire: bool, probe: bool, inheritErr: bool)
    requires s.table.Valid() && CancelOk(s) && DrainingOk(s) && LedgersOk(s) && RepliesOk(s)
    requires s.table.InFlight(j) && s.table.jobs[j].started
    requires AppliedOk(Closed(s, j, how, expire, probe, inheritErr))
    requires inheritErr ==> probe
    requires !s.accepting ==> how.DiscardedStale?
    ensures Inv(Settle(s, j, how, expire, probe, inheritErr))
  {
    var u := Closed(s, j, how, expire, probe, inheritErr);
    ClosedLedgers(s, j, how, expire, probe, inheritErr);
    ClosedRest(s, j, how, expire, probe, inheritErr);
    var i := s.table.jobs[j].key.instance;
    assert DueInv(u);
    TryStartDueInv(u, i);
    FinishDrainsInv(TryStart(u, i));
  }

  /** Retiring a lease holder takes it, and only it, out of flight. */
  lemma RetireFlights(t: Table, j: nat, how: Disposition, expire: bool, invalidate: bool)
    requires t.Valid() && t.InFlight(j) && t.jobs[j].started
    ensures var u := Retire(t, j, how, expire, invalidate);
            && |u.jobs| == |t.jobs|
            && (forall x: nat :: u.InFlight(x) <==> t.InFlight(x) && x != j)
            && (forall x: nat | x < |t.jobs| :: u.jobs[x].key == t.jobs[x].key)
            && (forall x: nat | x < |t.jobs| && x != j :: u.jobs[x] == t.jobs[x])
  {
    RetireValid(t, j, how, expire, invalidate);
  }

  lemma AppliedAfterRetire(s: State, j: nat, how: Disposition, expire: bool, record: bool)
    requires Inv(s) && s.table.InFlight(j) && s.table.jobs[j].started
    ensures AppliedOk(s.(table := Retire(s.table, j, how, expire),
                         applied := if record then s.applied + [j] else s.applied))
  {
    RetireFlights(s.table, j, how, expire, false);
  }

  lemma ExpiredInv(s: State, j: nat, inheritFails: bool)
    requires Inv(s) && j < |s.table.jobs| && s.table.jobs[j].started
    ensures Inv(Expired(s, j, inheritFails))
  {
    if s.table.InFlight(j) && !s.table.jobs[j].expired {
      AppliedAfterRetire(s, j, DiscardedStale, true, false);
      SettleInv(s, j, DiscardedStale, true, s.table.jobs[j].probeSent, s.table.jobs[j].probeSent && inheritFails);
    }
  }

  /** A result that ends its job, recorded as applied or not. */
  lemma RecordedSettleInv(s: State, j: nat, how: Disposition, record: bool, probe: bool, inheritErr: bool)
    requires Inv(s) && s.table.InFlight(j) && s.table.jobs[j].started
    requires (inheritErr ==> probe) && (!s.accepting ==> how.DiscardedStale?)
    ensures Inv(Settle(s.(applied := if record then s.applied + [j] else s.applied), j, how, false, probe, inheritErr))
  {
    var applied := if record then s.applied + [j] else s.applied;
    AppliedAfterRetire(s, j, how, false, record);
    hide AppliedOk, LedgersOk, RepliesOk, DrainingOk, CancelOk, Table.Valid, Retire, Closed, Settle;
    RecordedParts(s, applied);
    ClosedApplied(s, j, how, probe, inheritErr, applied);
    SettleInv(s.(applied := applied), j, how, false, probe, inheritErr);
  }

  lemma RecordedParts(s: State, applied: seq<nat>)
    requires Inv(s)
    ensures var w := s.(applied := applied);
            w.table.Valid() && CancelOk(w) && DrainingOk(w) && LedgersOk(w) && RepliesOk(w)
  {}

  lemma ClosedApplied(s: State, j: nat, how: Disposition, probe: bool, inheritErr: bool, applied: seq<nat>)
    requires j < |s.table.jobs| && AppliedOk(s.(table := Retire(s.table, j, how, false), applied := applied))
    ensures AppliedOk(Closed(s.(applied := applied), j, how, false, probe, inheritErr))
  {}

  lemma HolderWhileDraining(s: State, j: nat)
    requires Inv(s) && s.table.InFlight(j) && !s.accepting
    ensures s.table.jobs[j].invalidated
  {}

  lemma DeliveredInv(s: State, j: nat, r: Result, validates: bool, applyFails: bool, inheritFails: bool)
    requires Inv(s) && j < |s.table.jobs| && s.table.jobs[j].started
    ensures Inv(Delivered(s, j, r, validates, applyFails, inheritFails))
  {
    var valid := ResultValid(s, j, r, validates);
    var probe := r.probePhase || s.table.jobs[j].probeSent;
    if s.table.InFlight(j) && !(valid && r.hostLogs) {
      var stale := !valid || applyFails;
      if !s.accepting { HolderWhileDraining(s, j); }
      hide Inv, Settle;
      RecordedSettleInv(s, j, if stale then DiscardedStale else Applied, valid, probe, stale && probe && inheritFails);
    }
  }

  lemma WithdrawBalanced(t: Table, u: Table, r: DrainReport, l: Ledger, j: nat)
    requires Balanced(r, l) && Outstanding(t, l) && t.InFlight(j)
    requires forall x: nat :: u.InFlight(x) <==> t.InFlight(x) && x != j
    ensures Balanced(r, l.(withdrawn := l.withdrawn + {j})) && Outstanding(u, l.(withdrawn := l.withdrawn + {j}))
  {}

  /** While a drain waits nothing is queued, so cancelling an instance withdraws its holder only. */
  lemma CancelledOneLedgers(s: State, i: Instance)
    requires DueInv(s)
    ensures var u := CancelledOne(s, i);
            && |u.drains| == |u.ledgers|
            && (forall d | 0 <= d < |u.drains| ::
                 Balanced(u.drains[d], u.ledgers[d]) && Outstanding(u.table, u.ledgers[d]))
  {
    var u := CancelledOne(s, i);
    forall d | 0 <= d < |u.drains|
      ensures Balanced(u.drains[d], u.ledgers[d]) && Outstanding(u.table, u.ledgers[d])
    {
      forall j: nat
        ensures u.table.InFlight(j) <==> s.table.InFlight(j) && !(i in s.table.leases && s.table.leases[i] == j)
      {
        CancelInstanceFlights(s.table, i, j);
        InFlightSplit(s.table, j);
      }
      assert Balanced(s.drains[d], s.ledgers[d]) && Outstanding(s.table, s.ledgers[d]);
      if i in s.table.leases {
        WithdrawBalanced(s.table, u.table, s.drains[d], s.ledgers[d], s.table.leases[i]);
      }
    }
  }

  lemma CancelledOneRest(s: State, i: Instance)
    requires s.table.Valid() && AppliedOk(s) && CancelOk(s) && DrainingOk(s)
    ensures var u := CancelledOne(s, i); AppliedOk(u) && CancelOk(u) && DrainingOk(u)
  {
    CancelInstanceJobs(s.table, i);
    forall j: nat
      ensures CancelInstance(s.table, i).InFlight(j) <==> s.table.InFlight(j) && s.table.jobs[j].key.instance != i
    {
      CancelInstanceFlights(s.table, i, j);
    }
  }

  lemma CancelledOneInv(s: State, i: Instance)
    requires DueInv(s)
    ensures DueInv(CancelledOne(s, i))
  {
    CancelInstanceValid(s.table, i);
    CancelledOneRest(s, i);
    CancelledOneLedgers(s, i);
  }

  lemma CancelledEachInv(s: State, instances: seq<Instance>)
    requires DueInv(s)
    ensures DueInv(CancelledEach(s, instances))
    decreases |instances|
  {
    if instances != [] {
      CancelledEachInv(s, instances[..|instances| - 1]);
      CancelledOneInv(CancelledEach(s, instances[..|instances| - 1]), instances[|instances| - 1]);
    }
  }

  lemma DrainedShape(s: State)
    ensures var u := Drained(s);
            && u.table == FlushAll(s.table) && !u.accepting && u.applied == s.applied && u.generations == s.generations
            && u.cancelledThrough == s.cancelledThrough
            && u.cancelTokens == s.cancelTokens && u.cancelNonce == s.cancelNonce
    ensures var u, q, l := Drained(s), QueuedJobs(s.table), LeasedJobs(s.table);
            if u.table.inflight == map[] then u.drains == s.drains && u.ledgers == s.ledgers
            else && u.drains == s.drains + [DrainReport(|q|, |q| + |l|, 0, 0, 0, false)]
                 && u.ledgers == s.ledgers + [Ledger(q, l, {}, {}, {}, {})]
  {
    hide FlushAll, QueuedJobs, LeasedJobs;
  }

  lemma DrainedFlights(s: State)
    requires s.table.Valid()
    ensures var u := Drained(s);
            && u.table.Valid()
            && (forall j: nat :: u.table.InFlight(j) <==> j in LeasedJobs(s.table))
            && (forall j: nat | u.table.InFlight(j) :: s.table.InFlight(j))
  {
    DrainedShape(s);
    FlushAllFlights(s.table);
    hide Drained, Table.Valid, FlushAll, QueuedJobs, LeasedJobs;
  }

  lemma DrainedApplied(s: State)
    requires s.table.Valid() && AppliedOk(s)
    ensures AppliedOk(Drained(s))
  {
    DrainedShape(s);
    FlushAllFlights(s.table);
    hide Drained, Table.Valid, FlushAll, QueuedJobs, LeasedJobs;
    forall a | 0 <= a < |s.applied| ensures !Drained(s).table.InFlight(s.applied[a]) {}
  }

  lemma DrainedMarks(s: State)
    requires s.table.Valid() && CancelOk(s)
    ensures CancelOk(Drained(s)) && DrainingOk(Drained(s))
  {
    DrainedShape(s);
    FlushAllFlights(s.table);
    var u := Drained(s);
    hide Drained, Table.Valid, FlushAll, QueuedJobs, LeasedJobs;
    forall j: nat | u.table.InFlight(j)
      ensures u.table.jobs[j].key.instance !in u.cancelledThrough && u.table.jobs[j].invalidated
    {
      assert s.table.InFlight(j);
    }
  }

  lemma DrainedTable(s: State)
    requires Inv(s)
    ensures var u := Drained(s);
            && u.table.Valid() && AppliedOk(u) && CancelOk(u) && DrainingOk(u)
            && (forall j: nat :: u.table.InFlight(j) <==> j in LeasedJobs(s.table))
            && (forall j: nat | u.table.InFlight(j) :: s.table.InFlight(j))
  {
    DrainedFlights(s);
    DrainedApplied(s);
    DrainedMarks(s);
    hide Drained, Table.Valid, AppliedOk, CancelOk, DrainingOk, LeasedJobs;
  }

  lemma FlushAllFlights(t: Table)
    requires t.Valid()
    ensures var u := FlushAll(t);
            && u.Valid() && |u.jobs| == |t.jobs| && u.queue == map[]
            && (forall j: nat :: u.InFlight(j) <==> j in LeasedJobs(t))
            && (forall j: nat | u.InFlight(j) :: t.InFlight(j) && u.jobs[j].invalidated)
            && (forall j: nat | j < |t.jobs| ::
                 u.jobs[j].key == t.jobs[j].key && (t.jobs[j].invalidated ==> u.jobs[j].invalidated))
  {
    FlushAllValid(t);
  }

  /** A second drain finds the first one's outstanding jobs still in flight. */
  lemma DrainedWaiting(s: State)
    requires Inv(s) && s.drains != []
    ensures forall j: nat :: Drained(s).table.InFlight(j) <==> s.table.InFlight(j)
    ensures Drained(s).table.inflight != map[]
  {
    DrainedTable(s);
    var u := Drained(s);
    forall j: nat ensures u.table.InFlight(j) <==> s.table.InFlight(j) {
      InFlightSplit(s.table, j);
    }
    var k :| k in s.table.inflight;
    assert s.table.InFlight(s.table.inflight[k]);
    assert u.table.InFlight(s.table.inflight[k]);
  }

  lemma DrainedNothingLeased(s: State)
    requires Inv(s)
    ensures Drained(s).table.inflight == map[] ==> LeasedJobs(s.table) == {}
  {
    DrainedTable(s);
    var u := Drained(s);
    if u.table.inflight == map[] {
      forall j: nat ensures j !in LeasedJobs(s.table) { assert !u.table.InFlight(j); }
    }
  }

  lemma DrainedReplies(s: State)
    requires Inv(s)
    ensures RepliesOk(Drained(s))
    ensures Drained(s).table.inflight == map[] ==> Drained(s).drains == []
  {
    DrainedNothingLeased(s);
    if s.drains != [] { DrainedWaiting(s); }
  }

  lemma NewLedger(s: State)
    requires s.table.Valid()
    ensures var q, l := QueuedJobs(s.table), LeasedJobs(s.table);
            var ledger := Ledger(q, l, {}, {}, {}, {});
            Balanced(DrainReport(|q|, |q| + |l|, 0, 0, 0, false), ledger) && Outstanding(Drained(s).table, ledger)
  {
    DrainedFlights(s);
    hide FlushAll, Table.Valid, Drained, QueuedJobs, LeasedJobs;
  }

  lemma OldLedgers(s: State, d: nat)
    requires Inv(s) && d < |s.drains|
    ensures Balanced(s.drains[d], s.ledgers[d]) && Outstanding(Drained(s).table, s.ledgers[d])
  {
    DrainedWaiting(s);
    hide FlushAll, Table.Valid, AppliedOk, CancelOk, DrainingOk, RepliesOk;
  }

  lemma DrainedLedgers(s: State)
    requires Inv(s)
    ensures LedgersOk(Drained(s))
  {
    DrainedReplies(s);
    var u := Drained(s);
    NewLedger(s);
    DrainedShape(s);
    hide Drained, Table.Valid, FlushAll, AppliedOk, CancelOk, DrainingOk, RepliesOk;
    hide Balanced, Outstanding, QueuedJobs, LeasedJobs;
    forall d | 0 <= d < |u.drains|
      ensures Balanced(u.drains[d], u.ledgers[d]) && Outstanding(u.table, u.ledgers[d])
    {
      if d < |s.drains| { OldLedgers(s, d); }
    }
  }

  lemma DrainedInv(s: State)
    requires Inv(s)
    ensures Inv(Drained(s))
  {
    DrainedTable(s);
    DrainedReplies(s);
    DrainedLedgers(s);
    hide Drained, Table.Valid, AppliedOk, CancelOk, DrainingOk, LedgersOk, RepliesOk;
  }

  lemma ReleasedInv(s: State, u: State)
    requires Inv(s)
    requires u.cancelledThrough.Keys == u.cancelTokens.Keys <= s.cancelledThrough.Keys
    requires forall i | i in u.cancelledThrough ::
      u.cancelledThrough[i] == s.cancelledThrough[i] && u.cancelTokens[i] == s.cancelTokens[i]
    requires forall i | i in s.generations :: Get(u.generations, i) >= s.generations[i]
    requires u == s.(cancelledThrough := u.cancelledThrough, cancelTokens := u.cancelTokens,
                     generations := u.generations)
    ensures Inv(u)
  {}

  lemma MarkedTable(t: Table, j: nat)
    requires t.Valid() && j < |t.jobs| && t.jobs[j].started
    ensures var u := t.(jobs := t.jobs[j := t.jobs[j].(probeSent := true)]);
            && u.Valid() && (forall x: nat :: u.InFlight(x) <==> t.InFlight(x))
            && (forall x: nat | x < |t.jobs| ::
                 u.jobs[x].key == t.jobs[x].key && u.jobs[x].invalidated == t.jobs[x].invalidated)
  {
    var u := t.(jobs := t.jobs[j := t.jobs[j].(probeSent := true)]);
    forall x: nat
      ensures (u.InFlight(x) <==> t.InFlight(x)) && (u.Holds(x) <==> t.Holds(x)) && (u.Queued(x) <==> t.Queued(x))
    {}
  }

  lemma SameJobsInv(s: State, t: Table)
    requires Inv(s) && t.Valid() && SameFlights(s.table, t)
    requires t.inflight == s.table.inflight && t.queue == s.table.queue
    ensures Inv(s.(table := t))
  {
    hide Table.Valid, Balanced;
  }

  lemma MarkedInv(s: State, j: nat)
    requires Inv(s) && j < |s.table.jobs| && s.table.jobs[j].started
    ensures Inv(Step(s, MarkProbeSent(j)))
  {
    MarkedTable(s.table, j);
    hide Inv, Table.Valid, Table.InFlight;
    SameJobsInv(s, s.table.(jobs := s.table.jobs[j := s.table.jobs[j].(probeSent := true)]));
  }

  lemma StepInv(s: State, c: Command)
    requires Inv(s) && Enabled(s, c)
    ensures Inv(Step(s, c))
  {
    match c
    case Submit(intent) => SubmittedInv(s, intent);
    case Expire(j, f) => ExpiredInv(s, j, f);
    case Deliver(j, r, v, a, f) => DeliveredInv(s, j, r, v, a, f);
    case LogCallback(j, failed) =>
    case MarkProbeSent(j) => MarkedInv(s, j);
    case Cancel(instances) =>
      CancelledEachInv(s, instances);
      FinishDrainsInv(CancelledEach(s, instances));
    case Activate(g) => ReleasedInv(s, Activated(s, g));
    case Restore(g, t) => ReleasedInv(s, Restored(s, g, t));
    case Drain => DrainedInv(s);
  }

  lemma {:induction false} ExecInv(s: State, cs: seq<Command>)
    requires Inv(s) && Admissible(s, cs)
    ensures Inv(Exec(s, cs))
    decreases |cs|
  {
    if cs != [] {
      StepInv(s, cs[0]);
      ExecInv(Step(s, cs[0]), cs[1..]);
    }
  }
}
