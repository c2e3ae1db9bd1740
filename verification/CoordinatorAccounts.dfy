/** Drain reports against an account of the run itself: when and how each job the drain found
    left flight. The ledgers are only the link between the two. */
module CoordinatorAccounts {
  import opened Basics
  import opened JobTable
  import opened CoordinatorSpec
  import opened CoordinatorProofs
  import opened CoordinatorTheorems
  import opened CoordinatorDrains

  // ---- How a job leaves flight ----

  /** The first step of a run that takes a job out of flight, with the state before it. */
  datatype Exit = Stays | Leaves(before: State, by_: Command)

  predicate LeavesAt(s: State, c: Command, j: nat)
    requires Enabled(s, c)
  {
    s.table.InFlight(j) && !Step(s, c).table.InFlight(j)
  }

  function ExitOf(s: State, cs: seq<Command>, j: nat): Exit
    requires Admissible(s, cs)
    decreases |cs|
  {
    if cs == [] then Stays
    else if LeavesAt(s, cs[0], j) then Leaves(s, cs[0])
    else ExitOf(Step(s, cs[0]), cs[1..], j)
  }

  predicate Finished(e: Exit) {
    e.Leaves? && !e.by_.Cancel?
  }

  predicate Withdrawn(e: Exit) {
    e.Leaves? && e.by_.Cancel?
  }

  /** The job had marked a probe sent, or the result that ended it says so. */
  predicate Sent(e: Exit, j: nat) {
    && Finished(e) && j < |e.before.table.jobs|
    && (e.before.table.jobs[j].probeSent || (e.by_.Deliver? && e.by_.job == j && e.by_.result.probePhase))
  }

  predicate HandoffFailed(e: Exit, j: nat) {
    Sent(e, j) && ((e.by_.Expire? && e.by_.inheritFails) || (e.by_.Deliver? && e.by_.inheritFails))
  }

  // ---- A job of a drain's ledger ----

  ghost function LedgerAt(s: State, n: nat): Ledger
    requires n < |AllLedgers(s)|
  {
    AllLedgers(s)[n]
  }

  /** A lease holder of drain n is in flight exactly until its ledger says how it left. */
  ghost predicate Tracked(s: State, n: nat, j: nat) {
    && n < |AllLedgers(s)| && j < |s.table.jobs|
    && var l := LedgerAt(s, n);
       && j in l.leased && !(j in l.finished && j in l.withdrawn)
       && (s.table.InFlight(j) <==> j !in l.finished && j !in l.withdrawn)
  }

  lemma AtWaiting(s: State, n: nat)
    requires n < |AllLedgers(s)|
    ensures if n < |s.replies| then LedgerAt(s, n) == s.replies[n].1
            else n - |s.replies| < |s.ledgers| && LedgerAt(s, n) == s.ledgers[n - |s.replies|]
  {}

  lemma SettleReplies(s: State, j: nat, how: Disposition, expire: bool, probe: bool, inheritErr: bool)
    requires j < |s.table.jobs|
    ensures var u := Settle(s, j, how, expire, probe, inheritErr);
            s.replies <= u.replies && (|u.replies| > |s.replies| ==> u.table.inflight == map[])
  {
    hide Retire, TallyAll, RecordAll, StartHead;
  }

  lemma DeliveredReplies(s: State, j: nat, r: Result, v: bool, a: bool, f: bool)
    requires j < |s.table.jobs|
    ensures var u := Delivered(s, j, r, v, a, f);
            s.replies <= u.replies && (|u.replies| > |s.replies| ==> u.table.inflight == map[])
  {
    hide Settle, ResultValid;
    var valid, probe := ResultValid(s, j, r, v), r.probePhase || s.table.jobs[j].probeSent;
    var stale := !valid || a;
    SettleReplies(s.(applied := if valid then s.applied + [j] else s.applied), j,
                  if stale then DiscardedStale else Applied, false, probe, stale && probe && f);
  }

  lemma ExpiredReplies(s: State, j: nat, f: bool)
    requires j < |s.table.jobs|
    ensures var u := Expired(s, j, f);
            s.replies <= u.replies && (|u.replies| > |s.replies| ==> u.table.inflight == map[])
  {
    hide Settle;
    var sent := s.table.jobs[j].probeSent;
    SettleReplies(s, j, DiscardedStale, true, sent, sent && f);
  }

  lemma SubmittedReplies(s: State, intent: Intent)
    ensures Submitted(s, intent).replies == s.replies && Submitted(s, intent).ledgers == s.ledgers
  {
    hide Enqueue, StartHead;
  }

  lemma DrainedReplies(s: State)
    ensures var u := Drained(s);
            s.replies <= u.replies && (|u.replies| > |s.replies| ==> u.table.inflight == map[])
  {
    hide FlushAll, QueuedJobs, LeasedJobs;
  }

  lemma CancelReplies(s: State, instances: seq<Instance>)
    ensures var u := Step(s, Cancel(instances));
            s.replies <= u.replies && (|u.replies| > |s.replies| ==> u.table.inflight == map[])
  {
    CancelKeepsReplies(s, instances);
    hide CancelledEach;
  }

  /** Reports are only added, and only when nothing is in flight. */
  lemma RepliesWhenEmpty(s: State, c: Command)
    requires Enabled(s, c)
    ensures s.replies <= Step(s, c).replies
    ensures |Step(s, c).replies| > |s.replies| ==> Step(s, c).table.inflight == map[]
  {
    hide Submitted, Expired, Delivered, Drained, CancelledEach, FinishDrains;
    match c
    case Submit(intent) => SubmittedReplies(s, intent);
    case Expire(j, f) => ExpiredReplies(s, j, f);
    case Deliver(j, r, v, a, f) => DeliveredReplies(s, j, r, v, a, f);
    case Cancel(instances) => CancelReplies(s, instances);
    case Drain => DrainedReplies(s);
    case _ =>
  }

  lemma CancelKeepsReplies(s: State, instances: seq<Instance>)
    ensures CancelledEach(s, instances).replies == s.replies
    decreases |instances|
  {
    if instances != [] { CancelKeepsReplies(s, instances[..|instances| - 1]); }
  }

  // ---- Cancellation touches only the withdrawn jobs ----

  ghost predicate SameButWithdrawn(l: Ledger, m: Ledger) {
    m == l.(withdrawn := m.withdrawn)
  }

  lemma CancelledEachLedgers(s: State, instances: seq<Instance>)
    ensures var u := CancelledEach(s, instances);
            && |u.ledgers| == |s.ledgers| && u.replies == s.replies && u.drains == s.drains
            && forall d | 0 <= d < |s.ledgers| :: SameButWithdrawn(s.ledgers[d], u.ledgers[d])
    decreases |instances|
  {
    if instances != [] { CancelledEachLedgers(s, instances[..|instances| - 1]); }
  }

  lemma CancelLedgers(s: State, instances: seq<Instance>, n: nat)
    requires |s.drains| == |s.ledgers| && n < |AllLedgers(s)|
    ensures var u := Step(s, Cancel(instances));
            n < |AllLedgers(u)| && SameButWithdrawn(LedgerAt(s, n), LedgerAt(u, n))
  {
    var m := CancelledEach(s, instances);
    CancelledEachLedgers(s, instances);
    assert Step(s, Cancel(instances)) == FinishDrains(m);
    assert n < |AllLedgers(m)|;
    AtWaiting(s, n);
    AtWaiting(m, n);
    hide Step, CancelledEach, FinishDrains, AllLedgers;
    FinishDrainsLedgers(m);
  }

  // ---- Any other step marks exactly the job that leaves ----

  lemma SettleAllLedgers(s: State, x: nat, how: Disposition, expire: bool, probe: bool, inheritErr: bool)
    requires x < |s.table.jobs| && |s.drains| == |s.ledgers|
    ensures AllLedgers(Settle(s, x, how, expire, probe, inheritErr)) ==
            AllLedgers(Closed(s, x, how, expire, probe, inheritErr))
  {
    var v, i := Closed(s, x, how, expire, probe, inheritErr), s.table.jobs[x].key.instance;
    assert AllLedgers(TryStart(v, i)) == AllLedgers(v) by { hide Closed, StartHead; }
    hide Closed, TryStart, AllLedgers;
    FinishDrainsLedgers(TryStart(v, i));
  }

  lemma ClosedLedgerAt(s: State, x: nat, how: Disposition, expire: bool, probe: bool, inheritErr: bool, n: nat)
    requires x < |s.table.jobs| && |s.replies| <= n < |AllLedgers(s)|
    ensures var v := Closed(s, x, how, expire, probe, inheritErr);
            n < |AllLedgers(v)| && LedgerAt(v, n) == Record(LedgerAt(s, n), x, how, probe, inheritErr)
  {
    hide Retire, Record, TallyAll;
  }

  lemma SettleFlights(s: State, x: nat, how: Disposition, expire: bool, probe: bool, inheritErr: bool, j: nat)
    requires s.table.Valid() && s.table.InFlight(x) && s.table.jobs[x].started
    ensures Settle(s, x, how, expire, probe, inheritErr).table.InFlight(j) <==> s.table.InFlight(j) && j != x
  {
    var v := Closed(s, x, how, expire, probe, inheritErr);
    assert v.table == Retire(s.table, x, how, expire);
    RetireValid(s.table, x, how, expire, false);
    RetireFlights(s.table, x, how, expire, false);
    hide Closed, Retire, Table.Valid, Table.InFlight, TryStart;
    TryStartKeeps(v, s.table.jobs[x].key.instance);
  }

  /** A settled job is the only one to leave, and every waiting ledger records it. */
  lemma SettleRecords(s: State, x: nat, expire: bool, probe: bool, inheritErr: bool, n: nat, j: nat)
    requires s.table.Valid() && s.table.InFlight(x) && s.table.jobs[x].started && |s.drains| == |s.ledgers|
    requires |s.replies| <= n < |AllLedgers(s)|
    ensures var u := Settle(s, x, DiscardedStale, expire, probe, inheritErr);
            && n < |AllLedgers(u)| && LedgerAt(u, n) == Record(LedgerAt(s, n), x, DiscardedStale, probe, inheritErr)
            && (u.table.InFlight(j) <==> s.table.InFlight(j) && j != x)
  {
    SettleFlights(s, x, DiscardedStale, expire, probe, inheritErr, j);
    hide Settle, Closed, Record, AllLedgers, Table.Valid, Table.InFlight;
    SettleAllLedgers(s, x, DiscardedStale, expire, probe, inheritErr);
    ClosedLedgerAt(s, x, DiscardedStale, expire, probe, inheritErr, n);
  }

  /** The exit of j in one step. */
  function ExitAt(s: State, c: Command, j: nat): Exit
    requires Enabled(s, c)
  {
    if LeavesAt(s, c, j) then Leaves(s, c) else Stays
  }

  /** What a step enters about job j in a ledger. */
  ghost predicate EnteredIn(l: Ledger, m: Ledger, e: Exit, j: nat) {
    && m.queued == l.queued && m.leased == l.leased
    && (j in m.finished <==> j in l.finished || Finished(e))
    && (j in m.withdrawn <==> j in l.withdrawn || Withdrawn(e))
    && (j in m.marked <==> j in l.marked || Sent(e, j))
    && (j in m.failed <==> j in l.failed || HandoffFailed(e, j))
  }

  ghost predicate Entered(s: State, c: Command, n: nat, j: nat)
    requires Enabled(s, c) && n < |AllLedgers(s)|
  {
    n < |AllLedgers(Step(s, c))| && EnteredIn(LedgerAt(s, n), LedgerAt(Step(s, c), n), ExitAt(s, c, j), j)
  }

  /** A step in which j stays and the ledger is the same enters nothing. */
  lemma NothingEnters(s: State, c: Command, n: nat, j: nat)
    requires Enabled(s, c) && n < |AllLedgers(s)| && n < |AllLedgers(Step(s, c))|
    requires LedgerAt(Step(s, c), n) == LedgerAt(s, n) && !LeavesAt(s, c, j)
    ensures Entered(s, c, n, j)
  {
    hide Step, AllLedgers, LeavesAt;
  }

  lemma RecordEnters(l: Ledger, x: nat, probe: bool, err: bool, e: Exit, j: nat)
    requires if j == x then Finished(e) && (Sent(e, j) <==> probe) && (HandoffFailed(e, j) <==> err) else e == Stays
    ensures EnteredIn(l, Record(l, x, DiscardedStale, probe, err), e, j)
  {}

  /** The jobs a waiting drain holds are invalidated, so their results come too late. */
  lemma WaitingIsStale(s: State, n: nat, x: nat)
    requires Inv(s) && |s.replies| <= n < |AllLedgers(s)| && s.table.InFlight(x)
    ensures s.table.jobs[x].invalidated && !s.table.jobs[x].expired && |s.drains| == |s.ledgers|
  {
    AtWaiting(s, n);
  }

  lemma ExpireEnters(s: State, x: nat, f: bool, n: nat, j: nat)
    requires Inv(s) && Enabled(s, Expire(x, f)) && |s.replies| <= n < |AllLedgers(s)|
    ensures Entered(s, Expire(x, f), n, j)
  {
    if s.table.InFlight(x) {
      var sent := s.table.jobs[x].probeSent;
      WaitingIsStale(s, n, x);
      SettleRecords(s, x, true, sent, sent && f, n, j);
      assert Step(s, Expire(x, f)) == Settle(s, x, DiscardedStale, true, sent, sent && f);
      hide Inv, Settle, Expired, AllLedgers, Record, EnteredIn;
      RecordEnters(LedgerAt(s, n), x, sent, sent && f, ExitAt(s, Expire(x, f), j), j);
    }
  }

  lemma UnchangedEnters(s: State, c: Command, n: nat, j: nat)
    requires Enabled(s, c) && n < |AllLedgers(s)| && Step(s, c) == s
    ensures Entered(s, c, n, j)
  {
    hide Step, AllLedgers, Entered;
    NothingEnters(s, c, n, j);
  }

  lemma DeliverEnters(s: State, x: nat, r: Result, v: bool, a: bool, f: bool, n: nat, j: nat)
    requires Inv(s) && Enabled(s, Deliver(x, r, v, a, f)) && |s.replies| <= n < |AllLedgers(s)|
    ensures Entered(s, Deliver(x, r, v, a, f), n, j)
  {
    var c := Deliver(x, r, v, a, f);
    if s.table.InFlight(x) {
      var probe := r.probePhase || s.table.jobs[x].probeSent;
      WaitingIsStale(s, n, x);
      SettleRecords(s, x, false, probe, probe && f, n, j);
      DeliveredStale(s, x, r, v, a, f);
      DeliverExit(s, x, r, v, a, f);
      assert Step(s, c) == Settle(s, x, DiscardedStale, false, probe, probe && f);
      hide Inv, Settle, Step, AllLedgers, Record, EnteredIn, Sent, HandoffFailed, Finished, Table.InFlight;
      RecordEnters(LedgerAt(s, n), x, probe, probe && f, ExitAt(s, c, j), j);
    } else {
      UnchangedEnters(s, c, n, j);
    }
  }

  lemma DeliverExit(s: State, x: nat, r: Result, v: bool, a: bool, f: bool)
    requires x < |s.table.jobs|
    ensures var e, probe := Leaves(s, Deliver(x, r, v, a, f)), r.probePhase || s.table.jobs[x].probeSent;
            Finished(e) && (Sent(e, x) <==> probe) && (HandoffFailed(e, x) <==> probe && f)
  {}

  lemma DeliveredStale(s: State, x: nat, r: Result, v: bool, a: bool, f: bool)
    requires s.table.InFlight(x) && s.table.jobs[x].invalidated
    ensures var probe := r.probePhase || s.table.jobs[x].probeSent;
            Delivered(s, x, r, v, a, f) == Settle(s, x, DiscardedStale, false, probe, probe && f)
  {
    hide Settle;
    assert s.(applied := s.applied) == s;
  }

  /** A submission takes nothing out of flight. */
  lemma SubmitKeepsFlights(s: State, intent: Intent, j: nat)
    requires Inv(s) && j < |s.table.jobs|
    ensures Submitted(s, intent).table.InFlight(j) <==> s.table.InFlight(j)
  {
    if ReplyTo(s, intent).Accepted? {
      EnqueueValid(s.table, NewJob(s, intent));
      TryStartKeeps(s.(typedNonce := NonceAfter(s, intent), table := Enqueue(s.table, NewJob(s, intent)),
                       generations := Raise(s.generations, intent.instance, intent.generation)), intent.instance);
    }
  }

  lemma SubmitEnters(s: State, intent: Intent, n: nat, j: nat)
    requires Inv(s) && Tracked(s, n, j)
    ensures Entered(s, Submit(intent), n, j)
  {
    SubmitKeepsFlights(s, intent, j);
    SubmittedReplies(s, intent);
    assert AllLedgers(Submitted(s, intent)) == AllLedgers(s) by { hide Submitted; }
    assert Step(s, Submit(intent)) == Submitted(s, intent);
    hide Submitted, Inv, AllLedgers, Step, Entered, Table.InFlight;
    NothingEnters(s, Submit(intent), n, j);
  }

  /** A drain whose report was handed back has no job in flight. */
  lemma RepliedLeft(s: State, n: nat, j: nat)
    requires Inv(s) && Tracked(s, n, j)
    ensures n < |s.replies| ==> !s.table.InFlight(j)
  {
    AtWaiting(s, n);
  }

  /** A later drain leaves what an earlier one tracks alone. */
  lemma DrainKeepsFlight(s: State, n: nat, j: nat)
    requires Inv(s) && Tracked(s, n, j)
    ensures Drained(s).table.InFlight(j) <==> s.table.InFlight(j)
  {
    RepliedLeft(s, n, j);
    AtWaiting(s, n);
    DrainedOlder(s);
    if n >= |s.replies| { DrainedWaiting(s); }
    hide Drained;
  }

  lemma DrainEnters(s: State, n: nat, j: nat)
    requires Inv(s) && Tracked(s, n, j)
    ensures Entered(s, Drain, n, j)
  {
    var d := Drained(s);
    assert Step(s, Drain) == d;
    DrainKeepsFlight(s, n, j);
    DrainedLedgersExtend(s);
    hide Drained, Inv, Step, AllLedgers, Entered, QueuedJobs, LeasedJobs, Table.InFlight;
    assert LedgerAt(d, n) == LedgerAt(s, n);
    NothingEnters(s, Drain, n, j);
  }

  lemma QuietEnters(s: State, c: Command, n: nat, j: nat)
    requires Inv(s) && Enabled(s, c) && Tracked(s, n, j)
    requires c.LogCallback? || c.MarkProbeSent? || c.Activate? || c.Restore?
    ensures Entered(s, c, n, j)
  {
    assert AllLedgers(Step(s, c)) == AllLedgers(s);
    if c.MarkProbeSent? { MarkedTable(s.table, c.job); }
  }

  /** A step on a job of a drain already answered changes nothing in its ledger. */
  lemma AnsweredEnters(s: State, c: Command, n: nat, j: nat)
    requires Inv(s) && Enabled(s, c) && Tracked(s, n, j) && n < |s.replies| && (c.Expire? || c.Deliver?)
    ensures Entered(s, c, n, j)
  {
    RepliedLeft(s, n, j);
    RepliesWhenEmpty(s, c);
    var u := Step(s, c);
    assert n < |AllLedgers(s)| && n < |AllLedgers(u)| by { hide Step, Inv; }
    AtWaiting(s, n);
    AtWaiting(u, n);
    hide Step, Inv, AllLedgers, Entered, Tracked, Table.InFlight;
    NothingEnters(s, c, n, j);
  }

  // ---- Cancellation ----

  lemma CancelEnters(s: State, instances: seq<Instance>, n: nat, j: nat)
    requires Inv(s) && Tracked(s, n, j) && Tracked(Step(s, Cancel(instances)), n, j)
    ensures Entered(s, Cancel(instances), n, j)
  {
    TrackedFacts(s, n, j);
    CancelLedgers(s, instances, n);
    StepOlder(s, Cancel(instances));
    var u := Step(s, Cancel(instances));
    hide Step, Inv, AllLedgers, Table.InFlight;
    WithdrawalEnters(LedgerAt(s, n), LedgerAt(u, n), s.table.InFlight(j), u.table.InFlight(j),
                     ExitAt(s, Cancel(instances), j), j);
  }

  lemma WithdrawalEnters(l: Ledger, m: Ledger, before: bool, after: bool, e: Exit, j: nat)
    requires SameButWithdrawn(l, m) && !(j in l.finished && j in l.withdrawn) && !(j in m.finished && j in m.withdrawn)
    requires (before <==> j !in l.finished && j !in l.withdrawn) && (after <==> j !in m.finished && j !in m.withdrawn)
    requires after ==> before
    requires if before && !after then e.Leaves? && e.by_.Cancel? else e == Stays
    ensures EnteredIn(l, m, e, j)
  {}

  lemma TrackedFacts(s: State, n: nat, j: nat)
    requires Inv(s) && Tracked(s, n, j)
    ensures n < |AllLedgers(s)| && |s.drains| == |s.ledgers|
  {}

  // ---- Every step ----

  lemma TrackedStays(s: State, c: Command, n: nat, j: nat)
    requires Inv(s) && Enabled(s, c) && Tracked(s, n, j)
    requires n < |AllLedgers(Step(s, c))| && LedgerAt(Step(s, c), n).leased == LedgerAt(s, n).leased
    ensures Tracked(Step(s, c), n, j)
  {
    var u := Step(s, c);
    StepInv(s, c);
    StepOlder(s, c);
    AtWaiting(s, n);
    AtWaiting(u, n);
    RepliedLeft(s, n, j);
    RepliesWhenEmpty(s, c);
    hide Step, AppliedOk, CancelOk, DrainingOk, Table.Valid;
  }

  lemma StepEnters(s: State, c: Command, n: nat, j: nat)
    requires Inv(s) && Enabled(s, c) && Tracked(s, n, j)
    ensures Entered(s, c, n, j) && Tracked(Step(s, c), n, j)
  {
    TrackedFacts(s, n, j);
    hide Inv, Step, Entered, EnteredIn, Tracked;
    if c.Cancel? {
      CancelLedgers(s, c.instances, n);
      TrackedStays(s, c, n, j);
      CancelEnters(s, c.instances, n, j);
    } else {
      OtherEnters(s, c, n, j);
      EnteredLeased(s, c, n, j);
      TrackedStays(s, c, n, j);
    }
  }

  lemma EnteredLeased(s: State, c: Command, n: nat, j: nat)
    requires Enabled(s, c) && n < |AllLedgers(s)| && Entered(s, c, n, j)
    ensures n < |AllLedgers(Step(s, c))| && LedgerAt(Step(s, c), n).leased == LedgerAt(s, n).leased
  {}

  lemma OtherEnters(s: State, c: Command, n: nat, j: nat)
    requires Inv(s) && Enabled(s, c) && Tracked(s, n, j) && !c.Cancel?
    ensures Entered(s, c, n, j)
  {
    hide Inv, Step, Entered, AllLedgers;
    match c
    case Submit(intent) => SubmitEnters(s, intent, n, j);
    case Expire(x, f) => if n < |s.replies| { AnsweredEnters(s, c, n, j); } else { ExpireEnters(s, x, f, n, j); }
    case Deliver(x, r, v, a, f) =>
      if n < |s.replies| { AnsweredEnters(s, c, n, j); } else { DeliverEnters(s, x, r, v, a, f, n, j); }
    case Drain => DrainEnters(s, n, j);
    case _ => QuietEnters(s, c, n, j);
  }

  // ---- Every run ----

  lemma EnteredTwice(l: Ledger, m: Ledger, k: Ledger, a: Exit, b: Exit, j: nat)
    requires EnteredIn(l, m, a, j) && EnteredIn(m, k, b, j) && (a == Stays || b == Stays)
    ensures EnteredIn(l, k, if a == Stays then b else a, j)
  {}

  lemma ExitNext(s: State, cs: seq<Command>, j: nat)
    requires Admissible(s, cs) && cs != []
    ensures ExitOf(s, cs, j) ==
            if ExitAt(s, cs[0], j) == Stays then ExitOf(Step(s, cs[0]), cs[1..], j) else ExitAt(s, cs[0], j)
  {
    hide Step;
  }

  /** The ledger of a drain says of a tracked job what the run did with it. */
  lemma {:induction false} LedgerTells(s: State, cs: seq<Command>, n: nat, j: nat)
    requires Inv(s) && Admissible(s, cs) && Tracked(s, n, j)
    ensures n < |AllLedgers(s)| && n < |AllLedgers(Exec(s, cs))|
    ensures EnteredIn(LedgerAt(s, n), LedgerAt(Exec(s, cs), n), ExitOf(s, cs, j), j)
    decreases |cs|
  {
    TrackedFacts(s, n, j);
    if cs != [] {
      var c, u, rest := cs[0], Step(s, cs[0]), cs[1..];
      assert Enabled(s, c) && Admissible(u, rest) && Exec(s, cs) == Exec(u, rest) by { hide Step; }
      assert j < |s.table.jobs| by { hide AllLedgers; }
      hide Inv, Step, Exec, Admissible, Tracked, AllLedgers, LedgerAt, EnteredIn, ExitOf;
      StepInv(s, c);
      StepEnters(s, c, n, j);
      LedgerTells(u, rest, n, j);
      ExitNext(s, cs, j);
      if ExitAt(s, c, j) != Stays {
        StepOlder(s, c);
        OlderJob(s.table, u.table, j);
        GoneStays(u, rest, j);
      }
      EnteredTwice(LedgerAt(s, n), LedgerAt(u, n), LedgerAt(Exec(u, rest), n), ExitAt(s, c, j), ExitOf(u, rest, j), j);
    }
  }

  /** A job that left flight does not leave again. */
  lemma {:induction false} GoneStays(s: State, cs: seq<Command>, j: nat)
    requires Inv(s) && Admissible(s, cs) && j < |s.table.jobs| && !s.table.InFlight(j)
    ensures ExitOf(s, cs, j) == Stays
    decreases |cs|
  {
    if cs != [] {
      StepInv(s, cs[0]);
      StepOlder(s, cs[0]);
      GoneStays(Step(s, cs[0]), cs[1..], j);
    }
  }

  /** The lease holders found by a drain, by how they left flight afterwards. */
  ghost function FinishedJobs(s: State, cs: seq<Command>): set<nat>
    requires Admissible(Drained(s), cs)
  {
    set j | j in LeasedJobs(s.table) && Finished(ExitOf(Drained(s), cs, j))
  }

  ghost function WithdrawnJobs(s: State, cs: seq<Command>): set<nat>
    requires Admissible(Drained(s), cs)
  {
    set j | j in LeasedJobs(s.table) && Withdrawn(ExitOf(Drained(s), cs, j))
  }

  ghost function SentJobs(s: State, cs: seq<Command>): set<nat>
    requires Admissible(Drained(s), cs)
  {
    set j | j in LeasedJobs(s.table) && Sent(ExitOf(Drained(s), cs, j), j)
  }

  ghost function FailedJobs(s: State, cs: seq<Command>): set<nat>
    requires Admissible(Drained(s), cs)
  {
    set j | j in LeasedJobs(s.table) && HandoffFailed(ExitOf(Drained(s), cs, j), j)
  }

  lemma DrainStarts(s: State)
    requires Inv(s)
    ensures var n, d := |s.replies| + |s.drains|, Drained(s);
            n < |AllLedgers(d)| && LedgerAt(d, n) == Ledger(QueuedJobs(s.table), LeasedJobs(s.table), {}, {}, {}, {})
  {
    DrainedLedgersExtend(s);
    hide Inv, Drained, QueuedJobs, LeasedJobs;
  }

  lemma DrainTracks(s: State, j: nat)
    requires Inv(s) && j in LeasedJobs(s.table)
    ensures Tracked(Drained(s), |s.replies| + |s.drains|, j) && Drained(s).table.InFlight(j)
  {
    var d, n := Drained(s), |s.replies| + |s.drains|;
    assert d.table.InFlight(j) by {
      InvDue(s);
      DueInvFacts(s);
      DrainedFlights(s);
    }
    hide *;
    DrainStarts(s);
    var l := LedgerAt(d, n);
    assert l.leased == LeasedJobs(s.table) && l.finished == {} && l.withdrawn == {};
    FreshTracked(d, n, j);
  }

  lemma FreshTracked(d: State, n: nat, j: nat)
    requires n < |AllLedgers(d)| && d.table.InFlight(j)
    requires var l := LedgerAt(d, n); j in l.leased && l.finished == {} && l.withdrawn == {}
    ensures Tracked(d, n, j)
  {}

  /** A ledger speaks only of the lease holders its drain found. */
  lemma LedgerWithin(s: State, n: nat)
    requires Inv(s) && n < |AllLedgers(s)|
    ensures var l := LedgerAt(s, n); l.failed <= l.marked <= l.finished <= l.leased && l.withdrawn <= l.leased
  {
    AtWaiting(s, n);
    hide Table.Valid, AppliedOk, CancelOk, DrainingOk, AllLedgers;
  }

  lemma AccountOf(s: State, cs: seq<Command>, j: nat)
    requires Inv(s) && Admissible(Drained(s), cs) && j in LeasedJobs(s.table)
    ensures var n, d := |s.replies| + |s.drains|, Drained(s);
            && n < |AllLedgers(d)| && n < |AllLedgers(Exec(d, cs))|
            && EnteredIn(LedgerAt(d, n), LedgerAt(Exec(d, cs), n), ExitOf(d, cs, j), j)
  {
    hide Inv, Step, Exec, Drained, LeasedJobs, QueuedJobs, AllLedgers, Tracked, EnteredIn, ExitOf, Admissible, LedgerAt;
    DrainedInv(s);
    DrainTracks(s, j);
    DrainStarts(s);
    LedgerTells(Drained(s), cs, |s.replies| + |s.drains|, j);
  }

  /** A drain's ledger keeps its place and what the drain found. */
  lemma {:induction false} BasisStays(s: State, cs: seq<Command>, n: nat)
    requires Inv(s) && Admissible(s, cs) && n < |AllLedgers(s)|
    ensures var u := Exec(s, cs);
            && Inv(u) && n < |AllLedgers(u)|
            && LedgerAt(u, n).queued == LedgerAt(s, n).queued && LedgerAt(u, n).leased == LedgerAt(s, n).leased
    decreases |cs|
  {
    if cs != [] {
      StepInv(s, cs[0]);
      if cs[0].Cancel? {
        InvDue(s);
        DueInvFacts(s);
        CancelLedgers(s, cs[0].instances, n);
      } else {
        StepLedgers(s, cs[0]);
      }
      hide Inv, Step, AllLedgers;
      BasisStays(Step(s, cs[0]), cs[1..], n);
    }
  }

  /** The drain's own ledger, at any later time, is exactly that account. */
  lemma LedgerIsAccount(s: State, cs: seq<Command>)
    requires Inv(s) && Admissible(Drained(s), cs)
    ensures var n, u := |s.replies| + |s.drains|, Exec(Drained(s), cs);
            && Inv(u) && n < |AllLedgers(u)|
            && LedgerAt(u, n) == Ledger(QueuedJobs(s.table), LeasedJobs(s.table), FinishedJobs(s, cs),
                                        WithdrawnJobs(s, cs), SentJobs(s, cs), FailedJobs(s, cs))
  {
    hide *;
    DrainBasis(s, cs);
    var l := LedgerAt(Exec(Drained(s), cs), |s.replies| + |s.drains|);
    LedgerWithin(Exec(Drained(s), cs), |s.replies| + |s.drains|);
    AccountFields(s, cs, l);
  }

  lemma DrainBasis(s: State, cs: seq<Command>)
    requires Inv(s) && Admissible(Drained(s), cs)
    ensures var n, u := |s.replies| + |s.drains|, Exec(Drained(s), cs);
            && Inv(u) && n < |AllLedgers(u)|
            && LedgerAt(u, n).queued == QueuedJobs(s.table) && LedgerAt(u, n).leased == LeasedJobs(s.table)
  {
    hide *;
    DrainedInv(s);
    DrainStarts(s);
    BasisStays(Drained(s), cs, |s.replies| + |s.drains|);
  }

  lemma AccountFields(s: State, cs: seq<Command>, l: Ledger)
    requires Inv(s) && Admissible(Drained(s), cs)
    requires var n, u := |s.replies| + |s.drains|, Exec(Drained(s), cs); n < |AllLedgers(u)| && l == LedgerAt(u, n)
    requires l.leased == LeasedJobs(s.table) && l.failed <= l.marked <= l.finished <= l.leased
    requires l.withdrawn <= l.leased
    ensures l.finished == FinishedJobs(s, cs) && l.withdrawn == WithdrawnJobs(s, cs)
    ensures l.marked == SentJobs(s, cs) && l.failed == FailedJobs(s, cs)
  {
    AccountWithin(s, cs);
    hide Inv, Step, Exec, AllLedgers, LedgerAt, LeasedJobs, Admissible;
    hide FinishedJobs, WithdrawnJobs, SentJobs, FailedJobs;
    forall j | j in l.leased
      ensures (j in l.finished <==> j in FinishedJobs(s, cs)) && (j in l.withdrawn <==> j in WithdrawnJobs(s, cs))
      ensures (j in l.marked <==> j in SentJobs(s, cs)) && (j in l.failed <==> j in FailedJobs(s, cs))
    {
      AccountMember(s, cs, j, l);
    }
    SameWithin(l.finished, FinishedJobs(s, cs), l.leased);
    SameWithin(l.withdrawn, WithdrawnJobs(s, cs), l.leased);
    SameWithin(l.marked, SentJobs(s, cs), l.leased);
    SameWithin(l.failed, FailedJobs(s, cs), l.leased);
  }

  lemma AccountWithin(s: State, cs: seq<Command>)
    requires Admissible(Drained(s), cs)
    ensures FinishedJobs(s, cs) <= LeasedJobs(s.table) && WithdrawnJobs(s, cs) <= LeasedJobs(s.table)
    ensures SentJobs(s, cs) <= LeasedJobs(s.table) && FailedJobs(s, cs) <= LeasedJobs(s.table)
  {}

  lemma AccountMember(s: State, cs: seq<Command>, j: nat, l: Ledger)
    requires Inv(s) && Admissible(Drained(s), cs) && j in LeasedJobs(s.table)
    requires var n, u := |s.replies| + |s.drains|, Exec(Drained(s), cs); n < |AllLedgers(u)| && l == LedgerAt(u, n)
    ensures (j in l.finished <==> j in FinishedJobs(s, cs)) && (j in l.withdrawn <==> j in WithdrawnJobs(s, cs))
    ensures (j in l.marked <==> j in SentJobs(s, cs)) && (j in l.failed <==> j in FailedJobs(s, cs))
  {
    AccountOf(s, cs, j);
    DrainStarts(s);
    hide Inv, Step, Exec, AllLedgers, LedgerAt, QueuedJobs, LeasedJobs, ExitOf, Admissible;
    hide Finished, Withdrawn, Sent, HandoffFailed;
  }

  lemma SameWithin(a: set<nat>, b: set<nat>, all: set<nat>)
    requires a <= all && b <= all && forall j | j in all :: j in a <==> j in b
    ensures a == b
  {}

  // ---- The reports ----

  /** Whatever happens after a drain began, cancellations included, its report, once handed
      back, counts the jobs by what the run did with them. */
  lemma ReportIsAccount(s: State, cs: seq<Command>)
    requires Inv(s) && Admissible(Drained(s), cs)
    ensures var n, u := |s.replies| + |s.drains|, Exec(Drained(s), cs);
            n < |u.replies| ==>
              var r := u.replies[n].0;
              && r.completed == |QueuedJobs(s.table)| + |FinishedJobs(s, cs)|
              && r.cancelled == |QueuedJobs(s.table)| + |LeasedJobs(s.table)| == |s.table.inflight|
              && r.invalidated == |FinishedJobs(s, cs)|
              && r.sentUnknown + r.persistenceFailures == |SentJobs(s, cs)|
              && r.persistenceFailures == |FailedJobs(s, cs)|
              && (r.handoffBlocked <==> FailedJobs(s, cs) != {})
              && LeasedJobs(s.table) == FinishedJobs(s, cs) + WithdrawnJobs(s, cs)
  {
    hide Inv, Step, Exec, AllLedgers, LedgerAt, QueuedJobs, LeasedJobs, Admissible, Balanced,
         FinishedJobs, WithdrawnJobs, SentJobs, FailedJobs;
    var n, u := |s.replies| + |s.drains|, Exec(Drained(s), cs);
    LedgerIsAccount(s, cs);
    InvDue(s);
    DueInvFacts(s);
    InFlightCount(s.table);
    if n < |u.replies| {
      AtWaiting(u, n);
      ReplyBalanced(u, n);
      BalancedCounts(u.replies[n].0, u.replies[n].1);
    }
  }

  lemma BalancedCounts(r: DrainReport, l: Ledger)
    requires Balanced(r, l)
    ensures r.completed == |l.queued| + |l.finished| && r.cancelled == |l.queued| + |l.leased|
    ensures r.invalidated == |l.finished|
    ensures r.sentUnknown + r.persistenceFailures == |l.marked| && r.persistenceFailures == |l.failed|
    ensures r.handoffBlocked <==> l.failed != {}
  {}

  lemma ReplyBalanced(u: State, n: nat)
    requires Inv(u) && n < |u.replies|
    ensures Balanced(u.replies[n].0, u.replies[n].1)
    ensures u.replies[n].1.leased == u.replies[n].1.finished + u.replies[n].1.withdrawn
  {}

  lemma {:induction false} ExitIsStep(s: State, cs: seq<Command>, j: nat)
    requires Inv(s) && Admissible(s, cs) && j < |s.table.jobs|
    ensures var e := ExitOf(s, cs, j);
            e.Leaves? ==>
              && e.by_ in cs && j < |e.before.table.jobs|
              && (s.table.jobs[j].probeSent ==> e.before.table.jobs[j].probeSent)
    decreases |cs|
  {
    if cs != [] && !LeavesAt(s, cs[0], j) {
      StepInv(s, cs[0]);
      StepOlder(s, cs[0]);
      ExitIsStep(Step(s, cs[0]), cs[1..], j);
      hide Step, Inv;
    }
  }

  /** With no cancellation meanwhile: completed and cancelled are the jobs in flight when the
      drain began, invalidated are the leased ones; the leased jobs that ended with a probe
      marked sent, among them all that had marked it when the drain began, are each either
      handed on or a persistence failure, and a failure blocks the handoff. */
  lemma DrainReportExact(s: State, cs: seq<Command>)
    requires Inv(s) && Admissible(Drained(s), cs) && (forall n | 0 <= n < |cs| :: !cs[n].Cancel?)
    ensures var n, u := |s.replies| + |s.drains|, Exec(Drained(s), cs);
            n < |u.replies| ==>
              var r := u.replies[n].0;
              && r.completed == r.cancelled == |s.table.inflight| && r.invalidated == |LeasedJobs(s.table)|
              && (forall j | j in LeasedJobs(s.table) && s.table.jobs[j].probeSent :: j in SentJobs(s, cs))
              && SentJobs(s, cs) <= LeasedJobs(s.table)
              && r.sentUnknown == |SentJobs(s, cs) - FailedJobs(s, cs)| && r.persistenceFailures == |FailedJobs(s, cs)|
              && (r.handoffBlocked <==> r.persistenceFailures > 0)
  {
    hide Inv, Exec, Drained, QueuedJobs, FinishedJobs, WithdrawnJobs, SentJobs, FailedJobs, Admissible, Table.Holds;
    var n, u := |s.replies| + |s.drains|, Exec(Drained(s), cs);
    ReportIsAccount(s, cs);
    AccountWithin(s, cs);
    if n < |u.replies| {
      forall j | j in LeasedJobs(s.table)
        ensures j !in WithdrawnJobs(s, cs)
        ensures s.table.jobs[j].probeSent && j in FinishedJobs(s, cs) ==> j in SentJobs(s, cs)
      {
        LeasedExit(s, cs, j);
      }
      FailedWithinSent(s, cs);
      hide LeasedJobs;
      assert FinishedJobs(s, cs) == LeasedJobs(s.table);
      SetParts(SentJobs(s, cs), FailedJobs(s, cs));
    }
  }

  lemma LeasedExit(s: State, cs: seq<Command>, j: nat)
    requires Inv(s) && Admissible(Drained(s), cs) && j in LeasedJobs(s.table)
    requires forall n | 0 <= n < |cs| :: !cs[n].Cancel?
    ensures j !in WithdrawnJobs(s, cs)
    ensures s.table.jobs[j].probeSent && j in FinishedJobs(s, cs) ==> j in SentJobs(s, cs)
  {
    DrainedInv(s);
    DrainedOlder(s);
    ExitIsStep(Drained(s), cs, j);
    hide Inv, Drained, ExitOf, Admissible;
  }

  lemma FailedWithinSent(s: State, cs: seq<Command>)
    requires Admissible(Drained(s), cs)
    ensures FailedJobs(s, cs) <= SentJobs(s, cs)
  {}

  lemma SetParts(a: set<nat>, b: set<nat>)
    requires b <= a
    ensures |a - b| == |a| - |b|
  {
    assert a == b + (a - b);
  }
}
