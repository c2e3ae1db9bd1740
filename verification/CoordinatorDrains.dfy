/** Drain reports: every report accounts for exactly the jobs its drain found in flight. */
module CoordinatorDrains {
  import opened JobTable
  import opened CoordinatorSpec
  import opened CoordinatorProofs

  // ---- Counting the jobs in flight ----

  lemma {:induction false} KeysAndJobs(t: Table, keys: set<OperationKey>, js: set<nat>)
    requires t.KeysMatch() && keys <= t.inflight.Keys
    requires forall k | k in keys :: t.inflight[k] in js
    requires forall j | j in js :: t.InFlight(j) && t.jobs[j].key in keys
    ensures |keys| == |js|
    decreases keys
  {
    if keys == {} {
      assert js == {};
    } else {
      var k :| k in keys;
      var j := t.inflight[k];
      KeysAndJobs(t, keys - {k}, js - {j});
    }
  }

  /** The operations in flight number the queued jobs and the lease holders together. */
  lemma InFlightCount(t: Table)
    requires t.Valid()
    ensures |t.inflight| == |QueuedJobs(t)| + |LeasedJobs(t)|
  {
    var q, l := QueuedJobs(t), LeasedJobs(t);
    forall j: nat ensures t.InFlight(j) <==> j in q + l {
      InFlightSplit(t, j);
    }
    assert q !! l by {
      forall j | j in q ensures j !in l { InFlightSplit(t, j); }
    }
    KeysAndJobs(t, t.inflight.Keys, q + l);
    assert |q + l| == |q| + |l|;
  }

  // ---- The ledgers, in the order the drains began ----

  ghost function AllLedgers(s: State): seq<Ledger> {
    seq(|s.replies|, d requires 0 <= d < |s.replies| => s.replies[d].1) + s.ledgers
  }

  /** The part of a ledger that only a cancellation may change. */
  ghost predicate SameBasis(l: Ledger, m: Ledger) {
    m.queued == l.queued && m.leased == l.leased && m.withdrawn == l.withdrawn
  }

  ghost predicate Extends(a: seq<Ledger>, b: seq<Ledger>) {
    |a| <= |b| && forall d | 0 <= d < |a| :: SameBasis(a[d], b[d])
  }

  lemma FinishDrainsLedgers(s: State)
    requires |s.drains| == |s.ledgers|
    ensures AllLedgers(FinishDrains(s)) == AllLedgers(s)
  {}

  lemma SettleLedgers(s: State, j: nat, how: Disposition, expire: bool, probe: bool, inheritErr: bool)
    requires j < |s.table.jobs| && |s.drains| == |s.ledgers|
    ensures Extends(AllLedgers(s), AllLedgers(Settle(s, j, how, expire, probe, inheritErr)))
  {
    var u := Closed(s, j, how, expire, probe, inheritErr);
    FinishDrainsLedgers(TryStart(u, s.table.jobs[j].key.instance));
    var a, b := AllLedgers(s), AllLedgers(u);
    forall d | 0 <= d < |a| ensures SameBasis(a[d], b[d]) {
      if d >= |s.replies| { assert b[d] == Record(s.ledgers[d - |s.replies|], j, how, probe, inheritErr); }
    }
  }

  lemma DrainedAppends(s: State)
    requires |s.drains| == |s.ledgers|
    requires Drained(s).table.inflight == map[] ==> s.drains == []
    ensures AllLedgers(Drained(s)) ==
            AllLedgers(s) + [Ledger(QueuedJobs(s.table), LeasedJobs(s.table), {}, {}, {}, {})]
  {}

  lemma DrainedLedgersExtend(s: State)
    requires Inv(s)
    ensures AllLedgers(Drained(s)) ==
            AllLedgers(s) + [Ledger(QueuedJobs(s.table), LeasedJobs(s.table), {}, {}, {}, {})]
  {
    DrainedReplies(s);
    DrainedAppends(s);
  }

  lemma StepLedgers(s: State, c: Command)
    requires Inv(s) && Enabled(s, c) && !c.Cancel?
    ensures Extends(AllLedgers(s), AllLedgers(Step(s, c)))
  {
    hide Table.Valid, AppliedOk, DrainingOk, CancelOk, RepliesOk, Expired, Delivered, Drained;
    match c
    case Expire(j, f) => ExpiredLedgers(s, j, f);
    case Deliver(j, r, v, a, f) => DeliveredLedgers(s, j, r, v, a, f);
    case Drain => DrainedLedgersExtend(s);
    case _ =>
  }

  lemma ExpiredLedgers(s: State, j: nat, f: bool)
    requires j < |s.table.jobs| && |s.drains| == |s.ledgers|
    ensures Extends(AllLedgers(s), AllLedgers(Expired(s, j, f)))
  {
    var sent := s.table.jobs[j].probeSent;
    SettleLedgers(s, j, DiscardedStale, true, sent, sent && f);
  }

  lemma DeliveredLedgers(s: State, j: nat, r: Result, v: bool, a: bool, f: bool)
    requires j < |s.table.jobs| && |s.drains| == |s.ledgers|
    ensures Extends(AllLedgers(s), AllLedgers(Delivered(s, j, r, v, a, f)))
  {
    var valid := ResultValid(s, j, r, v);
    var probe := r.probePhase || s.table.jobs[j].probeSent;
    var stale := !valid || a;
    var s1 := s.(applied := if valid then s.applied + [j] else s.applied);
    assert AllLedgers(s1) == AllLedgers(s);
    SettleLedgers(s1, j, if stale then DiscardedStale else Applied, false, probe, stale && probe && f);
  }
}
