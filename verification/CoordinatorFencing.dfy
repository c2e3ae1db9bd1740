/** Cancellation as a fence: what reopens a cancelled instance, and what never does. */
module CoordinatorFencing {
  import opened Basics
  import opened JobTable
  import opened CoordinatorSpec
  import opened CoordinatorProofs
  import opened CoordinatorTheorems

  // ---- One step ----

  /** The two commands that reopen an instance cancelled through generation g under token k. */
  predicate Reopens(c: Command, i: Instance, g: Generation, k: nat) {
    || (c.Activate? && i in c.generations && c.generations[i] > g)
    || (c.Restore? && i in c.generations && c.generations[i] == g && Get(c.tokens, i) == k)
  }

  lemma {:induction false} CancelledEachMarks(s: State, instances: seq<Instance>, i: Instance)
    ensures var u := CancelledEach(s, instances);
            && u.generations == s.generations && u.cancelNonce == s.cancelNonce + |instances|
            && (i in instances ==>
                  && i in u.cancelledThrough && u.cancelledThrough[i] == Get(s.generations, i)
                  && i in u.cancelTokens && s.cancelNonce < u.cancelTokens[i] <= u.cancelNonce)
            && (i !in instances ==> SameMark(s, u, i))
    decreases |instances|
  {
    if instances != [] {
      hide CancelledEach;
      var rest, last := instances[..|instances| - 1], instances[|instances| - 1];
      assert instances == rest + [last];
      CancelledEachMarks(s, rest, i);
      CancelledEachLast(s, rest, last);
      CancelledOneMarks(CancelledEach(s, rest), last);
      hide CancelledOne;
    }
  }

  lemma CancelledEachLast(s: State, rest: seq<Instance>, last: Instance)
    ensures CancelledEach(s, rest + [last]) == CancelledOne(CancelledEach(s, rest), last)
  {
    assert (rest + [last])[..|rest|] == rest;
  }

  lemma CancelledOneMarks(s: State, i: Instance)
    ensures var u := CancelledOne(s, i);
            && u.generations == s.generations && u.cancelNonce == s.cancelNonce + 1
            && u.cancelTokens == s.cancelTokens[i := s.cancelNonce + 1]
            && u.cancelledThrough == s.cancelledThrough[i := Get(s.generations, i)]
  {
    hide CancelInstance, Withdraw;
  }

  /** What is recorded of one instance's cancellation is the same. */
  ghost predicate SameMark(s: State, u: State, i: Instance) {
    && (i in u.cancelledThrough <==> i in s.cancelledThrough) && (i in u.cancelTokens <==> i in s.cancelTokens)
    && Get(u.cancelledThrough, i) == Get(s.cancelledThrough, i) && Get(u.cancelTokens, i) == Get(s.cancelTokens, i)
  }

  /** Only cancellations, activations and rollbacks touch the marks. */
  lemma StepMarks(s: State, c: Command)
    requires Enabled(s, c) && !c.Cancel? && !c.Activate? && !c.Restore?
    ensures var u := Step(s, c);
            && u.cancelledThrough == s.cancelledThrough && u.cancelTokens == s.cancelTokens
            && u.cancelNonce == s.cancelNonce
  {
    if c.Submit? { SubmittedMarks(s, c.intent); }
    hide Submitted, Settle, FlushAll, QueuedJobs, LeasedJobs;
  }

  lemma CancelMarks(s: State, instances: seq<Instance>)
    ensures var u, v := Step(s, Cancel(instances)), CancelledEach(s, instances);
            && u.cancelledThrough == v.cancelledThrough
            && u.cancelTokens == v.cancelTokens && u.cancelNonce == v.cancelNonce
  {
    hide CancelledEach;
  }

  lemma MarksFacts(s: State, i: Instance)
    requires Inv(s) && i in s.cancelledThrough
    ensures i in s.cancelTokens && s.cancelTokens[i] <= s.cancelNonce
    ensures s.cancelledThrough[i] <= Get(s.generations, i)
  {
    hide Table.Valid, AppliedOk, DrainingOk, LedgersOk, RepliesOk;
  }

  /** A cancelled instance is reopened by exactly two commands: an activation above the
      generation recorded at the cancellation, or a rollback that bears the cancellation's
      own token and generation. */
  lemma ReopenedExactly(s: State, c: Command, i: Instance)
    requires Inv(s) && Enabled(s, c) && i in s.cancelledThrough
    ensures i !in Step(s, c).cancelledThrough <==> Reopens(c, i, s.cancelledThrough[i], s.cancelTokens[i])
  {
    MarksFacts(s, i);
    hide Inv;
    match c {
      case Cancel(instances) =>
        hide Step;
        CancelMarks(s, instances);
        CancelledEachMarks(s, instances, i);
      case Activate(_) =>
      case Restore(_, _) =>
      case _ =>
        hide Step;
        StepMarks(s, c);
    }
  }

  /** Tokens and recorded generations of an instance that stays cancelled never go down, and
      a new cancellation gets a token above every earlier one. */
  lemma MarksGrow(s: State, c: Command, i: Instance)
    requires Inv(s) && Enabled(s, c) && i in s.cancelledThrough && i in Step(s, c).cancelledThrough
    ensures Inv(Step(s, c)) && i in Step(s, c).cancelTokens
    ensures var u := Step(s, c);
            && u.cancelledThrough[i] >= s.cancelledThrough[i]
            && u.cancelTokens[i] >= s.cancelTokens[i]
            && (c.Cancel? && i in c.instances ==> u.cancelTokens[i] > s.cancelNonce)
            && (!(c.Cancel? && i in c.instances) ==>
                  u.cancelledThrough[i] == s.cancelledThrough[i] && u.cancelTokens[i] == s.cancelTokens[i])
  {
    MarksFacts(s, i);
    StepInv(s, c);
    MarksFacts(Step(s, c), i);
    hide Inv;
    match c {
      case Cancel(instances) =>
        hide Step;
        CancelMarks(s, instances);
        CancelledEachMarks(s, instances, i);
      case Activate(_) =>
      case Restore(_, _) =>
      case _ =>
        hide Step;
        StepMarks(s, c);
    }
  }

  lemma SubmittedMarks(s: State, intent: Intent)
    ensures var u := Submitted(s, intent);
            && u.cancelledThrough == s.cancelledThrough
            && u.cancelTokens == s.cancelTokens && u.cancelNonce == s.cancelNonce
  {}

  // ---- Whole runs ----

  /** Jobs of instance i allocated since the table had n jobs. */
  ghost predicate NoNewJobs(t: Table, n: nat, i: Instance) {
    forall j | n <= j < |t.jobs| :: t.jobs[j].key.instance != i
  }

  lemma SubmitAllocates(s: State, intent: Intent)
    ensures var u := Submitted(s, intent).table;
            && |u.jobs| == |s.table.jobs| + (if ReplyTo(s, intent).Accepted? then 1 else 0)
            && (ReplyTo(s, intent).Accepted? ==> u.jobs[|s.table.jobs|].key.instance == intent.instance)
  {}

  lemma StepAllocates(s: State, c: Command)
    requires Enabled(s, c)
    ensures var n, u := |s.table.jobs|, Step(s, c).table;
            && n <= |u.jobs|
            && (n < |u.jobs| ==>
                  && c.Submit? && ReplyTo(s, c.intent).Accepted? && |u.jobs| == n + 1
                  && u.jobs[n].key.instance == c.intent.instance)
  {
    match c
    case Submit(intent) => SubmitAllocates(s, intent);
    case Cancel(instances) => CancelAllocatesNothing(s, instances);
    case _ =>
  }

  lemma CancelAllocatesNothing(s: State, instances: seq<Instance>)
    ensures |CancelledEach(s, instances).table.jobs| == |s.table.jobs|
    decreases |instances|
  {
    if instances != [] {
      CancelAllocatesNothing(s, instances[..|instances| - 1]);
      CancelInstanceJobs(CancelledEach(s, instances[..|instances| - 1]).table, instances[|instances| - 1]);
    }
  }

  /** No command of the run reopens i, by the marks i bears when the command comes. */
  predicate NoReopening(s: State, cs: seq<Command>, i: Instance)
    requires Admissible(s, cs)
    decreases |cs|
  {
    || cs == []
    || (&& i in s.cancelledThrough && i in s.cancelTokens
        && !Reopens(cs[0], i, s.cancelledThrough[i], s.cancelTokens[i])
        && NoReopening(Step(s, cs[0]), cs[1..], i))
  }

  /** The instance is cancelled in every state of the run. */
  predicate CancelledThroughout(s: State, cs: seq<Command>, i: Instance)
    requires Admissible(s, cs)
    decreases |cs|
  {
    i in s.cancelledThrough && (cs == [] || CancelledThroughout(Step(s, cs[0]), cs[1..], i))
  }

  lemma StaysCancelled(s: State, c: Command, i: Instance)
    requires Inv(s) && Enabled(s, c) && i in s.cancelledThrough
    requires !Reopens(c, i, s.cancelledThrough[i], s.cancelTokens[i])
    ensures var u := Step(s, c);
            && Inv(u) && i in u.cancelledThrough && i in u.cancelTokens
            && u.cancelledThrough[i] >= s.cancelledThrough[i] && u.cancelTokens[i] >= s.cancelTokens[i]
            && |s.table.jobs| <= |u.table.jobs| && NoNewJobs(u.table, |s.table.jobs|, i)
  {
    ReopenedExactly(s, c, i);
    MarksGrow(s, c, i);
    StepAllocates(s, c);
    var reply := if c.Submit? then Some(ReplyTo(s, c.intent)) else None;
    assert reply.Some? && reply.value.Accepted? ==> c.intent.instance != i by { AllRejected(s, i); }
    hide Step, Reopens, Inv, ReplyTo;
  }

  /** Over every run: a cancelled instance is cancelled throughout if and only if no command
      of the run reopens it. */
  lemma {:induction false} CancelledThroughoutIff(s: State, cs: seq<Command>, i: Instance)
    requires Inv(s) && Admissible(s, cs) && i in s.cancelledThrough
    ensures CancelledThroughout(s, cs, i) <==> NoReopening(s, cs, i)
    decreases |cs|
  {
    if cs != [] {
      var u := Step(s, cs[0]);
      StepInv(s, cs[0]);
      ReopenedExactly(s, cs[0], i);
      if i in u.cancelledThrough { CancelledThroughoutIff(u, cs[1..], i); }
    }
  }

  /** Once cancelled, an instance accepts no submission and gets no new job until a command
      reopens it. */
  lemma {:induction false} CancelledUntilReopened(s: State, cs: seq<Command>, i: Instance)
    requires Inv(s) && Admissible(s, cs) && i in s.cancelledThrough && NoReopening(s, cs, i)
    ensures var u := Exec(s, cs);
            && i in u.cancelledThrough && Get(u.cancelTokens, i) >= s.cancelTokens[i]
            && |s.table.jobs| <= |u.table.jobs| && NoNewJobs(u.table, |s.table.jobs|, i)
            && (forall intent: Intent | intent.instance == i :: ReplyTo(u, intent).Rejected?)
    decreases |cs|
  {
    if cs == [] {
      AllRejected(s, i);
    } else {
      var u := Step(s, cs[0]);
      StaysCancelled(s, cs[0], i);
      CancelledUntilReopened(u, cs[1..], i);
      NoNewJobsJoin(s, u, cs[1..], i);
    }
  }

  /** Every activation of the run is at or below g, every rollback bears a token before k. */
  ghost predicate OnlyStale(cs: seq<Command>, i: Instance, g: Generation, k: nat) {
    forall n | 0 <= n < |cs| ::
      && !(cs[n].Activate? && i in cs[n].generations && cs[n].generations[i] > g)
      && !(cs[n].Restore? && i in cs[n].generations && Get(cs[n].tokens, i) >= k)
  }

  /** Such commands come too late: they never reopen an instance cancelled through g under k,
      whatever further cancellations the run holds. */
  lemma {:induction false} StaleNeverReopens(s: State, cs: seq<Command>, i: Instance)
    requires Inv(s) && Admissible(s, cs) && i in s.cancelledThrough
    requires OnlyStale(cs, i, s.cancelledThrough[i], s.cancelTokens[i])
    ensures NoReopening(s, cs, i)
    decreases |cs|
  {
    if cs != [] {
      assert !Reopens(cs[0], i, s.cancelledThrough[i], s.cancelTokens[i]);
      StaysCancelled(s, cs[0], i);
      var u := Step(s, cs[0]);
      assert OnlyStale(cs[1..], i, u.cancelledThrough[i], u.cancelTokens[i]);
      StaleNeverReopens(u, cs[1..], i);
    }
  }

  lemma NoNewJobsJoin(s: State, u: State, cs: seq<Command>, i: Instance)
    requires Inv(u) && Admissible(u, cs)
    requires |s.table.jobs| <= |u.table.jobs| && NoNewJobs(u.table, |s.table.jobs|, i)
    requires NoNewJobs(Exec(u, cs).table, |u.table.jobs|, i)
    ensures |s.table.jobs| <= |Exec(u, cs).table.jobs| && NoNewJobs(Exec(u, cs).table, |s.table.jobs|, i)
  {
    ExecKeepsKeys(u, cs);
  }

  lemma AllRejected(s: State, i: Instance)
    requires Inv(s) && i in s.cancelledThrough
    ensures forall intent: Intent | intent.instance == i :: ReplyTo(s, intent).Rejected?
  {
    forall intent: Intent | intent.instance == i ensures ReplyTo(s, intent).Rejected? {
      var k := KeyFor(s, intent);
      if k in s.table.inflight { assert s.table.InFlight(s.table.inflight[k]); }
    }
  }

  lemma {:induction false} ExecKeepsKeys(s: State, cs: seq<Command>)
    requires Inv(s) && Admissible(s, cs)
    ensures var u := Exec(s, cs);
            |s.table.jobs| <= |u.table.jobs| &&
            forall j: nat | j < |s.table.jobs| :: u.table.jobs[j].key == s.table.jobs[j].key
    decreases |cs|
  {
    if cs != [] {
      StepInv(s, cs[0]);
      StepOlder(s, cs[0]);
      ExecKeepsKeys(Step(s, cs[0]), cs[1..]);
    }
  }

  /** The cancellation's own rollback undoes it: the instance accepts again, provided the
      coordinator is not draining. */
  lemma OwnRollbackReopens(s: State, i: Instance, intent: Intent)
    requires Inv(s) && s.accepting && i in s.cancelledThrough
    requires intent.instance == i && intent.source.FormalSource?
    ensures var w := Restored(s, map[i := s.cancelledThrough[i]], map[i := s.cancelTokens[i]]);
            i !in w.cancelledThrough && ReplyTo(w, intent).Accepted?
  {
    var gs, ts := map[i := s.cancelledThrough[i]], map[i := s.cancelTokens[i]];
    assert RestoreMatches(s, i, gs, ts);
    AllRejected(s, i);
    assert KeyFor(Restored(s, gs, ts), intent) == KeyFor(s, intent);
  }
}
