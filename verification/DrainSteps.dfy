/** A drain works off the queues one job at a time and then marks what is left in flight,
    in whatever order the maps yield. Whatever the order, the result is the same. */
module DrainSteps {
  import opened Basics
  import opened JobTable
  import opened CoordinatorSpec
  import opened CoordinatorDrains

  // ---- Queued jobs leave one after the other ----

  function DropJobs(t: Table, q: seq<nat>): (u: Table)
    ensures |u.jobs| == |t.jobs|
  {
    t.(inflight := map k | k in t.inflight && t.inflight[k] !in q :: t.inflight[k],
       jobs := seq(|t.jobs|, j requires 0 <= j < |t.jobs| =>
         if j in q then t.jobs[j].(future := t.jobs[j].future.Complete(Cancelled)) else t.jobs[j]))
  }

  function DropJob(t: Table, j: nat): Table
    requires j < |t.jobs|
  {
    var job := t.jobs[j];
    t.(inflight := if job.key in t.inflight && t.inflight[job.key] == j then t.inflight - {job.key} else t.inflight,
       jobs := t.jobs[j := job.(future := job.future.Complete(Cancelled))])
  }

  lemma DropNoJobs(t: Table)
    ensures DropJobs(t, []) == t
  {
    assert DropJobs(t, []).inflight == t.inflight;
    assert DropJobs(t, []).jobs == t.jobs;
  }

  lemma DropJobsAdd(t: Table, q: seq<nat>, j: nat)
    requires t.KeysMatch() && j < |t.jobs|
    ensures DropJobs(t, q + [j]) == DropJob(DropJobs(t, q), j)
  {
    var u, w := DropJobs(t, q + [j]), DropJob(DropJobs(t, q), j);
    assert u.inflight == w.inflight;
    assert u.jobs == w.jobs;
  }

  ghost predicate Distinct(q: seq<nat>) {
    forall a, b | 0 <= a < b < |q| :: q[a] != q[b]
  }

  lemma {:induction false} DistinctCount(q: seq<nat>, s: set<nat>)
    requires Distinct(q) && forall j: nat :: j in q <==> j in s
    ensures |q| == |s|
    decreases |q|
  {
    if q == [] {
      assert s == {};
    } else {
      var x := q[|q| - 1];
      assert x in q;
      forall j: nat ensures j in q[..|q| - 1] <==> j in s - {x} {
        if j in q { var a :| 0 <= a < |q| && q[a] == j; assert j == x || q[..|q| - 1][a] == j; }
      }
      DistinctCount(q[..|q| - 1], s - {x});
    }
  }

  /** Exactly the queues outside `todo` have been worked off, each job once. */
  ghost predicate Flushed(t: Table, todo: set<Instance>, xs: seq<nat>) {
    Distinct(xs) && forall j: nat :: j in xs <==> t.Queued(j) && t.jobs[j].key.instance !in todo
  }

  lemma FlushedAdd(t: Table, todo: set<Instance>, i: Instance, xs: seq<nat>)
    requires t.QueuesMatch() && t.QueuesDistinct() && Flushed(t, todo, xs) && i in todo && i in t.queue
    ensures Flushed(t, todo - {i}, xs + t.queue[i])
  {
    var q := t.queue[i];
    forall j | j in q ensures t.Queued(j) && t.jobs[j].key.instance == i {
      var a :| 0 <= a < |q| && q[a] == j;
      assert t.queue[i][a] == j;
    }
    forall a, b | 0 <= a < b < |xs + q| ensures (xs + q)[a] != (xs + q)[b] {
      if a < |xs| <= b { assert q[b - |xs|] in q; assert xs[a] in xs; }
    }
  }

  // ---- What is left in flight is marked ----

  function MarkJobs(t: Table, keys: set<OperationKey>): seq<Job> {
    seq(|t.jobs|, j requires 0 <= j < |t.jobs| =>
      if t.InFlight(j) && t.jobs[j].key in keys then t.jobs[j].(invalidated := true) else t.jobs[j])
  }

  lemma MarkNoJobs(t: Table)
    ensures MarkJobs(t, {}) == t.jobs
  {}

  lemma MarkJobsAdd(t: Table, keys: set<OperationKey>, k: OperationKey)
    requires t.KeysMatch() && k in t.inflight
    ensures var u, j := MarkJobs(t, keys), t.inflight[k];
            && j < |u| == |t.jobs| && u[j].started == t.jobs[j].started
            && MarkJobs(t, keys + {k}) == u[j := u[j].(invalidated := true)]
  {}

  // ---- Together ----

  lemma DroppedFlights(t: Table, xs: seq<nat>)
    requires t.Valid() && Flushed(t, {}, xs)
    ensures var u := DropJobs(t, xs).(queue := map[]);
            u.KeysMatch() && (forall j: nat :: u.InFlight(j) <==> t.Holds(j))
            && (forall k | k in u.inflight :: u.jobs[u.inflight[k]].started)
  {
    var u := DropJobs(t, xs).(queue := map[]);
    forall j: nat ensures u.InFlight(j) <==> t.Holds(j) { InFlightSplit(t, j); }
    forall k | k in u.inflight ensures u.jobs[u.inflight[k]].started {
      InFlightSplit(t, u.inflight[k]);
    }
  }

  lemma DroppedCounts(t: Table, xs: seq<nat>)
    requires t.Valid() && Flushed(t, {}, xs)
    ensures |xs| == |QueuedJobs(t)| && |DropJobs(t, xs).inflight| == |LeasedJobs(t)|
  {
    DroppedFlights(t, xs);
    DistinctCount(xs, QueuedJobs(t));
    var u := DropJobs(t, xs).(queue := map[]);
    forall k | k in u.inflight ensures u.inflight[k] in LeasedJobs(t) { assert u.InFlight(u.inflight[k]); }
    KeysAndJobs(u, u.inflight.Keys, LeasedJobs(t));
  }

  /** Dropping the queued jobs and marking the rest is the drain's effect on the table. */
  lemma FlushAllSteps(t: Table, xs: seq<nat>)
    requires t.Valid() && Flushed(t, {}, xs)
    ensures var u := DropJobs(t, xs).(queue := map[]); FlushAll(t) == u.(jobs := MarkJobs(u, u.inflight.Keys))
  {
    DroppedFlights(t, xs);
    var u := DropJobs(t, xs).(queue := map[]);
    var v, w := MarkJobs(u, u.inflight.Keys), FlushAll(t);
    assert u.inflight == w.inflight;
    forall j: nat | j < |t.jobs| ensures v[j] == w.jobs[j] { InFlightSplit(t, j); }
    assert v == w.jobs;
  }
}
