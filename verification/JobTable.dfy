/** The part of the coordinator's loop state that says where every job is: the map of
    operations in flight, the per-instance leases and the per-instance queues.

    The program identifies a job by its address. Here a job's identity is its index in
    `jobs`, the sequence of all jobs ever allocated, so a later job that reuses an
    operation key is a different job. */
module JobTable {
  import opened Basics

  type Generation = nat

  datatype OperationClass =
    | LegacyRefresh
    | QuotaRead
    | ProbePrecheck
    | ProbeVerify
    | ProbeSequence
    | ProbeSend

  datatype ExecutionToken = ExecutionToken(instance: Instance, admission: nat, tier: Generation, fence: nat)

  /** The formal sources other than the legacy envelope are treated alike by the program. */
  datatype Source = LegacyEnvelope | FormalSource | UnknownSource

  datatype Intent = Intent(
    instance: Instance,
    generation: Generation,
    class_: OperationClass,
    source: Source,
    startedAfter: nat,
    attempt: string,
    token: ExecutionToken)

  datatype OperationKey = OperationKey(
    instance: Instance,
    class_: OperationClass,
    generation: Generation,
    attempt: string,
    nonce: nat)

  datatype Disposition = Applied | DiscardedStale | Cancelled

  datatype Future = Unfinished | Finished(how: Disposition) {
    /** Completion goes through a once guard: only the first completion takes effect. */
    function Complete(d: Disposition): Future {
      if Unfinished? then Finished(d) else this
    }
  }

  datatype Job = Job(
    key: OperationKey,
    intent: Intent,
    future: Future,
    started: bool,
    expired: bool,
    invalidated: bool,
    probeSent: bool)

  datatype Table = Table(
    inflight: map<OperationKey, nat>,
    leases: map<Instance, nat>,
    queue: map<Instance, seq<nat>>,
    jobs: seq<Job>)
  {
    predicate InFlight(j: nat) {
      j < |jobs| && jobs[j].key in inflight && inflight[jobs[j].key] == j
    }

    function QueueOf(i: Instance): seq<nat> {
      if i in queue then queue[i] else []
    }

    predicate Queued(j: nat) {
      j < |jobs| && j in QueueOf(jobs[j].key.instance)
    }

    predicate Holds(j: nat) {
      j < |jobs| && jobs[j].key.instance in leases && leases[jobs[j].key.instance] == j
    }

    /** The keys in flight name jobs with that very key. */
    ghost predicate KeysMatch() {
      forall k | k in inflight :: inflight[k] < |jobs| && jobs[inflight[k]].key == k
    }

    ghost predicate LeasesMatch() {
      forall i | i in leases ::
        InFlight(leases[i]) && jobs[leases[i]].key.instance == i && jobs[leases[i]].started
    }

    ghost predicate QueuesMatch() {
      forall i, a | i in queue && 0 <= a < |queue[i]| ::
        var j := queue[i][a];
        InFlight(j) && jobs[j].key.instance == i && !jobs[j].started && !jobs[j].invalidated
    }

    ghost predicate QueuesDistinct() {
      forall i, a, b | i in queue && 0 <= a < b < |queue[i]| :: queue[i][a] != queue[i][b]
    }

    /** A started job in flight holds its instance's lease; any other one is queued. */
    ghost predicate Placed() {
      forall j: nat | InFlight(j) ::
        && (jobs[j].started ==> Holds(j))
        && (!jobs[j].started ==> Queued(j))
        && !jobs[j].expired
    }

    ghost predicate FuturesMatch() {
      forall j: nat | j < |jobs| :: jobs[j].future.Unfinished? <==> InFlight(j)
    }

    ghost predicate Valid() {
      KeysMatch() && LeasesMatch() && QueuesMatch() && QueuesDistinct() && Placed() && FuturesMatch()
    }
  }

  const Empty := Table(map[], map[], map[], [])

  // ---- The changes the loop makes ----

  /** Allocate a job, put it in flight and at the end of its instance's queue. */
  function Enqueue(t: Table, job: Job): Table {
    var j := |t.jobs|;
    t.(inflight := t.inflight[job.key := j],
       queue := t.queue[job.key.instance := t.QueueOf(job.key.instance) + [j]],
       jobs := t.jobs + [job])
  }

  /** Take the head of an instance's queue and give it the lease. */
  function StartHead(t: Table, i: Instance): Table
    requires |t.QueueOf(i)| > 0 && t.QueueOf(i)[0] < |t.jobs|
  {
    var j := t.QueueOf(i)[0];
    t.(leases := t.leases[i := j],
       queue := t.queue[i := t.QueueOf(i)[1..]],
       jobs := t.jobs[j := t.jobs[j].(started := true)])
  }

  /** Take a job out of flight, release its lease if it has one, finish its future. */
  function Retire(t: Table, j: nat, how: Disposition, expire: bool := false, invalidate: bool := false): Table
    requires j < |t.jobs|
  {
    var job := t.jobs[j];
    t.(inflight := t.inflight - {job.key},
       leases := if t.Holds(j) then t.leases - {job.key.instance} else t.leases,
       jobs := t.jobs[j := job.(future := job.future.Complete(how),
                                expired := job.expired || expire,
                                invalidated := job.invalidated || invalidate)])
  }

  /** Cancel the given jobs: out of flight, marked invalid, futures finished. */
  function CancelJobs(t: Table, q: seq<nat>): Table {
    t.(inflight := map k | k in t.inflight && t.inflight[k] !in q :: t.inflight[k],
       jobs := seq(|t.jobs|, j requires 0 <= j < |t.jobs| =>
         if j in q then t.jobs[j].(invalidated := true, future := t.jobs[j].future.Complete(Cancelled)) else t.jobs[j]))
  }

  /** Cancel every queued job of one instance and drop its queue. */
  function FlushQueue(t: Table, i: Instance): Table {
    CancelJobs(t, t.QueueOf(i)).(queue := t.queue - {i})
  }

  /** Take every job of one instance out of flight. */
  function CancelInstance(t: Table, i: Instance): Table {
    var u := FlushQueue(t, i);
    if i in u.leases && u.leases[i] < |u.jobs| then Retire(u, u.leases[i], Cancelled, false, true) else u
  }

  /** Cancel every queued job and mark every other job in flight invalid. */
  function FlushAll(t: Table): Table {
    t.(inflight := map k | k in t.inflight && !t.Queued(t.inflight[k]) :: t.inflight[k],
       queue := map[],
       jobs := seq(|t.jobs|, j requires 0 <= j < |t.jobs| =>
         if t.Queued(j) then t.jobs[j].(future := t.jobs[j].future.Complete(Cancelled))
         else if t.InFlight(j) then t.jobs[j].(invalidated := true)
         else t.jobs[j]))
  }

  // ---- Each change keeps the table valid ----

  lemma EnqueueInFlight(t: Table, job: Job)
    requires t.Valid() && job.key !in t.inflight
    ensures Enqueue(t, job).InFlight(|t.jobs|)
    ensures forall j: nat | j < |t.jobs| :: Enqueue(t, job).InFlight(j) <==> t.InFlight(j)
    ensures Enqueue(t, job).KeysMatch()
  {}

  lemma EnqueueQueues(t: Table, job: Job)
    requires t.Valid() && job.key !in t.inflight && !job.started && !job.invalidated
    ensures Enqueue(t, job).QueuesMatch() && Enqueue(t, job).QueuesDistinct()
  {
    var u := Enqueue(t, job);
    EnqueueInFlight(t, job);
    hide Table.Placed, Table.FuturesMatch, Table.LeasesMatch;
    forall i, a | i in u.queue && 0 <= a < |u.queue[i]|
      ensures var j := u.queue[i][a];
              u.InFlight(j) && u.jobs[j].key.instance == i && !u.jobs[j].started && !u.jobs[j].invalidated
      ensures a < |t.QueueOf(i)| ==> u.queue[i][a] == t.QueueOf(i)[a] < |t.jobs|
    {
      if a < |t.QueueOf(i)| { assert u.queue[i][a] == t.queue[i][a]; }
    }
  }

  lemma EnqueueValid(t: Table, job: Job)
    requires t.Valid() && job.key !in t.inflight
    requires job.future.Unfinished? && !job.started && !job.expired && !job.invalidated
    ensures Enqueue(t, job).Valid()
    ensures Enqueue(t, job).InFlight(|t.jobs|)
    ensures forall j: nat | j < |t.jobs| :: Enqueue(t, job).InFlight(j) <==> t.InFlight(j)
  {
    var u := Enqueue(t, job);
    EnqueueInFlight(t, job);
    EnqueueQueues(t, job);
    forall j: nat | u.InFlight(j)
      ensures (u.jobs[j].started ==> u.Holds(j)) && (!u.jobs[j].started ==> u.Queued(j)) && !u.jobs[j].expired
    {
      if j < |t.jobs| {
        assert t.InFlight(j);
      } else {
        assert u.queue[job.key.instance][|t.QueueOf(job.key.instance)|] == j;
      }
    }
  }

  lemma StartHeadInFlight(t: Table, i: Instance)
    requires t.Valid() && i !in t.leases && |t.QueueOf(i)| > 0
    ensures t.QueueOf(i)[0] < |t.jobs|
    ensures forall j: nat | j < |t.jobs| :: StartHead(t, i).jobs[j].key == t.jobs[j].key
    ensures forall j: nat | j < |t.jobs| :: StartHead(t, i).InFlight(j) <==> t.InFlight(j)
    ensures StartHead(t, i).KeysMatch() && StartHead(t, i).FuturesMatch()
  {
    assert t.queue[i][0] == t.QueueOf(i)[0];
  }

  lemma StartHeadQueues(t: Table, i: Instance)
    requires t.Valid() && i !in t.leases && |t.QueueOf(i)| > 0
    ensures t.QueueOf(i)[0] < |t.jobs|
    ensures StartHead(t, i).QueuesMatch() && StartHead(t, i).QueuesDistinct()
  {
    StartHeadInFlight(t, i);
    var h := t.queue[i][0];
    var u := StartHead(t, i);
    forall x, a | x in u.queue && 0 <= a < |u.queue[x]|
      ensures u.queue[x][a] == t.queue[x][if x == i then a + 1 else a] != h
      ensures var j := u.queue[x][a];
              u.InFlight(j) && u.jobs[j].key.instance == x && !u.jobs[j].started && !u.jobs[j].invalidated
    {
      var b := if x == i then a + 1 else a;
      assert t.InFlight(t.queue[x][b]) && t.jobs[t.queue[x][b]].key.instance == x;
    }
  }

  lemma StartHeadValid(t: Table, i: Instance)
    requires t.Valid() && i !in t.leases && |t.QueueOf(i)| > 0
    ensures t.QueueOf(i)[0] < |t.jobs|
    ensures StartHead(t, i).Valid()
    ensures forall j: nat | j < |t.jobs| :: StartHead(t, i).InFlight(j) <==> t.InFlight(j)
  {
    StartHeadInFlight(t, i);
    StartHeadQueues(t, i);
    var h := t.queue[i][0];
    var u := StartHead(t, i);
    forall j: nat | u.InFlight(j)
      ensures (u.jobs[j].started ==> u.Holds(j)) && (!u.jobs[j].started ==> u.Queued(j)) && !u.jobs[j].expired
    {
      assert t.InFlight(j);
      if j != h && !t.jobs[j].started && t.jobs[j].key.instance == i {
        var a :| 0 <= a < |t.queue[i]| && t.queue[i][a] == j;
        assert u.queue[i][a - 1] == j;
      }
    }
  }

  lemma RetireValid(t: Table, j: nat, how: Disposition, expire: bool, invalidate: bool)
    requires t.Valid() && t.Holds(j)
    ensures Retire(t, j, how, expire, invalidate).Valid()
    ensures forall x: nat | x < |t.jobs| ::
      Retire(t, j, how, expire, invalidate).InFlight(x) <==> t.InFlight(x) && x != j
  {
    var u := Retire(t, j, how, expire, invalidate);
    forall x: nat | x < |t.jobs|
      ensures u.jobs[x].key == t.jobs[x].key && (u.InFlight(x) <==> t.InFlight(x) && x != j)
    {}
    forall x: nat | u.InFlight(x)
      ensures (u.jobs[x].started ==> u.Holds(x)) && (!u.jobs[x].started ==> u.Queued(x)) && !u.jobs[x].expired
    {
      assert t.InFlight(x);
    }
  }

  lemma FlushQueueFlights(t: Table, i: Instance)
    requires t.KeysMatch()
    ensures var u := FlushQueue(t, i);
            && |u.jobs| == |t.jobs| && u.KeysMatch()
            && (forall j: nat | j < |t.jobs| :: u.jobs[j].key == t.jobs[j].key)
            && (forall j: nat | j < |t.jobs| :: u.InFlight(j) <==> t.InFlight(j) && j !in t.QueueOf(i))
  {
    var u, q := FlushQueue(t, i), t.QueueOf(i);
    forall j: nat | j < |t.jobs|
      ensures u.jobs[j].key == t.jobs[j].key && (u.InFlight(j) <==> t.InFlight(j) && j !in q)
    {}
  }

  lemma FlushQueueQueues(t: Table, i: Instance)
    requires t.Valid()
    ensures FlushQueue(t, i).QueuesMatch() && FlushQueue(t, i).QueuesDistinct()
  {
    var u := FlushQueue(t, i);
    FlushQueueFlights(t, i);
    forall x, a | x in u.queue && 0 <= a < |u.queue[x]|
      ensures var j := u.queue[x][a];
              u.InFlight(j) && u.jobs[j].key.instance == x && !u.jobs[j].started && !u.jobs[j].invalidated
    {
      assert t.queue[x][a] == u.queue[x][a];
    }
  }

  lemma FlushQueueLeases(t: Table, i: Instance)
    requires t.Valid()
    ensures FlushQueue(t, i).LeasesMatch()
  {
    var u := FlushQueue(t, i);
    FlushQueueFlights(t, i);
    forall x | x in u.leases
      ensures u.InFlight(u.leases[x]) && u.jobs[u.leases[x]].key.instance == x && u.jobs[u.leases[x]].started
    {
      assert t.jobs[t.leases[x]].started;
    }
  }

  lemma FlushQueueJob(t: Table, i: Instance, x: nat)
    requires t.Valid() && t.InFlight(x) && x !in t.QueueOf(i)
    ensures var u := FlushQueue(t, i);
            && |u.jobs| == |t.jobs| && u.jobs[x] == t.jobs[x] && !t.jobs[x].expired
            && (t.jobs[x].started ==> u.Holds(x)) && (!t.jobs[x].started ==> u.Queued(x))
  {
    hide Table.QueuesMatch, Table.QueuesDistinct, Table.LeasesMatch, Table.KeysMatch, Table.FuturesMatch;
  }

  lemma FlushQueuePlaced(t: Table, i: Instance)
    requires t.Valid()
    ensures FlushQueue(t, i).Placed()
  {
    var u := FlushQueue(t, i);
    FlushQueueFlights(t, i);
    hide FlushQueue, Table.QueueOf;
    forall x: nat | u.InFlight(x)
      ensures (u.jobs[x].started ==> u.Holds(x)) && (!u.jobs[x].started ==> u.Queued(x)) && !u.jobs[x].expired
    {
      FlushQueueJob(t, i, x);
    }
  }

  lemma FlushQueueFutures(t: Table, i: Instance)
    requires t.Valid()
    ensures FlushQueue(t, i).FuturesMatch()
  {
    FlushQueueFlights(t, i);
    hide Table.QueuesMatch, Table.QueuesDistinct, Table.LeasesMatch, Table.Placed;
  }

  lemma FlushQueueValid(t: Table, i: Instance)
    requires t.Valid()
    ensures FlushQueue(t, i).Valid()
    ensures forall j: nat | j < |t.jobs| :: FlushQueue(t, i).InFlight(j) <==> t.InFlight(j) && j !in t.QueueOf(i)
  {
    FlushQueueFlights(t, i);
    FlushQueueQueues(t, i);
    FlushQueueLeases(t, i);
    FlushQueuePlaced(t, i);
    FlushQueueFutures(t, i);
    hide FlushQueue, Table.KeysMatch, Table.LeasesMatch, Table.QueuesMatch, Table.QueuesDistinct;
    hide Table.Placed, Table.FuturesMatch, Table.InFlight, Table.QueueOf;
  }

  lemma CancelInstanceValid(t: Table, i: Instance)
    requires t.Valid()
    ensures CancelInstance(t, i).Valid()
  {
    var u := FlushQueue(t, i);
    FlushQueueValid(t, i);
    if i in u.leases {
      RetireValid(u, u.leases[i], Cancelled, false, true);
    }
  }

  lemma CancelInstanceJobs(t: Table, i: Instance)
    ensures var u := CancelInstance(t, i);
            && |u.jobs| == |t.jobs|
            && u.queue == t.queue - {i}
            && (forall j: nat | j < |t.jobs| ::
                  u.jobs[j].key == t.jobs[j].key && (t.jobs[j].invalidated ==> u.jobs[j].invalidated))
  {}

  /** Cancelling an instance takes exactly its jobs out of flight. */
  lemma CancelInstanceFlights(t: Table, i: Instance, j: nat)
    requires t.Valid()
    ensures CancelInstance(t, i).InFlight(j) <==> t.InFlight(j) && t.jobs[j].key.instance != i
  {
    CancelInstanceJobs(t, i);
    if j < |t.jobs| {
      var u := FlushQueue(t, i);
      FlushQueueValid(t, i);
      FlushQueueFlights(t, i);
      assert u.leases == t.leases;
      if i in u.leases { RetireValid(u, u.leases[i], Cancelled, false, true); }
      InFlightSplit(t, j);
      if j in t.QueueOf(i) { QueuedInstance(t, i, j); }
      hide FlushQueue, Retire, Table.Valid;
    }
  }

  lemma QueuedInstance(t: Table, i: Instance, j: nat)
    requires t.Valid() && j in t.QueueOf(i)
    ensures j < |t.jobs| && t.jobs[j].key.instance == i
  {
    var a :| 0 <= a < |t.queue[i]| && t.queue[i][a] == j;
  }

  lemma FlushAllValid(t: Table)
    requires t.Valid()
    ensures FlushAll(t).Valid()
    ensures forall j: nat | j < |t.jobs| :: FlushAll(t).InFlight(j) <==> t.Holds(j)
    ensures forall j: nat | FlushAll(t).InFlight(j) :: FlushAll(t).jobs[j].invalidated
  {
    var u := FlushAll(t);
    forall j: nat | j < |t.jobs|
      ensures u.jobs[j].key == t.jobs[j].key && (u.InFlight(j) <==> t.InFlight(j) && !t.Queued(j))
      ensures u.InFlight(j) <==> t.Holds(j)
    {
      InFlightSplit(t, j);
    }
    forall x | x in u.leases
      ensures u.InFlight(u.leases[x]) && u.jobs[u.leases[x]].key.instance == x && u.jobs[u.leases[x]].started
    {
      assert t.Holds(t.leases[x]);
    }
    forall x: nat | u.InFlight(x)
      ensures (u.jobs[x].started ==> u.Holds(x)) && (!u.jobs[x].started ==> u.Queued(x)) && !u.jobs[x].expired
    {
      assert t.InFlight(x);
    }
  }

  // ---- What a valid table means ----

  /** A job is in flight exactly when it is queued or holds its lease, and never both. */
  lemma InFlightSplit(t: Table, j: nat)
    requires t.Valid()
    ensures t.InFlight(j) <==> t.Queued(j) || t.Holds(j)
    ensures !(t.Queued(j) && t.Holds(j))
  {
    if t.Queued(j) {
      var i := t.jobs[j].key.instance;
      var a :| 0 <= a < |t.queue[i]| && t.queue[i][a] == j;
    }
  }

  /** Two started jobs in flight for one instance are the same job. */
  lemma OneHolderPerInstance(t: Table, a: nat, b: nat)
    requires t.Valid() && t.InFlight(a) && t.InFlight(b)
    requires t.jobs[a].started && t.jobs[b].started
    requires t.jobs[a].key.instance == t.jobs[b].key.instance
    ensures a == b
  {
    assert t.Holds(a) && t.Holds(b);
  }
}
