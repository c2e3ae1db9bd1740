/** Reads nobody will perform. An entry whose submission was refused, whose queued job was
    dropped, or whose start sequence could not be allocated, is never marked done. Its future
    is completed at once, as cancelled or with the allocation's error; a request answered with
    such an entry gets that outcome of an earlier request instead of a read. */
module DeadReads {
  import opened Basics
  import opened TypedReads

  predicate Dead(s: State, e: nat) {
    e < |s.entries| && !s.entries[e].alive && !s.entries[e].done
  }

  /** The instance's list holds a dead entry of the class. */
  ghost predicate HoldsDead(s: State, i: Instance, c: ReadClass) {
    exists e :: e in ListOf(s, i) && Dead(s, e) && s.entries[e].class_ == c
  }

  /** A request that names no earlier point in time. */
  predicate Plain(r: Request, i: Instance, c: ReadClass) {
    r.instance == i && r.class_ == c && r.startedAfter == 0
  }

  /** The command does not clear i, refuse a request of i, or drop or fail to begin a read of i. */
  predicate SmoothFor(s: State, c: Command, i: Instance) {
    match c
    case Ask(r, accepted) => r.instance == i ==> accepted
    case Begin(e, _, fails) => e in ListOf(s, i) ==> !fails
    case Drop(e) => e !in ListOf(s, i)
    case Clear(instances) => i !in instances
    case _ => true
  }

  predicate SmoothRun(s: State, cs: seq<Command>, i: Instance)
    requires Admissible(s, cs)
    decreases |cs|
  {
    cs == [] || (SmoothFor(s, cs[0], i) && SmoothRun(Step(s, cs[0]), cs[1..], i))
  }

  // ---- Every entry is at home in one list ----

  ghost predicate Homes(s: State) {
    && (forall e | 0 <= e < |s.entries| && !s.entries[e].alive :: s.entries[e].seq_ == 0)
    && (forall i, e | e in ListOf(s, i) :: e < |s.entries|)
    && (forall i, k, e | e in ListOf(s, i) && e in ListOf(s, k) :: i == k)
  }

  lemma AskedHomes(s: State, r: Request, accepted: bool)
    requires Homes(s)
    ensures Homes(Asked(s, r, accepted))
  {
    var u := Asked(s, r, accepted);
    UnfinishedOpen(s, ListOf(s, r.instance));
    var list := Unfinished(s, ListOf(s, r.instance));
    assert Answer(s, r) <= |s.entries|;
    forall i, e | e in ListOf(u, i)
      ensures e < |u.entries| && (e in ListOf(s, i) || (i == r.instance && e == |s.entries|))
    {
      if i == r.instance {
        var n :| 0 <= n < |ListOf(u, i)| && ListOf(u, i)[n] == e;
        if n < |list| { assert list[n] == e && Open(s, list[n]); }
      } else {
        assert ListOf(u, i) == ListOf(s, i);
      }
    }
  }

  lemma StepHomes(s: State, c: Command)
    requires Homes(s) && Enabled(s, c)
    ensures Homes(Step(s, c))
  {
    if c.Ask? {
      AskedHomes(s, c.request, c.accepted);
    } else {
      var u := Step(s, c);
      forall i, e | e in ListOf(u, i) ensures e in ListOf(s, i) {}
    }
  }

  lemma {:induction false} ExecHomes(s: State, cs: seq<Command>)
    requires Homes(s) && Admissible(s, cs)
    ensures Homes(Exec(s, cs))
    decreases |cs|
  {
    if cs != [] {
      StepHomes(s, cs[0]);
      ExecHomes(Step(s, cs[0]), cs[1..]);
    }
  }

  // ---- In a smooth run no entry dies ----

  lemma SmoothStep(s: State, c: Command, i: Instance, e: nat)
    requires Homes(s) && Enabled(s, c) && SmoothFor(s, c, i) && e in ListOf(Step(s, c), i) && Dead(Step(s, c), e)
    ensures e in ListOf(s, i) && Dead(s, e) && Step(s, c).entries[e].class_ == s.entries[e].class_
  {
    if c.Ask? { UnfinishedOpen(s, ListOf(s, c.request.instance)); }
  }

  lemma {:induction false} SmoothKeeps(s: State, cs: seq<Command>, i: Instance, e: nat)
    requires Homes(s) && Admissible(s, cs) && SmoothRun(s, cs, i) && e in ListOf(Exec(s, cs), i) && Dead(Exec(s, cs), e)
    ensures e in ListOf(s, i) && Dead(s, e) && Exec(s, cs).entries[e].class_ == s.entries[e].class_
    decreases |cs|
  {
    if cs != [] {
      StepHomes(s, cs[0]);
      SmoothKeeps(Step(s, cs[0]), cs[1..], i, e);
      SmoothStep(s, cs[0], i, e);
    }
  }

  // ---- A dead entry stays until its instance is cleared ----

  lemma DeadStaysAsked(s: State, r: Request, accepted: bool, i: Instance, e: nat)
    requires Homes(s) && e in ListOf(s, i) && Dead(s, e)
    ensures var u := Asked(s, r, accepted);
            e in ListOf(u, i) && Dead(u, e) && u.entries[e].class_ == s.entries[e].class_
  {
    UnfinishedOpen(s, ListOf(s, r.instance));
    hide FirstServing, Unfinished, Joinable, Homes;
  }

  lemma DeadStaysCleared(s: State, instances: set<Instance>, i: Instance, e: nat)
    requires Homes(s) && i !in instances && e in ListOf(s, i) && Dead(s, e)
    ensures var u := Cleared(s, instances);
            e in ListOf(u, i) && Dead(u, e) && u.entries[e].class_ == s.entries[e].class_
  {
    forall k | k in instances && k in s.lists ensures e !in s.lists[k] {
      assert ListOf(s, k) == s.lists[k];
    }
  }

  /** Clearing, after every run: the reads of the cleared instances are done, dead ones with
      them, and the next request for one opens a read; reads of the other instances are as
      they were, on the same lists. */
  lemma ClearedExactly(cs: seq<Command>, instances: set<Instance>, r: Request, i: Instance, e: nat)
    requires Admissible(Initial, cs) && e in ListOf(Exec(Initial, cs), i)
    ensures var s := Exec(Initial, cs);
            var u := Step(s, Clear(instances));
            && e < |s.entries| == |u.entries|
            && u.entries[e] == (if i in instances then s.entries[e].(done := true) else s.entries[e])
            && ListOf(u, i) == (if i in instances then [] else ListOf(s, i))
            && (r.instance in instances ==> Answer(u, r) == |u.entries|)
  {
    ExecHomes(Initial, cs);
    var s := Exec(Initial, cs);
    hide Exec, Admissible;
    forall k | k in instances && k in s.lists && e in s.lists[k] ensures k == i {
      assert ListOf(s, k) == s.lists[k];
    }
  }

  lemma DeadStaysStep(s: State, c: Command, i: Instance, e: nat)
    requires Homes(s) && Enabled(s, c) && (c.Clear? ==> i !in c.instances) && e in ListOf(s, i) && Dead(s, e)
    ensures e in ListOf(Step(s, c), i) && Dead(Step(s, c), e) && Step(s, c).entries[e].class_ == s.entries[e].class_
  {
    hide Asked, Cleared;
    match c
    case Ask(r, accepted) => DeadStaysAsked(s, r, accepted, i, e);
    case Clear(instances) => DeadStaysCleared(s, instances, i, e);
    case _ =>
  }

  lemma {:induction false} DeadStays(s: State, cs: seq<Command>, i: Instance, e: nat)
    requires Homes(s) && Admissible(s, cs) && e in ListOf(s, i) && Dead(s, e)
    requires forall n | 0 <= n < |cs| :: cs[n].Clear? ==> i !in cs[n].instances
    ensures e in ListOf(Exec(s, cs), i) && Dead(Exec(s, cs), e) && Exec(s, cs).entries[e].class_ == s.entries[e].class_
    decreases |cs|
  {
    if cs != [] {
      StepHomes(s, cs[0]);
      DeadStaysStep(s, cs[0], i, e);
      DeadStays(Step(s, cs[0]), cs[1..], i, e);
    }
  }

  lemma DeadServes(s: State, i: Instance, e: nat, r: Request)
    requires Homes(s) && e in ListOf(s, i) && Dead(s, e) && Plain(r, i, s.entries[e].class_)
    requires r.class_.ProbeVerify? ==> s.entries[e].attempt == "" || s.entries[e].attempt == r.attempt
    ensures var a := Answer(s, r);
            a < |s.entries| && a in ListOf(s, i) && !s.entries[a].done && Joinable(s.entries[a], r)
  {
    var list := Unfinished(s, ListOf(s, i));
    UnfinishedOpen(s, ListOf(s, i));
    assert e in list && Serves(s, r, e);
    var n := FirstServing(s, list, r);
    assert n < |list|;
    assert list[n] in list;
  }

  /** Once the list holds a dead entry of a class, and until the instance is cleared, no
      plain request of that class opens a read any more, whatever else happens. */
  lemma NoReadIsOpened(s: State, cs: seq<Command>, i: Instance, c: ReadClass, r: Request)
    requires Homes(s) && Admissible(s, cs) && HoldsDead(s, i, c) && Plain(r, i, c) && !c.ProbeVerify?
    requires forall n | 0 <= n < |cs| :: cs[n].Clear? ==> i !in cs[n].instances
    ensures Answer(Exec(s, cs), r) < |Exec(s, cs).entries|
  {
    var e :| e in ListOf(s, i) && Dead(s, e) && s.entries[e].class_ == c;
    DeadStays(s, cs, i, e);
    ExecHomes(s, cs);
    DeadServes(Exec(s, cs), i, e, r);
  }

  // ---- When a dead entry answers ----

  /** After the run the request is answered with a dead entry. */
  ghost predicate DeadAnswer(s: State, cs: seq<Command>, r: Request, i: Instance, c: ReadClass) {
    && Admissible(s, cs) && SmoothRun(s, cs, i) && Plain(r, i, c)
    && Dead(Exec(s, cs), Answer(Exec(s, cs), r))
  }

  lemma AnswerInList(s: State, r: Request)
    requires Answer(s, r) < |s.entries|
    ensures Answer(s, r) in ListOf(s, r.instance) && Joinable(s.entries[Answer(s, r)], r)
  {
    var list := Unfinished(s, ListOf(s, r.instance));
    UnfinishedOpen(s, ListOf(s, r.instance));
    var n := FirstServing(s, list, r);
    assert n < |list| ==> list[n] in list;
  }

  lemma DeadAnswerMeans(s: State, cs: seq<Command>, r: Request, i: Instance, c: ReadClass)
    requires Homes(s) && DeadAnswer(s, cs, r, i, c)
    ensures HoldsDead(s, i, c)
  {
    var u := Exec(s, cs);
    var e := Answer(u, r);
    ExecHomes(s, cs);
    AnswerInList(u, r);
    SmoothKeeps(s, cs, i, e);
  }

  lemma {:induction false} RunsJoin(s: State, a: seq<Command>, b: seq<Command>, i: Instance)
    requires Admissible(s, a) && SmoothRun(s, a, i) && Admissible(Exec(s, a), b) && SmoothRun(Exec(s, a), b, i)
    ensures Admissible(s, a + b) && SmoothRun(s, a + b, i) && Exec(s, a + b) == Exec(Exec(s, a), b)
    decreases |a|
  {
    hide Step, Enabled, SmoothFor;
    if a == [] {
      assert a + b == b;
    } else {
      assert (a + b)[0] == a[0] && (a + b)[1..] == a[1..] + b;
      RunsJoin(Step(s, a[0]), a[1..], b, i);
    }
  }

  /** A read that is alive may be begun and returned. */
  lemma FinishOne(s: State, i: Instance, e: nat) returns (cs: seq<Command>)
    requires e < |s.entries| && s.entries[e].alive
    ensures Admissible(s, cs) && SmoothRun(s, cs, i)
    ensures var u := Exec(s, cs);
            && u.lists == s.lists && |u.entries| == |s.entries| && u.entries[e].done && u.entries[e].alive
            && forall x | 0 <= x < |s.entries| && x != e :: u.entries[x] == s.entries[x]
  {
    var s1 := s;
    var back := [Return(e)];
    if s.entries[e].seq_ == 0 {
      s1 := Step(s, Begin(e, 0, false));
      cs := [Begin(e, 0, false)] + back;
      assert cs[1..] == back;
    } else {
      cs := back;
    }
    var u := Step(s1, Return(e));
    assert back[1..] == [] && Exec(u, []) == u && Admissible(u, []) && SmoothRun(u, [], i);
    assert Admissible(s1, back) && SmoothRun(s1, back, i) && Exec(s1, back) == u;
  }

  /** All live reads of a list may be finished, leaving the dead ones as they are. */
  lemma {:induction false} FinishList(s: State, i: Instance, list: seq<nat>) returns (cs: seq<Command>)
    requires forall n | 0 <= n < |list| :: list[n] < |s.entries|
    ensures Admissible(s, cs) && SmoothRun(s, cs, i)
    ensures var u := Exec(s, cs);
            && u.lists == s.lists && |u.entries| == |s.entries|
            && (forall n | 0 <= n < |list| :: s.entries[list[n]].alive ==> u.entries[list[n]].done)
            && (forall x | 0 <= x < |s.entries| ::
                 u.entries[x].alive == s.entries[x].alive && (s.entries[x].done ==> u.entries[x].done))
            && (forall x | 0 <= x < |s.entries| && !s.entries[x].alive :: u.entries[x] == s.entries[x])
    decreases |list|
  {
    if list == [] {
      cs := [];
    } else {
      var e := list[0];
      var first: seq<Command> := [];
      if s.entries[e].alive { first := FinishOne(s, i, e); }
      var m := Exec(s, first);
      var rest := FinishList(m, i, list[1..]);
      RunsJoin(s, first, rest, i);
      cs := first + rest;
      forall n | 0 <= n < |list| && s.entries[list[n]].alive ensures Exec(s, cs).entries[list[n]].done {
        if n > 0 { assert list[1..][n - 1] == list[n]; }
      }
    }
  }

  lemma HoldsDeadAnswers(s: State, i: Instance, c: ReadClass) returns (cs: seq<Command>, r: Request)
    requires Homes(s) && HoldsDead(s, i, c)
    ensures DeadAnswer(s, cs, r, i, c)
  {
    var e :| e in ListOf(s, i) && Dead(s, e) && s.entries[e].class_ == c;
    forall n | 0 <= n < |ListOf(s, i)| ensures ListOf(s, i)[n] < |s.entries| {
      assert ListOf(s, i)[n] in ListOf(s, i);
    }
    cs := FinishList(s, i, ListOf(s, i));
    var u := Exec(s, cs);
    r := Request(i, c, 0, s.entries[e].attempt);
    ExecHomes(s, cs);
    assert ListOf(u, i) == ListOf(s, i) && u.entries[e] == s.entries[e];
    DeadServes(u, i, e, r);
    var a := Answer(u, r);
    var n :| 0 <= n < |ListOf(s, i)| && ListOf(s, i)[n] == a;
  }

  /** The exact condition, in any reachable state: some smooth continuation answers a plain
      request of a class with a dead entry if and only if the instance's list already holds a
      dead entry of that class. */
  lemma DeadAnswerIff(start: seq<Command>, i: Instance, c: ReadClass)
    requires Admissible(Initial, start)
    ensures var s := Exec(Initial, start);
            (exists cs: seq<Command>, r: Request :: DeadAnswer(s, cs, r, i, c)) <==> HoldsDead(s, i, c)
  {
    var s := Exec(Initial, start);
    ExecHomes(Initial, start);
    if cs: seq<Command>, r: Request :| DeadAnswer(s, cs, r, i, c) {
      DeadAnswerMeans(s, cs, r, i, c);
    }
    if HoldsDead(s, i, c) {
      var cs, r := HoldsDeadAnswers(s, i, c);
    }
  }

  /** Where nothing of an instance was ever refused, dropped or failed to begin, every answer is a
      read some executor may still finish, whatever befell the other instances. */
  lemma SmoothAnswersAlive(cs: seq<Command>, r: Request)
    requires Admissible(Initial, cs) && SmoothRun(Initial, cs, r.instance)
    ensures var u := Exec(Initial, cs);
            var e := Answer(u, r);
            e < |u.entries| ==> u.entries[e].alive && !u.entries[e].done
  {
    var u := Exec(Initial, cs);
    var e := Answer(u, r);
    if e < |u.entries| {
      AnswerInList(u, r);
      if !u.entries[e].alive { SmoothKeeps(Initial, cs, r.instance, e); }
    }
  }

  /** A drain that drops a queued read leaves one as well: the accepted request that was
      waiting and every plain one after it are answered with the dropped entry. */
  lemma DropLeavesDead(i: Instance)
    ensures var r := Request(i, QuotaRead, 0, "");
            var u := Step(Asked(Initial, r, true), Drop(0));
            HoldsDead(u, i, QuotaRead) && Answer(u, r) == 0 && Dead(u, 0)
  {
    var r := Request(i, QuotaRead, 0, "");
    var s := Asked(Initial, r, true);
    assert Unfinished(Initial, ListOf(Initial, i)) == [];
    assert s.lists[i] == [0];
    var u := Step(s, Drop(0));
    assert 0 in ListOf(u, i) && Dead(u, 0);
    assert Homes(u);
    DeadServes(u, i, 0, r);
  }

  /** And so does a beginning for which no start sequence could be allocated. */
  lemma FailedBeginLeavesDead(i: Instance, skipped: nat)
    ensures var r := Request(i, QuotaRead, 0, "");
            var u := Step(Asked(Initial, r, true), Begin(0, skipped, true));
            HoldsDead(u, i, QuotaRead) && Answer(u, r) == 0 && Dead(u, 0)
  {
    var r := Request(i, QuotaRead, 0, "");
    var s := Asked(Initial, r, true);
    assert Unfinished(Initial, ListOf(Initial, i)) == [];
    assert s.lists[i] == [0];
    var u := Step(s, Begin(0, skipped, true));
    assert 0 in ListOf(u, i) && Dead(u, 0);
    assert Homes(u);
    DeadServes(u, i, 0, r);
  }

  /** The smallest run that leaves one: a single refused request. */
  lemma RefusalLeavesDead(i: Instance)
    ensures var r := Request(i, QuotaRead, 0, "");
            var u := Asked(Initial, r, false);
            HoldsDead(u, i, QuotaRead) && Answer(u, r) == 0 && Dead(u, 0)
  {
    var r := Request(i, QuotaRead, 0, "");
    var u := Asked(Initial, r, false);
    assert Unfinished(Initial, ListOf(Initial, i)) == [];
    assert u.lists[i] == [0] && 0 in ListOf(u, i) && Dead(u, 0);
    assert Homes(u);
    DeadServes(u, i, 0, r);
  }
}
