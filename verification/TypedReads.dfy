/** Joining of typed reads. A request for a read may be served by a read another request
    opened, provided that read started after the point the request names.

    A read is an entry in its instance's list. Its start sequence is zero until the executor
    begins; then it is taken from the fence allocator, which never repeats a number. */
module TypedReads {
  import opened Basics

  datatype ReadClass = QuotaRead | ProbePrecheck | ProbeVerify

  datatype Request = Request(instance: Instance, class_: ReadClass, startedAfter: nat, attempt: string)

  /** `alive`: an executor may still mark the entry done. An entry whose submission was
      refused, whose queued job was dropped, or whose start sequence could not be allocated,
      never gets that far. */
  datatype Entry = Entry(class_: ReadClass, attempt: string, seq_: nat, done: bool, alive: bool)

  datatype State = State(
    entries: seq<Entry>,                 // every entry ever created, by identity
    lists: map<Instance, seq<nat>>,
    issued: nat,                         // the last number the allocator gave out
    served: seq<(Request, nat)>)         // every answer so far: the request and the entry it got

  datatype Command =
    | Ask(request: Request, accepted: bool)
    | Begin(entry: nat, skipped: nat, fails: bool)
    | Drop(entry: nat)                   // a drain or a cancellation drops the queued job
    | Return(entry: nat)
    | Clear(instances: set<Instance>)
    | OtherFence(skipped: nat)

  const Initial := State([], map[], 0, [])

  predicate Joinable(e: Entry, r: Request) {
    && !e.done
    && (e.seq_ > r.startedAfter || (e.seq_ == 0 && r.startedAfter == 0 && e.class_ == r.class_))
    && (r.class_.ProbeVerify? ==> e.attempt == "" || e.attempt == r.attempt)
  }

  function ListOf(s: State, i: Instance): seq<nat> {
    if i in s.lists then s.lists[i] else []
  }

  predicate Open(s: State, e: nat) {
    e < |s.entries| && !s.entries[e].done
  }

  function Unfinished(s: State, list: seq<nat>): seq<nat> {
    if list == [] then []
    else Unfinished(s, list[..|list| - 1]) + (if Open(s, list[|list| - 1]) then [list[|list| - 1]] else [])
  }

  predicate Serves(s: State, r: Request, e: nat) {
    e < |s.entries| && Joinable(s.entries[e], r)
  }

  /** The first entry of the list that can serve the request; the list's length if none. */
  function FirstServing(s: State, list: seq<nat>, r: Request): (n: nat)
    ensures n <= |list|
    ensures n < |list| ==> Serves(s, r, list[n])
    ensures forall m | 0 <= m < n :: !Serves(s, r, list[m])
  {
    if list == [] then 0
    else if Serves(s, r, list[0]) then 0
    else 1 + FirstServing(s, list[1..], r)
  }

  function Answer(s: State, r: Request): nat {
    var list := Unfinished(s, ListOf(s, r.instance));
    var n := FirstServing(s, list, r);
    if n < |list| then list[n] else |s.entries|
  }

  function Asked(s: State, r: Request, accepted: bool): State {
    var list, e := Unfinished(s, ListOf(s, r.instance)), Answer(s, r);
    var s1 := s.(served := s.served + [(r, e)]);
    if e < |s.entries| then
      s1.(lists := s.lists[r.instance := list],
          entries := if r.class_.ProbeVerify? && s.entries[e].attempt == ""
                     then s.entries[e := s.entries[e].(attempt := r.attempt)] else s.entries)
    else
      s1.(lists := s.lists[r.instance := list + [e]],
          entries := s.entries + [Entry(r.class_, r.attempt, 0, false, accepted)])
  }

  /** Entries of the cleared instances are done with, whatever their executors do. */
  function Cleared(s: State, instances: set<Instance>): State {
    s.(entries := seq(|s.entries|, e requires 0 <= e < |s.entries| =>
         if exists i :: i in instances && i in s.lists && e in s.lists[i]
         then s.entries[e].(done := true) else s.entries[e]),
       lists := s.lists - instances)
  }

  predicate Enabled(s: State, c: Command) {
    match c
    case Ask(r, _) => r.startedAfter <= s.issued
    case Begin(e, _, _) => e < |s.entries| && s.entries[e].alive && s.entries[e].seq_ == 0
    case Drop(e) => e < |s.entries| && s.entries[e].alive && s.entries[e].seq_ == 0
    case Return(e) => e < |s.entries| && s.entries[e].alive && s.entries[e].seq_ != 0
    case _ => true
  }

  function Step(s: State, c: Command): State
    requires Enabled(s, c)
  {
    match c
    case Ask(r, accepted) => Asked(s, r, accepted)
    case Begin(e, skipped, fails) =>
      if fails then s.(entries := s.entries[e := s.entries[e].(alive := false)])
      else s.(issued := s.issued + skipped + 1,
              entries := s.entries[e := s.entries[e].(seq_ := s.issued + skipped + 1)])
    case Drop(e) => s.(entries := s.entries[e := s.entries[e].(alive := false)])
    case Return(e) => s.(entries := s.entries[e := s.entries[e].(done := true)])
    case Clear(instances) => Cleared(s, instances)
    case OtherFence(skipped) => s.(issued := s.issued + skipped + 1)
  }

  predicate Admissible(s: State, cs: seq<Command>)
    decreases |cs|
  {
    cs == [] || (Enabled(s, cs[0]) && Admissible(Step(s, cs[0]), cs[1..]))
  }

  function Exec(s: State, cs: seq<Command>): State
    requires Admissible(s, cs)
    decreases |cs|
  {
    if cs == [] then s else Exec(Step(s, cs[0]), cs[1..])
  }

  // ---- What every step keeps ----

  /** What the answer to a request promises, as far as the read has come. */
  predicate Fresh(s: State, r: Request, e: nat) {
    && e < |s.entries|
    && (if s.entries[e].seq_ == 0 then r.startedAfter <= s.issued else r.startedAfter < s.entries[e].seq_)
    && (r.class_.ProbeVerify? && r.attempt != "" ==> s.entries[e].attempt == r.attempt)
  }

  ghost predicate Inv(s: State) {
    && (forall n | 0 <= n < |s.served| :: Fresh(s, s.served[n].0, s.served[n].1))
    && (forall e | 0 <= e < |s.entries| :: s.entries[e].seq_ <= s.issued)
    && (forall i, n | i in s.lists && 0 <= n < |s.lists[i]| :: s.lists[i][n] < |s.entries|)
  }

  lemma {:induction false} UnfinishedOpen(s: State, list: seq<nat>)
    ensures forall n | 0 <= n < |Unfinished(s, list)| ::
      Open(s, Unfinished(s, list)[n]) && Unfinished(s, list)[n] in list
    ensures forall e | e in list && Open(s, e) :: e in Unfinished(s, list)
    decreases |list|
  {
    if list != [] {
      UnfinishedOpen(s, list[..|list| - 1]);
    }
  }

  lemma AskedInv(s: State, r: Request, accepted: bool)
    requires Inv(s) && r.startedAfter <= s.issued
    ensures Inv(Asked(s, r, accepted))
  {
    var list, e, u := Unfinished(s, ListOf(s, r.instance)), Answer(s, r), Asked(s, r, accepted);
    UnfinishedOpen(s, ListOf(s, r.instance));
    forall n | 0 <= n < |u.served| ensures Fresh(u, u.served[n].0, u.served[n].1) {
      if n < |s.served| { assert Fresh(s, s.served[n].0, s.served[n].1); }
    }
  }

  lemma BeginInv(s: State, e: nat, skipped: nat, fails: bool)
    requires Inv(s) && Enabled(s, Begin(e, skipped, fails))
    ensures Inv(Step(s, Begin(e, skipped, fails)))
  {
    var u := Step(s, Begin(e, skipped, fails));
    forall n | 0 <= n < |u.served| ensures Fresh(u, u.served[n].0, u.served[n].1) {
      assert Fresh(s, s.served[n].0, s.served[n].1);
    }
  }

  lemma StepInv(s: State, c: Command)
    requires Inv(s) && Enabled(s, c)
    ensures Inv(Step(s, c))
  {
    var u := Step(s, c);
    match c {
      case Ask(r, accepted) => AskedInv(s, r, accepted);
      case Begin(e, skipped, fails) => BeginInv(s, e, skipped, fails);
      case _ =>
        forall n | 0 <= n < |u.served| ensures Fresh(u, u.served[n].0, u.served[n].1) {
          assert Fresh(s, s.served[n].0, s.served[n].1);
        }
    }
  }

  lemma {:induction false} ExecInv(s: State, cs: seq<Command>)
    requires Inv(s) && Admissible(s, cs)
    ensures Inv(Exec(s, cs))
    decreases |cs|
  {
    if cs != [] {
      StepInv(s, cs[0]);
      ExecInv(Step(s, cs[0]), cs[1..]);
    }
  }

  /** In every run, whatever read answers a request started after the point the request
      named, and a verify request that names an attempt is answered by a read of that attempt. */
  lemma ServedByLaterRead(cs: seq<Command>, n: nat)
    requires Admissible(Initial, cs) && n < |Exec(Initial, cs).served|
    ensures var u := Exec(Initial, cs);
            var (r, e) := u.served[n];
            && e < |u.entries|
            && (u.entries[e].seq_ != 0 ==> u.entries[e].seq_ > r.startedAfter)
            && (r.class_.ProbeVerify? && r.attempt != "" ==> u.entries[e].attempt == r.attempt)
  {
    ExecInv(Initial, cs);
    var u := Exec(Initial, cs);
    assert Fresh(u, u.served[n].0, u.served[n].1);
  }

  // ---- Which read answers a request ----

  /** The read has not returned and serves the request: it began after the point named, or it
      waits, for a request of its class that names no point. A verify request does not take
      the read of another attempt. */
  predicate Suits(s: State, r: Request, e: nat) {
    && e < |s.entries| && !s.entries[e].done
    && (|| r.startedAfter < s.entries[e].seq_
        || (s.entries[e].seq_ == r.startedAfter == 0 && s.entries[e].class_ == r.class_))
    && (r.class_ == ProbeVerify ==> s.entries[e].attempt in ["", r.attempt])
  }

  /** The first entry of the list that suits, at its place. */
  ghost predicate FirstSuiting(s: State, r: Request, list: seq<nat>, e: nat) {
    exists n :: 0 <= n < |list| && list[n] == e && Suits(s, r, e) && forall m | 0 <= m < n :: !Suits(s, r, list[m])
  }

  lemma {:induction false} FirstUnfinished(s: State, r: Request, list: seq<nat>)
    ensures var u := Unfinished(s, list);
            var k := FirstServing(s, u, r);
            && (k == |u| ==> forall n | 0 <= n < |list| :: !Suits(s, r, list[n]))
            && (k < |u| ==> FirstSuiting(s, r, list, u[k]))
    decreases |list|
  {
    if list != [] {
      var front, last := list[..|list| - 1], list[|list| - 1];
      var v := Unfinished(s, front);
      var k := FirstServing(s, v, r);
      FirstUnfinished(s, r, front);
      if k < |v| {
        FirstServingIs(s, Unfinished(s, list), r, k);
        var n :| 0 <= n < |front| && front[n] == v[k] && Suits(s, r, v[k])
                 && forall m | 0 <= m < n :: !Suits(s, r, front[m]);
        assert list[n] == v[k] && forall m | 0 <= m < n :: list[m] == front[m];
      } else {
        assert forall n | 0 <= n < |front| :: front[n] == list[n];
        LastServes(s, r, list);
      }
    }
  }

  lemma LastServes(s: State, r: Request, list: seq<nat>)
    requires list != []
    requires var v := Unfinished(s, list[..|list| - 1]); FirstServing(s, v, r) == |v|
    requires forall n | 0 <= n < |list| - 1 :: !Suits(s, r, list[n])
    ensures var u := Unfinished(s, list);
            var k := FirstServing(s, u, r);
            && (k == |u| ==> forall n | 0 <= n < |list| :: !Suits(s, r, list[n]))
            && (k < |u| ==> FirstSuiting(s, r, list, u[k]))
  {
    var front, last := list[..|list| - 1], list[|list| - 1];
    var u, v := Unfinished(s, list), Unfinished(s, front);
    assert Serves(s, r, last) <==> Suits(s, r, last);
    assert forall n | 0 <= n < |front| :: front[n] == list[n];
    FirstServingIs(s, u, r, if Suits(s, r, last) then |v| else |u|);
    if Suits(s, r, last) { assert list[|list| - 1] == last; }
  }

  /** The exact answer: the first read on the instance's list that suits; a new one exactly
      when none does. */
  lemma AnswerExactly(s: State, r: Request)
    requires Inv(s)
    ensures var e, list := Answer(s, r), ListOf(s, r.instance);
            && (e == |s.entries| <==> forall n | 0 <= n < |list| :: !Suits(s, r, list[n]))
            && (e != |s.entries| ==> FirstSuiting(s, r, list, e))
  {
    FirstUnfinished(s, r, ListOf(s, r.instance));
  }

  lemma {:induction false} AllOpenStay(s: State, list: seq<nat>)
    requires forall n | 0 <= n < |list| :: Open(s, list[n])
    ensures Unfinished(s, list) == list
    decreases |list|
  {
    if list != [] {
      AllOpenStay(s, list[..|list| - 1]);
      assert list == list[..|list| - 1] + [list[|list| - 1]];
    }
  }

  lemma JoinedAgain(s: State, r: Request, accepted: bool)
    requires Answer(s, r) < |s.entries|
    ensures Answer(Asked(s, r, accepted), r) == Answer(s, r)
  {
    UnfinishedOpen(s, ListOf(s, r.instance));
    var u, list := Asked(s, r, accepted), Unfinished(s, ListOf(s, r.instance));
    hide Unfinished;
    assert ListOf(u, r.instance) == list;
    AllOpenStay(u, list);
    FirstServingIs(u, list, r, FirstServing(s, list, r));
  }

  lemma OpenedAgain(s: State, r: Request, accepted: bool)
    requires Answer(s, r) == |s.entries|
    requires forall n | 0 <= n < |Unfinished(s, ListOf(s, r.instance))| ::
      Open(s, Unfinished(s, ListOf(s, r.instance))[n])
    ensures Answer(Asked(s, r, accepted), r) == Answer(s, r) <==> r.startedAfter == 0
  {
    var u, list, e := Asked(s, r, accepted), Unfinished(s, ListOf(s, r.instance)), |s.entries|;
    hide Unfinished;
    assert ListOf(u, r.instance) == list + [e];
    AllOpenStay(u, list + [e]);
    FirstServingIs(u, list + [e], r, if r.startedAfter == 0 then |list| else |list| + 1);
  }

  /** Asked again at once, a request gets the same read exactly if it named no point or joined
      a read that runs: with a point named, two equal requests queue two reads. */
  lemma AskedAgainIff(s: State, r: Request, accepted: bool)
    requires Inv(s) && r.startedAfter <= s.issued
    ensures Answer(Asked(s, r, accepted), r) == Answer(s, r) <==>
              || r.startedAfter == 0
              || exists n | 0 <= n < |ListOf(s, r.instance)| :: Suits(s, r, ListOf(s, r.instance)[n])
  {
    AnswerExactly(s, r);
    UnfinishedOpen(s, ListOf(s, r.instance));
    hide Inv, Asked, Suits, Unfinished;
    if Answer(s, r) < |s.entries| { JoinedAgain(s, r, accepted); } else { OpenedAgain(s, r, accepted); }
  }

  // ---- The program's own form ----

  class ReadTable {
    var entries: seq<Entry>
    var lists: map<Instance, seq<nat>>
    ghost var issued: nat
    ghost var served: seq<(Request, nat)>

    ghost function View(): State
      reads this
    {
      State(entries, lists, issued, served)
    }

    constructor ()
      ensures View() == Initial && Inv(View())
    {
      entries, lists, issued, served := [], map[], 0, [];
    }

    function ListFor(i: Instance): (list: seq<nat>)
      reads this
      ensures list == ListOf(View(), i)
    {
      if i in lists then lists[i] else []
    }

    method Compact(i: Instance) returns (kept: seq<nat>)
      requires forall n | 0 <= n < |ListFor(i)| :: ListFor(i)[n] < |entries|
      ensures kept == Unfinished(View(), ListFor(i))
    {
      var list := ListFor(i);
      kept := [];
      var n := 0;
      while n < |list|
        invariant 0 <= n <= |list| && kept == Unfinished(View(), list[..n])
      {
        assert list[..n + 1][..n] == list[..n];
        if !entries[list[n]].done {
          kept := kept + [list[n]];
        }
        n := n + 1;
      }
      assert list[..n] == list;
    }

    method Find(list: seq<nat>, r: Request) returns (n: nat)
      requires forall m | 0 <= m < |list| :: list[m] < |entries|
      ensures n == FirstServing(View(), list, r)
    {
      n := 0;
      while n < |list| && !Joinable(entries[list[n]], r)
        invariant 0 <= n <= |list| && forall m | 0 <= m < n :: !Serves(View(), r, list[m])
      {
        n := n + 1;
      }
      FirstServingIs(View(), list, r, n);
    }

    /** The read that answers the request: the first one in the list that can, else a new one. */
    method SubmitTyped(r: Request, accepted: bool) returns (e: nat)
      requires Inv(View()) && r.startedAfter <= issued
      modifies this
      ensures Inv(View()) && View() == Asked(old(View()), r, accepted) && e == Answer(old(View()), r)
    {
      hide Inv, Unfinished, Joinable;
      ghost var s := View();
      AskedInv(s, r, accepted);
      ListBounded(s, r.instance);
      var list := Compact(r.instance);
      UnfinishedOpen(s, ListOf(s, r.instance));
      var n := Find(list, r);
      if n < |list| {
        e := list[n];
        lists := lists[r.instance := list];
        if r.class_.ProbeVerify? && entries[e].attempt == "" {
          entries := entries[e := entries[e].(attempt := r.attempt)];
        }
      } else {
        e := |entries|;
        entries := entries + [Entry(r.class_, r.attempt, 0, false, accepted)];
        lists := lists[r.instance := list + [e]];
      }
      served := served + [(r, e)];
    }

    method MarkDone(list: seq<nat>)
      requires forall n | 0 <= n < |list| :: list[n] < |entries|
      modifies this`entries
      ensures entries == AllDone(old(entries), list)
    {
      var n := 0;
      while n < |list|
        invariant 0 <= n <= |list| && |entries| == |old(entries)|
        invariant entries == AllDone(old(entries), list[..n])
      {
        entries := entries[list[n] := entries[list[n]].(done := true)];
        assert list[..n + 1] == list[..n] + [list[n]];
        n := n + 1;
      }
      assert list[..n] == list;
    }

    /** Forget the reads of cancelled instances. */
    method ClearTypedReads(ids: seq<Instance>)
      requires Inv(View())
      modifies this
      ensures Inv(View()) && View() == Cleared(old(View()), Named(ids))
    {
      hide Inv, Cleared, AllDone;
      ghost var s := View();
      ghost var done: set<Instance> := {};
      ClearedNone(s);
      var n := 0;
      while n < |ids|
        invariant 0 <= n <= |ids| && done == Named(ids[..n])
        invariant Inv(View()) && View() == Cleared(s, done)
      {
        var i := ids[n];
        StepInv(View(), Clear({i}));
        ClearedAdd(s, done, i);
        ClearedOne(View(), i);
        ListBounded(View(), i);
        MarkDone(ListFor(i));
        lists := lists - {i};
        done := done + {i};
        assert ids[..n + 1] == ids[..n] + [i];
        n := n + 1;
      }
      assert ids[..n] == ids;
    }
  }

  function Named(ids: seq<Instance>): set<Instance> {
    set i | i in ids
  }

  function AllDone(entries: seq<Entry>, list: seq<nat>): seq<Entry> {
    seq(|entries|, e requires 0 <= e < |entries| => if e in list then entries[e].(done := true) else entries[e])
  }

  lemma ClearedNone(s: State)
    ensures Cleared(s, {}) == s
  {
    assert Cleared(s, {}).entries == s.entries;
    assert Cleared(s, {}).lists == s.lists;
  }

  lemma ClearedOne(s: State, i: Instance)
    ensures Cleared(s, {i}) == s.(entries := AllDone(s.entries, ListOf(s, i)), lists := s.lists - {i})
  {
    var u := Cleared(s, {i});
    forall e | 0 <= e < |s.entries| ensures u.entries[e] == AllDone(s.entries, ListOf(s, i))[e] {
      assert i in {i};
    }
    assert u.entries == AllDone(s.entries, ListOf(s, i));
  }

  lemma ClearedAdd(s: State, done: set<Instance>, i: Instance)
    ensures Cleared(s, done + {i}) == Cleared(Cleared(s, done), {i})
  {
    var u, v, w := Cleared(s, done), Cleared(s, done + {i}), Cleared(Cleared(s, done), {i});
    assert v.lists == w.lists;
    forall e | 0 <= e < |s.entries| ensures v.entries[e] == w.entries[e] {
      if k :| k in done + {i} && k in s.lists && e in s.lists[k] {
        if k in done { assert u.entries[e].done; } else { assert i in {i} && i in u.lists && e in u.lists[i]; }
      }
    }
    assert v.entries == w.entries;
  }

  lemma ListBounded(s: State, i: Instance)
    requires Inv(s)
    ensures forall n | 0 <= n < |ListOf(s, i)| :: ListOf(s, i)[n] < |s.entries|
  {}

  lemma FirstServingIs(s: State, list: seq<nat>, r: Request, n: nat)
    requires n <= |list| && (forall m | 0 <= m < n :: !Serves(s, r, list[m])) && (n < |list| ==> Serves(s, r, list[n]))
    ensures FirstServing(s, list, r) == n
  {}
}
