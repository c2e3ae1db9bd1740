/** The fence allocator: 64-bit numbers handed out from blocks whose ceiling is made durable
    before any number of the block is used. One allocator is alive at a time. */
module Fence {

  const BLOCK: nat := 0x10_0000
  const MAX: nat := 0xFFFF_FFFF_FFFF_FFFF

  function Wrap(x: nat): nat {
    x % 0x1_0000_0000_0000_0000
  }

  /** How the ceiling write went. `Unseen`: on disk, but reported as an error. */
  datatype Outcome = CrashBefore | Lost | Unseen | CrashAfter | Committed

  datatype Event =
    | Next(outcome: Outcome)
    | OtherWrite(outcome: Outcome)     // another component writes the shared state
    | Restart

  datatype State = State(
    durable: nat,            // the ceiling on disk
    memory: nat,             // the ceiling in the store's memory
    unsafe: bool,
    initialized: bool,       // the allocator's fields
    next: nat,
    ceiling: nat,
    reserved: nat,
    issued: seq<nat>)        // every number handed out so far

  function Start(durable: nat, unsafe: bool): State {
    State(durable, durable, unsafe, false, 0, 0, durable, [])
  }

  function Initialize(s: State): State {
    if s.initialized || s.unsafe then s
    else s.(next := Wrap(s.reserved + 1), ceiling := s.reserved, initialized := true)
  }

  /** The store's update: a new ceiling one block above the one in its memory. */
  function Reserve(s: State, outcome: Outcome): State {
    if outcome.CrashBefore? || outcome.Lost? || s.memory > MAX - BLOCK then s
    else if outcome.Unseen? then s.(durable := s.memory + BLOCK)
    else s.(durable := s.memory + BLOCK, memory := s.memory + BLOCK, reserved := s.memory + BLOCK)
  }

  predicate Reserved(s: State, outcome: Outcome) {
    outcome.Committed? && s.memory <= MAX - BLOCK
  }

  function Issue(s: State): State {
    s.(issued := s.issued + [s.next], next := Wrap(s.next + 1))
  }

  function Allocate(s: State, outcome: Outcome): State {
    var s1 := Initialize(s);
    if !s1.initialized then s1
    else if s1.next <= s1.ceiling then Issue(s1)
    else if s1.reserved > MAX - BLOCK then s1
    else
      var s2 := Reserve(s1, outcome);
      if Reserved(s1, outcome) then Issue(s2.(ceiling := s2.reserved)) else s2
  }

  function Step(s: State, e: Event): State {
    match e
    case Next(outcome) => Allocate(s, outcome)
    case OtherWrite(outcome) => if outcome.CrashBefore? || outcome.Lost? then s else s.(durable := s.memory)
    case Restart => s.(memory := s.durable, reserved := s.durable, initialized := false, next := 0, ceiling := 0)
  }

  function Exec(s: State, es: seq<Event>): State
    decreases |es|
  {
    if es == [] then s else Exec(Step(s, es[0]), es[1..])
  }

  // ---- What every run keeps ----

  predicate Increasing(xs: seq<nat>) {
    forall a, b | 0 <= a < b < |xs| :: xs[a] < xs[b]
  }

  predicate Below(xs: seq<nat>, bound: nat) {
    forall a | 0 <= a < |xs| :: xs[a] < bound
  }

  /** Ceilings never reach the largest number, so no counter wraps. */
  predicate Aligned(c: nat) {
    c <= MAX && c % BLOCK != BLOCK - 1
  }

  predicate Inv(s: State) {
    && Aligned(s.memory) && Aligned(s.durable) && s.memory <= s.durable && s.reserved == s.memory
    && Increasing(s.issued)
    && (if s.initialized then s.ceiling <= s.memory && s.next <= s.ceiling + 1 && Below(s.issued, s.next)
        else Below(s.issued, s.memory + 1))
  }

  lemma AlignedRoom(c: nat)
    requires Aligned(c)
    ensures c < MAX
    ensures c <= MAX - BLOCK ==> Aligned(c + BLOCK)
  {}

  lemma InitializeInv(s: State)
    requires Inv(s)
    ensures Inv(Initialize(s))
  {
    AlignedRoom(s.memory);
  }

  lemma IssueInv(s: State)
    requires Inv(s) && s.initialized && s.next <= s.ceiling
    ensures Inv(Issue(s))
  {
    AlignedRoom(s.memory);
    assert Wrap(s.next + 1) == s.next + 1;
  }

  lemma StepInv(s: State, e: Event)
    requires Inv(s)
    ensures Inv(Step(s, e))
  {
    match e {
      case Next(outcome) =>
        var s1 := Initialize(s);
        InitializeInv(s);
        AlignedRoom(s1.memory);
        if s1.initialized {
          if s1.next <= s1.ceiling {
            IssueInv(s1);
          } else if s1.reserved <= MAX - BLOCK && Reserved(s1, outcome) {
            NewBlock(s1);
          }
        }
      case OtherWrite(_) =>
      case Restart =>
    }
  }

  /** A block is opened when the numbers of the last one, up to its ceiling, are used up. */
  lemma NewBlock(s: State)
    requires Inv(s) && s.initialized && s.next > s.ceiling && s.memory <= MAX - BLOCK
    ensures var s2 := Reserve(s, Committed); Inv(Issue(s2.(ceiling := s2.reserved)))
  {
    AlignedRoom(s.memory);
    var s2 := Reserve(s, Committed);
    var s3 := s2.(ceiling := s2.reserved);
    IssueInv(s3);
  }

  lemma {:induction false} ExecInv(s: State, es: seq<Event>)
    requires Inv(s)
    ensures Inv(Exec(s, es))
    decreases |es|
  {
    if es != [] {
      StepInv(s, es[0]);
      ExecInv(Step(s, es[0]), es[1..]);
    }
  }

  /** Through failed and unseen ceiling writes, other writers and any number of restarts,
      the numbers handed out strictly increase and none exceeds the durable ceiling. The
      start may be any ceiling that is not one short of a block; a fresh one is zero. */
  lemma IssuedStrictlyIncrease(start: nat, unsafe: bool, es: seq<Event>)
    requires Aligned(start)
    ensures var u := Exec(Start(start, unsafe), es);
            && Increasing(u.issued) && Below(u.issued, u.durable + 1) && u.durable <= MAX
            && forall a | 0 <= a < |u.issued| :: u.issued[a] > 0
  {
    var s := Start(start, unsafe);
    ExecInv(s, es);
    ExecPositive(s, es);
  }

  predicate Positive(s: State) {
    (forall a | 0 <= a < |s.issued| :: s.issued[a] > 0) && (s.initialized ==> s.next > 0)
  }

  lemma StepPositive(s: State, e: Event)
    requires Inv(s) && Positive(s)
    ensures Positive(Step(s, e))
  {
    AlignedRoom(s.memory);
    if s.memory <= MAX - BLOCK { AlignedRoom(s.memory + BLOCK); }
    hide Aligned, Increasing, Below;
  }

  lemma {:induction false} ExecPositive(s: State, es: seq<Event>)
    requires Inv(s) && Positive(s)
    ensures Positive(Exec(s, es))
    decreases |es|
  {
    if es != [] {
      StepInv(s, es[0]);
      StepPositive(s, es[0]);
      ExecPositive(Step(s, es[0]), es[1..]);
    }
  }

  // ---- Which number is handed out, and when ----

  /** The number whose turn it is. */
  function Due(s: State): nat {
    if s.initialized then s.next else s.reserved + 1
  }

  /** The open block still has numbers. */
  predicate BlockOpen(s: State) {
    s.initialized && s.next <= s.ceiling
  }

  /** The exact effect of a request: unless the state was never trusted it hands out the number
      whose turn it is, if the open block has one, or if there is room for a block and its
      ceiling write was confirmed; no other number, and no ceiling is written for an open block. */
  lemma NextExactly(s: State, outcome: Outcome)
    requires Inv(s)
    ensures var u := Allocate(s, outcome);
            var room := s.memory <= MAX - BLOCK;
            var gives := (s.initialized || !s.unsafe) && (BlockOpen(s) || (room && outcome.Committed?));
            && u.issued == (if gives then s.issued + [Due(s)] else s.issued)
            && Due(u) == (if gives then Due(s) + 1 else if s.initialized || s.unsafe then Due(s) else s.memory + 1)
            && u.durable == (if (s.initialized || !s.unsafe) && !BlockOpen(s) && room
                                && !outcome.CrashBefore? && !outcome.Lost?
                             then s.memory + BLOCK else s.durable)
  {
    AlignedRoom(s.memory);
    if s.memory <= MAX - BLOCK { AlignedRoom(s.memory + BLOCK); }
    hide Aligned, Increasing, Below;
  }

  predicate NoRestart(es: seq<Event>) {
    forall n | 0 <= n < |es| :: !es[n].Restart?
  }

  predicate CountsFrom(xs: seq<nat>, k: nat, first: nat)
    requires k <= |xs|
  {
    forall n | k <= n < |xs| :: xs[n] == first + (n - k)
  }

  lemma StepCounts(s: State, e: Event)
    requires Inv(s) && s.initialized && !e.Restart?
    ensures var u := Step(s, e);
            && u.initialized
            && ((u.issued == s.issued && Due(u) == Due(s)) || (u.issued == s.issued + [Due(s)] && Due(u) == Due(s) + 1))
  {
    if e.Next? { NextExactly(s, e.outcome); }
  }

  /** Between restarts no number is left out: those handed out follow each other one by one,
      across blocks and failed writes. */
  lemma {:induction false} IssuedConsecutively(s: State, es: seq<Event>)
    requires Inv(s) && s.initialized && NoRestart(es)
    ensures var u := Exec(s, es);
            && |s.issued| <= |u.issued| && u.issued[..|s.issued|] == s.issued
            && CountsFrom(u.issued, |s.issued|, Due(s)) && Due(u) == Due(s) + |u.issued| - |s.issued|
    decreases |es|
  {
    if es != [] {
      var t, rest := Step(s, es[0]), es[1..];
      StepInv(s, es[0]);
      StepCounts(s, es[0]);
      assert NoRestart(rest) by { assert forall n | 0 <= n < |rest| :: rest[n] == es[n + 1]; }
      hide Step, Due, Inv;
      IssuedConsecutively(t, rest);
      var u := Exec(t, rest);
      hide CountsFrom;
      if t.issued != s.issued { OneMore(s.issued, Due(s), t.issued, u.issued); }
    }
  }

  lemma OneMore(before: seq<nat>, x: nat, middle: seq<nat>, xs: seq<nat>)
    requires middle == before + [x] && |middle| <= |xs| && xs[..|middle|] == middle && CountsFrom(xs, |middle|, x + 1)
    ensures xs[..|before|] == before && CountsFrom(xs, |before|, x)
  {
    assert xs[|before|] == xs[..|middle|][|before|] == x;
    assert xs[..|before|] == xs[..|middle|][..|before|];
  }

  /** An untrustworthy ceiling issues nothing at all. */
  lemma {:induction false} UnsafeIssuesNothing(s: State, es: seq<Event>)
    requires s.unsafe && !s.initialized
    ensures var u := Exec(s, es); u.unsafe && !u.initialized && u.issued == s.issued
    decreases |es|
  {
    if es != [] { UnsafeIssuesNothing(Step(s, es[0]), es[1..]); }
  }

  /** From a fresh start every ceiling is a multiple of the block size. */
  lemma {:induction false} FreshCeilings(s: State, es: seq<Event>)
    requires Multiple(s.memory) && Multiple(s.durable)
    ensures var u := Exec(s, es); Multiple(u.durable) && Multiple(u.memory)
    decreases |es|
  {
    if es != [] {
      MultipleStep(s, es[0]);
      FreshCeilings(Step(s, es[0]), es[1..]);
    }
  }

  predicate Multiple(c: nat) {
    c % BLOCK == 0
  }

  lemma MultipleAdd(c: nat)
    requires Multiple(c)
    ensures Multiple(c + BLOCK)
  {}

  lemma MultipleStep(s: State, e: Event)
    requires Multiple(s.memory) && Multiple(s.durable)
    ensures Multiple(Step(s, e).memory) && Multiple(Step(s, e).durable)
  {
    MultipleAdd(s.memory);
    hide Multiple, Wrap;
  }

  // ---- Exactly the aligned ceilings are safe ----

  lemma {:induction false} ExecJoins(s: State, a: seq<Event>, b: seq<Event>)
    ensures Exec(s, a + b) == Exec(Exec(s, a), b)
    decreases |a|
  {
    if a == [] {
      assert a + b == b;
    } else {
      assert (a + b)[1..] == a[1..] + b;
      ExecJoins(Step(s, a[0]), a[1..], b);
    }
  }

  /** At the largest ceiling the counter wraps at once, and again after a restart. */
  lemma LargestCeilingWraps(outcome: Outcome)
    ensures Exec(Start(MAX, false), [Next(outcome), Restart, Next(outcome)]).issued == [0, 0]
  {
    var s := Start(MAX, false);
    var u := Step(s, Next(outcome));
    assert u.issued == [0];
    var v := Step(u, Restart);
    assert v == Start(MAX, false).(issued := [0]);
    var w := Step(v, Next(outcome));
    assert w.issued == [0, 0];
    var es := [Next(outcome), Restart, Next(outcome)];
    assert es[1..] == [Restart, Next(outcome)] && es[1..][1..] == [Next(outcome)];
    assert Exec(w, []) == w && Exec(v, es[1..][1..]) == w && Exec(u, es[1..]) == w;
  }

  /** A reservation that is lost to a crash moves the next start up by a block. */
  lemma LostReservation(start: nat)
    requires start <= MAX - BLOCK
    ensures Exec(Start(start, false), [Next(CrashAfter), Restart]) == Start(start + BLOCK, false)
  {
    var s := Start(start, false);
    var u := Step(s, Next(CrashAfter));
    var v := Step(u, Restart);
    assert v == Start(start + BLOCK, false);
    var es := [Next(CrashAfter), Restart];
    assert es[1..] == [Restart] && es[1..][1..] == [];
    assert Exec(v, []) == v && Exec(u, es[1..]) == v;
  }

  /** From a ceiling one short of a block, lost reservations lead to the largest ceiling. */
  lemma {:induction false} UnalignedRepeats(start: nat) returns (es: seq<Event>)
    requires start <= MAX && !Aligned(start)
    ensures Exec(Start(start, false), es).issued == [0, 0]
    decreases MAX - start
  {
    if start == MAX {
      es := [Next(Lost), Restart, Next(Lost)];
      LargestCeilingWraps(Lost);
    } else {
      UnalignedRoom(start);
      var rest := UnalignedRepeats(start + BLOCK);
      LostReservation(start);
      ExecJoins(Start(start, false), [Next(CrashAfter), Restart], rest);
      es := [Next(CrashAfter), Restart] + rest;
    }
  }

  lemma UnalignedRoom(start: nat)
    requires start < MAX && !Aligned(start)
    ensures start + BLOCK <= MAX && !Aligned(start + BLOCK)
  {}

  /** The exact condition: the numbers strictly increase, whatever happens, if and only if
      the first ceiling is not one short of a block. */
  lemma SafeExactlyWhenAligned(start: nat)
    requires start <= MAX
    ensures Aligned(start) <==> forall es: seq<Event> :: Increasing(Exec(Start(start, false), es).issued)
  {
    if Aligned(start) {
      forall es: seq<Event> ensures Increasing(Exec(Start(start, false), es).issued) {
        IssuedStrictlyIncrease(start, false, es);
      }
    } else {
      var es := UnalignedRepeats(start);
      var xs := Exec(Start(start, false), es).issued;
      assert xs[0] == xs[1];
      assert !Increasing(xs);
    }
  }

  // ---- The program's own form ----

  datatype Answer = Number(value: nat) | Overflow | Unsafe | WriteFailed

  class FenceAllocator {
    var durable: nat
    var memory: nat
    var unsafe: bool
    var initialized: bool
    var next: nat
    var ceiling: nat
    var reserved: nat
    ghost var issued: seq<nat>

    ghost function View(): State
      reads this
    {
      State(durable, memory, unsafe, initialized, next, ceiling, reserved, issued)
    }

    constructor (start: nat, warned: bool)
      requires Aligned(start)
      ensures View() == Start(start, warned) && Inv(View())
    {
      durable, memory, unsafe := start, start, warned;
      initialized, next, ceiling, reserved, issued := false, 0, 0, start, [];
    }

    method Ready()
      modifies this`next, this`ceiling, this`initialized
      ensures View() == Initialize(old(View()))
    {
      if !initialized && !unsafe {
        next, ceiling, initialized := Wrap(reserved + 1), reserved, true;
      }
    }

    /** Raise the durable ceiling by a block through the store. */
    method ReserveBlock(outcome: Outcome) returns (ok: bool)
      modifies this`durable, this`memory, this`reserved
      ensures View() == Reserve(old(View()), outcome) && ok == Reserved(old(View()), outcome)
    {
      if outcome.CrashBefore? || outcome.Lost? || memory > MAX - BLOCK {
        return false;
      }
      durable := memory + BLOCK;
      if outcome.Unseen? {
        return false;
      }
      memory := memory + BLOCK;
      reserved := memory;
      ok := !outcome.CrashAfter?;
    }

    method Take(outcome: Outcome) returns (answer: Answer)
      modifies this
      ensures View() == Allocate(old(View()), outcome)
      ensures issued == if answer.Number? then old(issued) + [answer.value] else old(issued)
    {
      hide Wrap;
      Ready();
      if !initialized {
        return Unsafe;
      }
      if next > ceiling {
        if reserved > MAX - BLOCK {
          return Overflow;
        }
        var ok := ReserveBlock(outcome);
        if !ok {
          return WriteFailed;
        }
        ceiling := reserved;
      }
      answer := Number(next);
      issued := issued + [next];
      next := Wrap(next + 1);
    }

    method Next(outcome: Outcome) returns (answer: Answer)
      requires Inv(View())
      modifies this
      ensures Inv(View()) && View() == Allocate(old(View()), outcome)
      ensures issued == if answer.Number? then old(issued) + [answer.value] else old(issued)
    {
      StepInv(View(), Event.Next(outcome));
      hide Inv, Allocate;
      answer := Take(outcome);
    }
  }
}
