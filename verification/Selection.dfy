/** Choosing an account: availability class first, then a lexicographic order. */
module Selection {
  import opened Basics
  import opened Trials

  datatype Class = Preferred | Opportunistic | Excluded
  datatype Cache = Fresh | Aging | UnknownCache | Stale
  datatype Circuit = ClosedCircuit | OpenCircuit | HalfOpen
  datatype Family = UnknownFamily | Weekly | Monthly
  datatype Mode = PriorityMode | ExpiryOrder

  /** Ids are numbered in their string order. An expiry of zero is none. */
  datatype View = View(
    id: nat,
    instance: Instance,
    cpaPriority: int,
    pluginPriority: int,
    family: Family,
    cache: Cache,
    lastKnownAvailable: bool,
    exhausted: bool,
    resetAt: int,
    authBlocked: bool,
    circuit: Circuit,
    temporaryUnavailable: bool,
    trial: TrialState,
    expiry: int,
    remaining: real,
    pressure: real)

  function Classify(a: View, now: int): Class {
    if a.authBlocked || a.circuit.OpenCircuit? || a.temporaryUnavailable || !a.trial.NoTrial? then Excluded
    else if a.exhausted && a.resetAt > now then Excluded
    else if a.cache.Fresh? || a.cache.Aging? then (if a.exhausted then Opportunistic else Preferred)
    else if a.cache.UnknownCache? || (a.cache.Stale? && a.lastKnownAvailable) then Opportunistic
    else Excluded
  }

  predicate Less(a: View, b: View, mode: Mode) {
    if a.cpaPriority != b.cpaPriority then a.cpaPriority > b.cpaPriority
    else if a.pluginPriority != b.pluginPriority then a.pluginPriority > b.pluginPriority
    else if mode.PriorityMode? && a.family != b.family then a.family.Monthly?
    else if a.pressure != b.pressure then a.pressure > b.pressure
    else if a.expiry != b.expiry then a.expiry != 0 && (b.expiry == 0 || a.expiry < b.expiry)
    else if a.remaining != b.remaining then a.remaining > b.remaining
    else a.id < b.id
  }

  // ---- The order ----

  /** Never an account before itself, never two before each other, and transitive, in
      either mode and for any accounts. */
  lemma LessIsStrictOrder(a: View, b: View, c: View, mode: Mode)
    ensures !Less(a, a, mode)
    ensures !(Less(a, b, mode) && Less(b, a, mode))
    ensures Less(a, b, mode) && Less(b, c, mode) ==> Less(a, c, mode)
  {}

  /** The one tie the order leaves open: two families in priority mode, neither monthly. */
  predicate Unranked(a: View, b: View, mode: Mode) {
    && mode.PriorityMode? && a.family != b.family && !a.family.Monthly? && !b.family.Monthly?
    && a.cpaPriority == b.cpaPriority && a.pluginPriority == b.pluginPriority
  }

  lemma LessIsTotalIff(a: View, b: View, mode: Mode)
    requires a.id != b.id
    ensures Less(a, b, mode) || Less(b, a, mode) <==> !Unranked(a, b, mode)
  {}

  predicate Ranked(xs: seq<View>, mode: Mode) {
    forall i, j | 0 <= i < j < |xs| :: xs[i].id != xs[j].id && !Unranked(xs[i], xs[j], mode)
  }

  predicate Ordered(xs: seq<View>, mode: Mode) {
    forall i, j | 0 <= i < j < |xs| :: Less(xs[i], xs[j], mode)
  }

  lemma OrderedHead(xs: seq<View>, ys: seq<View>, mode: Mode)
    requires multiset(xs) == multiset(ys) && Ordered(xs, mode) && Ordered(ys, mode) && xs != [] && ys != []
    ensures xs[0] == ys[0]
  {
    assert xs[0] in multiset(ys) && ys[0] in multiset(xs);
    var i :| 0 <= i < |ys| && ys[i] == xs[0];
    var j :| 0 <= j < |xs| && xs[j] == ys[0];
    LessIsStrictOrder(xs[0], ys[0], xs[0], mode);
    hide Less;
  }

  lemma TailCounts(xs: seq<View>)
    requires xs != []
    ensures multiset(xs[1..]) == multiset(xs) - multiset{xs[0]}
  {
    assert xs == [xs[0]] + xs[1..];
  }

  /** An ordered list of the same accounts is the only one. */
  lemma {:induction false} OrderedUnique(xs: seq<View>, ys: seq<View>, mode: Mode)
    requires multiset(xs) == multiset(ys) && Ordered(xs, mode) && Ordered(ys, mode)
    ensures xs == ys
    decreases |xs|
  {
    hide Less;
    assert |multiset(xs)| == |xs| && |multiset(ys)| == |ys|;
    if xs != [] {
      OrderedHead(xs, ys, mode);
      TailCounts(xs);
      TailCounts(ys);
      assert Ordered(xs[1..], mode) && Ordered(ys[1..], mode);
      OrderedUnique(xs[1..], ys[1..], mode);
      assert xs == [xs[0]] + xs[1..] && ys == [ys[0]] + ys[1..];
    }
  }

  // ---- Sorting ----

  /** Where an account goes: behind the last one it does not come before. */
  function Place(xs: seq<View>, a: View, mode: Mode): (i: nat)
    ensures i <= |xs| && (i > 0 ==> !Less(a, xs[i - 1], mode))
    ensures forall k | i <= k < |xs| :: Less(a, xs[k], mode)
  {
    if xs == [] || !Less(a, xs[|xs| - 1], mode) then |xs| else Place(xs[..|xs| - 1], a, mode)
  }

  function Inserted(xs: seq<View>, a: View, mode: Mode): seq<View> {
    var i := Place(xs, a, mode);
    xs[..i] + [a] + xs[i..]
  }

  function Sorted(xs: seq<View>, mode: Mode): (ys: seq<View>)
    ensures |ys| == |xs|
  {
    if xs == [] then [] else Inserted(Sorted(xs[..|xs| - 1], mode), xs[|xs| - 1], mode)
  }

  lemma InsertedCounts(xs: seq<View>, a: View, i: nat)
    requires i <= |xs|
    ensures multiset(xs[..i] + [a] + xs[i..]) == multiset(xs) + multiset{a}
  {
    assert xs == xs[..i] + xs[i..];
  }

  lemma {:induction false} SortedPermutes(xs: seq<View>, mode: Mode)
    ensures multiset(Sorted(xs, mode)) == multiset(xs)
    decreases |xs|
  {
    hide Less, Place;
    if xs != [] {
      var rest, a := xs[..|xs| - 1], xs[|xs| - 1];
      var ys := Sorted(rest, mode);
      SortedPermutes(rest, mode);
      InsertedCounts(ys, a, Place(ys, a, mode));
      assert xs == rest + [a];
    }
  }

  lemma SortedMembers(xs: seq<View>, mode: Mode, x: View)
    ensures x in Sorted(xs, mode) <==> x in xs
  {
    SortedPermutes(xs, mode);
    assert x in multiset(Sorted(xs, mode)) <==> x in multiset(xs);
  }

  lemma {:induction false} SortedOrders(xs: seq<View>, mode: Mode)
    requires Ranked(xs, mode)
    ensures Ordered(Sorted(xs, mode), mode)
    decreases |xs|
  {
    if xs != [] {
      var n := |xs| - 1;
      SortedOrders(xs[..n], mode);
      SortedPermutes(xs[..n], mode);
      RankedPart(xs, n, Sorted(xs[..n], mode), mode);
      InsertOrdered(Sorted(xs[..n], mode), xs[n], mode);
    }
  }

  lemma InsertOrdered(xs: seq<View>, a: View, mode: Mode)
    requires Ordered(xs, mode) && Ranked(xs + [a], mode)
    ensures Ordered(Inserted(xs, a, mode), mode)
  {
    var i := Place(xs, a, mode);
    forall k | 0 <= k < i ensures Less(xs[k], a, mode) {
      assert (xs + [a])[i - 1] == xs[i - 1] && (xs + [a])[|xs|] == a;
      LessIsTotalIff(xs[i - 1], a, mode);
      LessIsStrictOrder(xs[k], xs[i - 1], a, mode);
    }
    var ys := Inserted(xs, a, mode);
    forall m, n | 0 <= m < n < |ys| ensures Less(ys[m], ys[n], mode) {
      if m < i && n > i { LessIsStrictOrder(xs[m], a, xs[n - 1], mode); }
    }
  }

  method Insert(xs: seq<View>, a: View, mode: Mode) returns (ys: seq<View>)
    ensures ys == Inserted(xs, a, mode)
  {
    hide Less;
    var i := |xs|;
    assert xs[..i] == xs;
    while i > 0 && Less(a, xs[i - 1], mode)
      invariant 0 <= i <= |xs| && Place(xs, a, mode) == Place(xs[..i], a, mode)
    {
      assert xs[..i][..i - 1] == xs[..i - 1];
      i := i - 1;
    }
    assert Place(xs[..i], a, mode) == i;
    ys := xs[..i] + [a] + xs[i..];
  }

  /** A rearrangement, sorted whatever the order the accounts came in; where the order leaves
      two unranked, the one given first stays in front. */
  method Sort(xs: seq<View>, mode: Mode) returns (ys: seq<View>)
    ensures ys == Sorted(xs, mode) && multiset(ys) == multiset(xs)
    ensures Ranked(xs, mode) ==> Ordered(ys, mode)
  {
    ys := [];
    var n := 0;
    while n < |xs|
      invariant 0 <= n <= |xs| && ys == Sorted(xs[..n], mode)
    {
      assert xs[..n + 1][..n] == xs[..n];
      ys := Insert(ys, xs[n], mode);
      n := n + 1;
    }
    assert xs[..n] == xs;
    SortedPermutes(xs, mode);
    if Ranked(xs, mode) { SortedOrders(xs, mode); }
  }

  lemma RankedPart(xs: seq<View>, n: nat, ys: seq<View>, mode: Mode)
    requires Ranked(xs, mode) && n < |xs| && multiset(ys) == multiset(xs[..n]) && Ordered(ys, mode)
    ensures Ranked(ys + [xs[n]], mode)
  {
    var zs := ys + [xs[n]];
    forall i | 0 <= i < |ys| ensures ys[i].id != xs[n].id && !Unranked(ys[i], xs[n], mode) {
      assert ys[i] in multiset(xs[..n]);
      var k :| 0 <= k < |xs[..n]| && xs[..n][k] == ys[i];
    }
    forall i, j | 0 <= i < j < |ys| ensures ys[i].id != ys[j].id && !Unranked(ys[i], ys[j], mode) {
      assert Less(ys[i], ys[j], mode);
      assert ys[i] in multiset(xs[..n]) && ys[j] in multiset(xs[..n]);
      var k :| 0 <= k < |xs[..n]| && xs[..n][k] == ys[i];
      var l :| 0 <= l < |xs[..n]| && xs[..n][l] == ys[j];
      LessIsStrictOrder(ys[i], ys[j], ys[i], mode);
    }
  }

  // ---- Selecting ----

  datatype Candidate = Candidate(id: Option<nat>, codex: bool)

  datatype Snapshot = Snapshot(accounts: seq<View>, active: set<nat>, mode: Mode)

  function Eligible(s: Snapshot, candidates: seq<Candidate>): set<nat> {
    set n | 0 <= n < |candidates| && candidates[n].id.Some? && candidates[n].codex && candidates[n].id.value in s.active
      :: candidates[n].id.value
  }

  predicate InPool(a: View, eligible: set<nat>, skip: set<Instance>, now: int, class_: Class) {
    a.instance !in skip && a.id in eligible && Classify(a, now) == class_
  }

  /** The accounts of one class, in the snapshot's order. */
  function Pool(accounts: seq<View>, eligible: set<nat>, skip: set<Instance>, now: int, class_: Class): seq<View> {
    if accounts == [] then []
    else
      var a := accounts[|accounts| - 1];
      Pool(accounts[..|accounts| - 1], eligible, skip, now, class_) +
      (if InPool(a, eligible, skip, now, class_) then [a] else [])
  }

  /** Each account of the class is there as often as in the snapshot, and no other is. */
  lemma {:induction false} PoolCounts(accounts: seq<View>, eligible: set<nat>, skip: set<Instance>, now: int,
                                      class_: Class, v: View)
    ensures multiset(Pool(accounts, eligible, skip, now, class_))[v] ==
            if InPool(v, eligible, skip, now, class_) then multiset(accounts)[v] else 0
    decreases |accounts|
  {
    if accounts != [] {
      var n := |accounts| - 1;
      PoolCounts(accounts[..n], eligible, skip, now, class_, v);
      assert accounts == accounts[..n] + [accounts[n]];
    }
  }

  lemma PoolMember(accounts: seq<View>, eligible: set<nat>, skip: set<Instance>, now: int, class_: Class, v: View)
    ensures v in Pool(accounts, eligible, skip, now, class_) <==>
            v in accounts && InPool(v, eligible, skip, now, class_)
  {
    PoolCounts(accounts, eligible, skip, now, class_, v);
    var pool := Pool(accounts, eligible, skip, now, class_);
    assert v in multiset(pool) <==> v in pool;
    assert v in multiset(accounts) <==> v in accounts;
  }

  predicate Least(a: View, pool: seq<View>, mode: Mode) {
    a in pool && forall x | x in pool && x != a :: Less(a, x, mode)
  }

  /** The best class that offers anyone. */
  function BestPool(s: Snapshot, eligible: set<nat>, skip: set<Instance>, now: int): seq<View> {
    var preferred := Pool(s.accounts, eligible, skip, now, Preferred);
    if preferred != [] then preferred else Pool(s.accounts, eligible, skip, now, Opportunistic)
  }

  /** The account before all others of its pool, if there is one. */
  ghost function Choice(s: Snapshot, eligible: set<nat>, skip: set<Instance>, now: int): Option<View> {
    var pool := BestPool(s, eligible, skip, now);
    if exists a :: Least(a, pool, s.mode) then (var a :| Least(a, pool, s.mode); Some(a)) else None
  }

  lemma LeastUnique(pool: seq<View>, other: seq<View>, mode: Mode, a: View, b: View)
    requires multiset(pool) == multiset(other) && Least(a, pool, mode) && Least(b, other, mode)
    ensures a == b
  {
    assert a in multiset(other) && b in multiset(pool);
    LessIsStrictOrder(a, b, a, mode);
  }

  lemma SamePool(xs: seq<View>, ys: seq<View>, eligible: set<nat>, skip: set<Instance>, now: int, class_: Class)
    requires multiset(xs) == multiset(ys)
    ensures multiset(Pool(xs, eligible, skip, now, class_)) == multiset(Pool(ys, eligible, skip, now, class_))
  {
    var p, q := multiset(Pool(xs, eligible, skip, now, class_)), multiset(Pool(ys, eligible, skip, now, class_));
    forall v: View ensures p[v] == q[v] {
      PoolCounts(xs, eligible, skip, now, class_, v);
      PoolCounts(ys, eligible, skip, now, class_, v);
    }
  }

  lemma {:induction false} RankedOnce(xs: seq<View>, mode: Mode, x: View)
    requires Ranked(xs, mode)
    ensures multiset(xs)[x] <= 1
    decreases |xs|
  {
    if xs != [] {
      var n := |xs| - 1;
      RankedOnce(xs[..n], mode, x);
      assert xs == xs[..n] + [xs[n]];
      assert xs[n] !in xs[..n];
    }
  }

  lemma RankedPermutes(xs: seq<View>, ys: seq<View>, mode: Mode)
    requires multiset(xs) == multiset(ys) && Ranked(xs, mode)
    ensures Ranked(ys, mode)
  {
    forall i, j | 0 <= i < j < |ys| ensures ys[i].id != ys[j].id && !Unranked(ys[i], ys[j], mode) {
      RankedOnce(xs, mode, ys[i]);
      assert ys == ys[..j] + ys[j..];
      assert ys[..j][i] == ys[i] && ys[j..][0] == ys[j];
      assert ys[i] in multiset(xs) && ys[j] in multiset(xs);
      var k :| 0 <= k < |xs| && xs[k] == ys[i];
      var l :| 0 <= l < |xs| && xs[l] == ys[j];
    }
  }

  /** The choice does not depend on the order of the snapshot: on any rearrangement of the
      accounts the same one is chosen, or none, and the order ranks them all or does not. */
  lemma ChoiceIgnoresOrder(s: Snapshot, t: Snapshot, eligible: set<nat>, skip: set<Instance>, now: int)
    requires multiset(s.accounts) == multiset(t.accounts) && s.mode == t.mode
    ensures Choice(s, eligible, skip, now) == Choice(t, eligible, skip, now)
    ensures Ranked(BestPool(s, eligible, skip, now), s.mode) <==> Ranked(BestPool(t, eligible, skip, now), t.mode)
    ensures BestPool(s, eligible, skip, now) == [] <==> BestPool(t, eligible, skip, now) == []
  {
    var p, q := BestPool(s, eligible, skip, now), BestPool(t, eligible, skip, now);
    SameBest(s, t, eligible, skip, now);
    assert |multiset(p)| == |p| && |multiset(q)| == |q|;
    if Ranked(p, s.mode) { RankedPermutes(p, q, s.mode); }
    if Ranked(q, s.mode) { RankedPermutes(q, p, s.mode); }
    hide BestPool, Ranked, Less;
    if a :| Least(a, p, s.mode) { LeastPermutes(p, q, s.mode, a); }
    if b :| Least(b, q, s.mode) { LeastPermutes(q, p, s.mode, b); }
    var c, d := Choice(s, eligible, skip, now), Choice(t, eligible, skip, now);
    if c.Some? { LeastUnique(p, q, s.mode, c.value, d.value); }
  }

  lemma LeastPermutes(p: seq<View>, q: seq<View>, mode: Mode, a: View)
    requires multiset(p) == multiset(q) && Least(a, p, mode)
    ensures Least(a, q, mode)
  {
    assert a in multiset(q);
    forall x | x in q && x != a ensures Less(a, x, mode) { assert x in multiset(p); }
  }

  lemma SameBest(s: Snapshot, t: Snapshot, eligible: set<nat>, skip: set<Instance>, now: int)
    requires multiset(s.accounts) == multiset(t.accounts)
    ensures multiset(BestPool(s, eligible, skip, now)) == multiset(BestPool(t, eligible, skip, now))
  {
    SamePool(s.accounts, t.accounts, eligible, skip, now, Preferred);
    SamePool(s.accounts, t.accounts, eligible, skip, now, Opportunistic);
    var p, q := Pool(s.accounts, eligible, skip, now, Preferred), Pool(t.accounts, eligible, skip, now, Preferred);
    assert |multiset(p)| == |p| && |multiset(q)| == |q|;
  }

  // ---- When the order of the snapshot decides ----

  /** No account of the pool comes before it. */
  ghost predicate Minimal(a: View, pool: seq<View>, mode: Mode) {
    a in pool && forall x | x in pool :: !Less(x, a, mode)
  }

  lemma {:induction false} BelowIsMinimal(pool: seq<View>, mode: Mode, a: View) returns (m: View)
    requires a in pool
    ensures Minimal(m, pool, mode) && (m == a || Less(m, a, mode))
    decreases |Before(pool, mode, a)|
  {
    if x :| x in pool && Less(x, a, mode) {
      BeforeShrinks(pool, mode, x, a);
      m := BelowIsMinimal(pool, mode, x);
      LessIsStrictOrder(m, x, a, mode);
    } else {
      m := a;
    }
  }

  ghost function Before(pool: seq<View>, mode: Mode, a: View): set<View> {
    set x | x in pool && Less(x, a, mode)
  }

  lemma BeforeShrinks(pool: seq<View>, mode: Mode, x: View, a: View)
    requires x in pool && Less(x, a, mode)
    ensures |Before(pool, mode, x)| < |Before(pool, mode, a)|
  {
    var p, q := Before(pool, mode, x), Before(pool, mode, a);
    forall y | y in p ensures y in q { LessIsStrictOrder(y, x, a, mode); }
    LessIsStrictOrder(x, x, x, mode);
    assert x in q && x !in p;
    SmallerSet(p, q - {x});
  }

  lemma {:induction false} SmallerSet(p: set<View>, q: set<View>)
    requires p <= q
    ensures |p| <= |q|
    decreases p
  {
    if p != {} {
      var x :| x in p;
      SmallerSet(p - {x}, q - {x});
    }
  }

  /** Nothing passes a minimal account that is in front, and a least one passes everything. */
  lemma {:induction false} FrontStays(xs: seq<View>, mode: Mode)
    requires xs != [] && Minimal(xs[0], xs, mode)
    ensures Sorted(xs, mode)[0] == xs[0]
    decreases |xs|
  {
    if |xs| > 1 {
      var rest, a := xs[..|xs| - 1], xs[|xs| - 1];
      assert rest[0] == xs[0] && forall x | x in rest :: x in xs;
      FrontStays(rest, mode);
      var ys := Sorted(rest, mode);
      assert !Less(a, ys[0], mode);
      assert Place(ys, a, mode) > 0;
    }
  }

  lemma {:induction false} LeastComesFirst(xs: seq<View>, mode: Mode, a: View)
    requires Least(a, xs, mode)
    ensures Sorted(xs, mode)[0] == a
    decreases |xs|
  {
    hide Less;
    var n := |xs| - 1;
    var rest, last := xs[..n], xs[n];
    assert forall x | x in rest :: x in xs;
    if a in rest {
      assert Least(a, rest, mode);
      LeastComesFirst(rest, mode, a);
      LastStaysBehind(Sorted(rest, mode), last, mode);
    } else {
      assert last == a;
      GoesToFront(rest, a, mode);
    }
  }

  lemma LastStaysBehind(ys: seq<View>, x: View, mode: Mode)
    requires ys != [] && (x != ys[0] ==> Less(ys[0], x, mode))
    ensures Inserted(ys, x, mode)[0] == ys[0]
  {
    LessIsStrictOrder(ys[0], x, ys[0], mode);
    assert x == ys[0] || !Less(x, ys[0], mode);
  }

  lemma GoesToFront(rest: seq<View>, a: View, mode: Mode)
    requires forall x | x in rest :: Less(a, x, mode)
    ensures Inserted(Sorted(rest, mode), a, mode)[0] == a
  {
    hide Less;
    var ys := Sorted(rest, mode);
    var i := Place(ys, a, mode);
    if i > 0 {
      SortedMembers(rest, mode, ys[i - 1]);
    }
  }

  /** Without an account before all others there are two minimal ones. */
  lemma TwoMinimal(pool: seq<View>, mode: Mode) returns (m: View, k: View)
    requires pool != [] && !exists a :: Least(a, pool, mode)
    ensures Minimal(m, pool, mode) && Minimal(k, pool, mode) && m != k
  {
    m := BelowIsMinimal(pool, mode, pool[0]);
    assert !Least(m, pool, mode);
    var x :| x in pool && x != m && !Less(m, x, mode);
    k := BelowIsMinimal(pool, mode, x);
  }

  lemma {:induction false} PoolFront(m: View, xs: seq<View>, eligible: set<nat>, skip: set<Instance>, now: int,
                                     class_: Class)
    requires InPool(m, eligible, skip, now, class_)
    ensures var pool := Pool([m] + xs, eligible, skip, now, class_); pool != [] && pool[0] == m
    decreases |xs|
  {
    var all := [m] + xs;
    if xs == [] {
      assert all[..0] == [];
    } else {
      assert all[..|all| - 1] == [m] + xs[..|xs| - 1];
      PoolFront(m, xs[..|xs| - 1], eligible, skip, now, class_);
    }
  }

  lemma MovedToFront(xs: seq<View>, m: View) returns (rest: seq<View>)
    requires m in xs
    ensures multiset([m] + rest) == multiset(xs)
  {
    var k :| 0 <= k < |xs| && xs[k] == m;
    rest := xs[..k] + xs[k + 1..];
    assert xs == xs[..k] + [m] + xs[k + 1..];
  }

  lemma MinimalPermutes(p: seq<View>, q: seq<View>, mode: Mode, m: View)
    requires multiset(p) == multiset(q) && Minimal(m, p, mode)
    ensures Minimal(m, q, mode)
  {
    assert m in multiset(q);
    forall x | x in q ensures !Less(x, m, mode) { assert x in multiset(p); }
  }

  /** A snapshot that lists a minimal account first. */
  lemma ListedFirst(s: Snapshot, eligible: set<nat>, skip: set<Instance>, now: int, m: View) returns (t: Snapshot)
    requires Minimal(m, BestPool(s, eligible, skip, now), s.mode)
    ensures SameAccounts(s, t) && SelectedHead(t, eligible, skip, now) == Some(m)
  {
    hide Pool, Less, Classify, BestPool, Sorted;
    BestMember(s, eligible, skip, now, m);
    var rest := MovedToFront(s.accounts, m);
    t := s.(accounts := [m] + rest);
    SameBest(s, t, eligible, skip, now);
    PoolFront(m, rest, eligible, skip, now, Classify(m, now));
    FirstOfBest(s, t, eligible, skip, now, m);
    MinimalPermutes(BestPool(s, eligible, skip, now), BestPool(t, eligible, skip, now), s.mode, m);
    FrontStays(BestPool(t, eligible, skip, now), t.mode);
  }

  lemma BestMember(s: Snapshot, eligible: set<nat>, skip: set<Instance>, now: int, m: View)
    requires m in BestPool(s, eligible, skip, now)
    ensures m in s.accounts && InPool(m, eligible, skip, now, Classify(m, now))
  {
    PoolMember(s.accounts, eligible, skip, now, Preferred, m);
    PoolMember(s.accounts, eligible, skip, now, Opportunistic, m);
  }

  /** The class of a best account is the best in any arrangement. */
  lemma FirstOfBest(s: Snapshot, t: Snapshot, eligible: set<nat>, skip: set<Instance>, now: int, m: View)
    requires multiset(s.accounts) == multiset(t.accounts) && m in BestPool(s, eligible, skip, now)
    requires var pool := Pool(t.accounts, eligible, skip, now, Classify(m, now)); pool != [] && pool[0] == m
    ensures var pool := BestPool(t, eligible, skip, now); pool != [] && pool[0] == m
  {
    SamePool(s.accounts, t.accounts, eligible, skip, now, Preferred);
    PoolMember(s.accounts, eligible, skip, now, Preferred, m);
    PoolMember(s.accounts, eligible, skip, now, Opportunistic, m);
    var p, q := Pool(s.accounts, eligible, skip, now, Preferred), Pool(t.accounts, eligible, skip, now, Preferred);
    assert |multiset(p)| == |p| && |multiset(q)| == |q|;
    hide Pool, Classify;
  }

  /** Over all arrangements of a snapshot the account selected is the same if and only if one
      account of the best class comes before all others of it. */
  lemma SelectionIgnoresOrderIff(s: Snapshot, eligible: set<nat>, skip: set<Instance>, now: int)
    requires BestPool(s, eligible, skip, now) != []
    ensures (forall t: Snapshot | SameAccounts(s, t) ::
               SelectedHead(t, eligible, skip, now) == SelectedHead(s, eligible, skip, now))
            <==> Choice(s, eligible, skip, now).Some?
  {
    hide Pool, Less, Sorted, BestPool;
    var pool := BestPool(s, eligible, skip, now);
    if a :| Least(a, pool, s.mode) {
      LeastComesFirst(pool, s.mode, a);
      forall t: Snapshot | SameAccounts(s, t) ensures SelectedHead(t, eligible, skip, now) == Some(a) {
        SameBest(s, t, eligible, skip, now);
        LeastPermutes(pool, BestPool(t, eligible, skip, now), s.mode, a);
        LeastComesFirst(BestPool(t, eligible, skip, now), s.mode, a);
      }
    } else {
      var m, k := TwoMinimal(pool, s.mode);
      var t := ListedFirst(s, eligible, skip, now, m);
      var u := ListedFirst(s, eligible, skip, now, k);
      assert SelectedHead(t, eligible, skip, now) != SelectedHead(u, eligible, skip, now);
    }
  }

  ghost predicate SameAccounts(s: Snapshot, t: Snapshot) {
    multiset(s.accounts) == multiset(t.accounts) && s.mode == t.mode
  }

  /** The account Select returns. */
  ghost function SelectedHead(s: Snapshot, eligible: set<nat>, skip: set<Instance>, now: int): Option<View> {
    var pool := BestPool(s, eligible, skip, now);
    if pool == [] then None else Some(Sorted(pool, s.mode)[0])
  }

  /** The smallest case: of two accounts the order leaves unranked, the first given leads. */
  lemma UnrankedPairKeepsOrder(a: View, b: View, mode: Mode)
    requires Unranked(a, b, mode)
    ensures Sorted([a, b], mode)[0] == a && Sorted([b, a], mode)[0] == b && a != b
  {
    FrontStays([a, b], mode);
    FrontStays([b, a], mode);
  }

  // ---- Who is offered, and who comes first ----

  /** Never offered, whatever the order. */
  predicate Barred(a: View, now: int) {
    || a.authBlocked || a.temporaryUnavailable || a.circuit == OpenCircuit || a.trial != NoTrial
    || (a.exhausted && a.resetAt > now)
    || (a.cache == Stale && !a.lastKnownAvailable)
  }

  /** Offered as a sure thing exactly with a current cache that shows quota; as a chance
      exactly when the cache knows nothing better; and never when barred. */
  lemma OfferedExactly(a: View, now: int)
    ensures Classify(a, now) == Excluded <==> Barred(a, now)
    ensures Classify(a, now) == Preferred <==>
              !Barred(a, now) && (a.cache == Fresh || a.cache == Aging) && !a.exhausted
    ensures Classify(a, now) == Opportunistic <==>
              !Barred(a, now) && (a.cache == UnknownCache || a.cache == Stale || a.exhausted)
  {}

  /** The criteria the order always decides: CPA priority, then plugin priority, then, in
      priority mode, monthly accounts before others. */
  predicate NotBehind(a: View, b: View, mode: Mode) {
    || a.cpaPriority > b.cpaPriority
    || (a.cpaPriority == b.cpaPriority && a.pluginPriority > b.pluginPriority)
    || (a.cpaPriority == b.cpaPriority && a.pluginPriority == b.pluginPriority
        && (mode == PriorityMode && b.family == Monthly ==> a.family == Monthly))
  }

  /** The whole list of criteria: after those the highest quota pressure, then the earliest
      expiry, none counting as last, then the most quota remaining, then the smaller id. */
  predicate Ahead(a: View, b: View, mode: Mode) {
    && NotBehind(a, b, mode)
    && (NotBehind(b, a, mode) ==>
          && (mode == PriorityMode ==> a.family == b.family)
          && a.pressure >= b.pressure
          && (a.pressure == b.pressure ==>
                && (b.expiry != 0 ==> a.expiry != 0 && a.expiry <= b.expiry)
                && (a.expiry == b.expiry ==>
                      a.remaining >= b.remaining && (a.remaining == b.remaining ==> a.id < b.id))))
  }

  lemma LessIsAhead(a: View, b: View, mode: Mode)
    requires a.expiry >= 0 && b.expiry >= 0
    ensures Less(a, b, mode) <==> Ahead(a, b, mode)
  {}

  /** Ranked by those criteria from the front to the back. */
  ghost predicate Tiered(xs: seq<View>, mode: Mode) {
    forall m, n | 0 <= m < n < |xs| :: NotBehind(xs[m], xs[n], mode)
  }

  lemma NotBehindTrans(a: View, b: View, c: View, mode: Mode)
    requires NotBehind(a, b, mode) && NotBehind(b, c, mode)
    ensures NotBehind(a, c, mode)
  {}

  lemma LessTier(a: View, b: View, mode: Mode)
    ensures Less(a, b, mode) ==> NotBehind(a, b, mode)
    ensures !Less(a, b, mode) ==> NotBehind(b, a, mode)
  {}

  lemma InsertTiered(xs: seq<View>, a: View, mode: Mode)
    requires Tiered(xs, mode)
    ensures Tiered(Inserted(xs, a, mode), mode)
  {
    var i := Place(xs, a, mode);
    forall k | 0 <= k < i ensures NotBehind(xs[k], a, mode) {
      LessTier(a, xs[i - 1], mode);
      if k < i - 1 { NotBehindTrans(xs[k], xs[i - 1], a, mode); }
    }
    forall k | i <= k < |xs| ensures NotBehind(a, xs[k], mode) { LessTier(a, xs[k], mode); }
    hide NotBehind, Less, Place;
  }

  lemma {:induction false} SortedTiered(xs: seq<View>, mode: Mode)
    ensures Tiered(Sorted(xs, mode), mode)
    decreases |xs|
  {
    if xs != [] {
      hide NotBehind, Less, Place, Inserted, Tiered;
      SortedTiered(xs[..|xs| - 1], mode);
      InsertTiered(Sorted(xs[..|xs| - 1], mode), xs[|xs| - 1], mode);
    } else {
      assert Sorted(xs, mode) == [];
    }
  }

  /** No account of its class has a higher CPA priority than the one selected, nor with the
      same one a higher plugin priority, nor is it monthly in priority mode where the one
      selected is not; all this even where the order leaves accounts unranked. */
  lemma SelectedLeadsTier(s: Snapshot, eligible: set<nat>, skip: set<Instance>, now: int, x: View)
    requires x in BestPool(s, eligible, skip, now)
    ensures var v := SelectedHead(s, eligible, skip, now); v.Some? && NotBehind(v.value, x, s.mode)
  {
    var pool := BestPool(s, eligible, skip, now);
    SortedTiered(pool, s.mode);
    SortedMembers(pool, s.mode, x);
    hide NotBehind, BestPool, Sorted;
    var ys := Sorted(pool, s.mode);
    var k :| 0 <= k < |ys| && ys[k] == x;
    NotBehindSelf(x, s.mode);
  }

  /** Offered by the caller, known, not skipped, and not barred. */
  ghost predicate Selectable(s: Snapshot, candidates: seq<Candidate>, skip: set<Instance>, now: int, v: View) {
    && v in s.accounts && v.instance !in skip && !Barred(v, now) && v.id in s.active
    && exists n :: 0 <= n < |candidates| && candidates[n] == Candidate(Some(v.id), true)
  }

  /** Shown to have quota by a current cache. */
  predicate Sure(v: View) {
    (v.cache == Fresh || v.cache == Aging) && !v.exhausted
  }

  /** Someone is selected exactly when someone is selectable; that one is, and has quota for
      sure if anyone selectable has. */
  lemma SelectedExactly(s: Snapshot, candidates: seq<Candidate>, skip: set<Instance>, now: int)
    ensures var v := SelectedHead(s, Eligible(s, candidates), skip, now);
            && (v.Some? <==> exists x :: x in s.accounts && Selectable(s, candidates, skip, now, x))
            && (v.Some? ==>
                  && Selectable(s, candidates, skip, now, v.value)
                  && (Sure(v.value) <==>
                        exists x :: x in s.accounts && Selectable(s, candidates, skip, now, x) && Sure(x)))
  {
    var eligible, v := Eligible(s, candidates), SelectedHead(s, Eligible(s, candidates), skip, now);
    HeadMember(s, eligible, skip, now);
    hide SelectedHead, Selectable, Sure, InPool, Eligible;
    if v.Some? { SelectableMeans(s, candidates, skip, now, v.value); }
    forall x | x in s.accounts && Selectable(s, candidates, skip, now, x)
      ensures v.Some? && (Sure(x) ==> Sure(v.value))
    {
      SelectableMeans(s, candidates, skip, now, x);
    }
  }

  /** The head is of the first class that has a member. */
  lemma HeadMember(s: Snapshot, eligible: set<nat>, skip: set<Instance>, now: int)
    ensures var v := SelectedHead(s, eligible, skip, now);
            && (v.Some? ==>
                  && v.value in s.accounts
                  && (|| InPool(v.value, eligible, skip, now, Preferred)
                      || InPool(v.value, eligible, skip, now, Opportunistic)))
            && (forall x | x in s.accounts && InPool(x, eligible, skip, now, Preferred) ::
                  v.Some? && InPool(v.value, eligible, skip, now, Preferred))
            && (forall x | x in s.accounts && InPool(x, eligible, skip, now, Opportunistic) :: v.Some?)
  {
    var pool, v := BestPool(s, eligible, skip, now), SelectedHead(s, eligible, skip, now);
    SortedPermutes(pool, s.mode);
    hide InPool;
    if v.Some? {
      SortedMembers(pool, s.mode, v.value);
      PoolMember(s.accounts, eligible, skip, now, Preferred, v.value);
      PoolMember(s.accounts, eligible, skip, now, Opportunistic, v.value);
    }
    forall x | x in s.accounts ensures InPool(x, eligible, skip, now, Opportunistic) ==> v.Some? {
      PoolMember(s.accounts, eligible, skip, now, Opportunistic, x);
    }
    forall x | x in s.accounts
      ensures InPool(x, eligible, skip, now, Preferred) ==> v.Some? && InPool(v.value, eligible, skip, now, Preferred)
    {
      PoolMember(s.accounts, eligible, skip, now, Preferred, x);
    }
  }

  lemma SelectableMeans(s: Snapshot, candidates: seq<Candidate>, skip: set<Instance>, now: int, v: View)
    requires v in s.accounts
    ensures var eligible := Eligible(s, candidates);
            && (Selectable(s, candidates, skip, now, v) <==>
                  InPool(v, eligible, skip, now, Preferred) || InPool(v, eligible, skip, now, Opportunistic))
            && (Selectable(s, candidates, skip, now, v) ==> (InPool(v, eligible, skip, now, Preferred) <==> Sure(v)))
  {
    OfferedExactly(v, now);
    if v.id in Eligible(s, candidates) {
      var n :| 0 <= n < |candidates| && candidates[n].id == Some(v.id) && candidates[n].codex && v.id in s.active;
      assert candidates[n] == Candidate(Some(v.id), true);
    }
  }

  lemma NotBehindSelf(a: View, mode: Mode)
    ensures NotBehind(a, a, mode)
  {}

  /** Where one account is ahead of all others of its class by all criteria, it is the one. */
  lemma SelectedIsAhead(s: Snapshot, eligible: set<nat>, skip: set<Instance>, now: int, a: View)
    requires var pool := BestPool(s, eligible, skip, now);
             && a in pool && (forall x | x in pool :: x.expiry >= 0)
             && forall x | x in pool && x != a :: Ahead(a, x, s.mode)
    ensures SelectedHead(s, eligible, skip, now) == Some(a)
  {
    var pool := BestPool(s, eligible, skip, now);
    forall x | x in pool && x != a ensures Less(a, x, s.mode) { LessIsAhead(a, x, s.mode); }
    hide BestPool, Sorted, Less, Ahead;
    LeastComesFirst(pool, s.mode, a);
  }

  // ---- The program's own form ----

  datatype Selected = NoneSelectable | Chosen(view: View, class_: Class, ordered: seq<View>)

  method EligibleIds(s: Snapshot, candidates: seq<Candidate>) returns (ids: set<nat>)
    ensures ids == Eligible(s, candidates)
  {
    ids := {};
    var n := 0;
    while n < |candidates|
      invariant 0 <= n <= |candidates| && ids == Eligible(s, candidates[..n])
    {
      EligibleAdd(s, candidates, n);
      if candidates[n].id.Some? && candidates[n].codex && candidates[n].id.value in s.active {
        ids := ids + {candidates[n].id.value};
      }
      n := n + 1;
    }
    assert candidates[..n] == candidates;
  }

  lemma EligibleAdd(s: Snapshot, candidates: seq<Candidate>, n: nat)
    requires n < |candidates|
    ensures var c := candidates[n];
            Eligible(s, candidates[..n + 1]) == Eligible(s, candidates[..n]) +
              (if c.id.Some? && c.codex && c.id.value in s.active then {c.id.value} else {})
  {
    var c, a, b := candidates[n], Eligible(s, candidates[..n]), Eligible(s, candidates[..n + 1]);
    forall id: nat | id in a ensures id in b {
      var m :| 0 <= m < n && candidates[..n][m].id == Some(id) && candidates[..n][m].codex && id in s.active;
      assert candidates[..n + 1][m] == candidates[..n][m];
    }
    forall id: nat | id in b ensures id in a || (c.id == Some(id) && c.codex && id in s.active) {
      var m :| 0 <= m < n + 1 && candidates[..n + 1][m].id == Some(id) && candidates[..n + 1][m].codex
               && id in s.active;
      if m < n { assert candidates[..n][m] == candidates[..n + 1][m]; }
    }
    assert candidates[..n + 1][n] == c;
  }

  /** Fill one list per class, sort it, and take the head of the first that is not empty. */
  method Select(s: Snapshot, candidates: seq<Candidate>, now: int, skip: set<Instance>) returns (r: Selected)
    ensures r.NoneSelectable? <==> BestPool(s, Eligible(s, candidates), skip, now) == []
    ensures SelectedHead(s, Eligible(s, candidates), skip, now) == if r.Chosen? then Some(r.view) else None
    ensures r.Chosen? ==>
      var pool := BestPool(s, Eligible(s, candidates), skip, now);
      && r.view in pool && r.view.instance !in skip && Classify(r.view, now) == r.class_ != Excluded
      && r.ordered == Sorted(pool, s.mode) && multiset(r.ordered) == multiset(pool) && r.view == r.ordered[0]
      && (Ranked(pool, s.mode) ==> Ordered(r.ordered, s.mode) && Least(r.view, pool, s.mode))
    ensures var choice := Choice(s, Eligible(s, candidates), skip, now);
            choice.Some? ==> r.Chosen? && r.view == choice.value
  {
    var eligible := EligibleIds(s, candidates);
    var preferred: seq<View>, opportunistic: seq<View> := [], [];
    var n := 0;
    while n < |s.accounts|
      invariant 0 <= n <= |s.accounts|
      invariant preferred == Pool(s.accounts[..n], eligible, skip, now, Preferred)
      invariant opportunistic == Pool(s.accounts[..n], eligible, skip, now, Opportunistic)
    {
      assert s.accounts[..n + 1][..n] == s.accounts[..n];
      var a := s.accounts[n];
      if a.instance !in skip && a.id in eligible {
        match Classify(a, now) {
          case Preferred => preferred := preferred + [a];
          case Opportunistic => opportunistic := opportunistic + [a];
          case Excluded =>
        }
      }
      n := n + 1;
    }
    assert s.accounts[..n] == s.accounts;
    if |preferred| > 0 {
      r := Head(s, eligible, preferred, Preferred, now, skip);
    } else if |opportunistic| > 0 {
      r := Head(s, eligible, opportunistic, Opportunistic, now, skip);
    } else {
      r := NoneSelectable;
    }
    TheChoice(s, eligible, skip, now, r);
  }

  lemma TheChoice(s: Snapshot, eligible: set<nat>, skip: set<Instance>, now: int, r: Selected)
    requires var pool := BestPool(s, eligible, skip, now);
             && (r.NoneSelectable? <==> pool == [])
             && (r.Chosen? ==> r.ordered == Sorted(pool, s.mode) && r.ordered != [] && r.view == r.ordered[0])
    ensures var choice := Choice(s, eligible, skip, now);
            choice.Some? ==> r.Chosen? && r.view == choice.value
  {
    hide BestPool, Less, Sorted;
    var choice := Choice(s, eligible, skip, now);
    if choice.Some? { LeastComesFirst(BestPool(s, eligible, skip, now), s.mode, choice.value); }
  }

  method Head(s: Snapshot, eligible: set<nat>, pool: seq<View>, class_: Class, now: int, skip: set<Instance>)
    returns (r: Selected)
    requires pool == Pool(s.accounts, eligible, skip, now, class_) && pool != []
    ensures r.Chosen? && r.class_ == class_ && r.ordered == Sorted(pool, s.mode) && r.view == r.ordered[0]
    ensures multiset(r.ordered) == multiset(pool)
    ensures r.view in pool && r.view.instance !in skip && Classify(r.view, now) == class_
    ensures Ranked(pool, s.mode) ==> Ordered(r.ordered, s.mode) && Least(r.view, pool, s.mode)
  {
    hide Pool, Less, Classify, Inserted;
    var ordered := Sort(pool, s.mode);
    assert |multiset(ordered)| == |multiset(pool)|;
    assert ordered[0] in multiset(pool);
    PoolMember(s.accounts, eligible, skip, now, class_, ordered[0]);
    r := Chosen(ordered[0], class_, ordered);
    if Ranked(pool, s.mode) { HeadLeast(pool, ordered, s.mode); }
  }

  lemma HeadLeast(pool: seq<View>, ordered: seq<View>, mode: Mode)
    requires multiset(ordered) == multiset(pool) && Ordered(ordered, mode) && ordered != []
    ensures Least(ordered[0], pool, mode)
  {
    assert ordered[0] in multiset(pool);
    forall x | x in pool && x != ordered[0] ensures Less(ordered[0], x, mode) {
      assert x in multiset(ordered);
      var k :| 0 <= k < |ordered| && ordered[k] == x;
    }
  }
}
