/** The pick: choosing an account and beginning its trial, while others use the registry. */
module Picking {
  import opened Basics
  import opened Trials
  import opened Selection

  /** What others do to the registry between two of its uses here. */
  datatype Interference = Interference(instance: Instance, event: Trials.Event)

  function NoiseAt(noise: seq<seq<Interference>>, t: nat): seq<Interference> {
    if t < |noise| then noise[t] else []
  }

  predicate Untouched(es: seq<Interference>, i: Instance) {
    forall n | 0 <= n < |es| :: es[n].instance != i
  }

  ghost predicate NeverTouched(noise: seq<seq<Interference>>, i: Instance) {
    forall t | 0 <= t < |noise| :: Untouched(noise[t], i)
  }

  ghost predicate Silent(noise: seq<seq<Interference>>) {
    forall t | 0 <= t < |noise| :: noise[t] == []
  }

  lemma SilentTouchesNothing(noise: seq<seq<Interference>>, i: Instance)
    requires Silent(noise)
    ensures NeverTouched(noise, i)
  {}

  /** The accounts with what the registry showed for them. */
  ghost predicate OnlyTrialsDiffer(accounts: seq<View>, seen: seq<View>) {
    |seen| == |accounts| && forall k | 0 <= k < |seen| :: seen[k] == accounts[k].(trial := seen[k].trial)
  }

  method Interfere(reg: TrialRegistry, es: seq<Interference>)
    requires reg.Sound()
    modifies reg
    ensures reg.Sound()
    ensures forall i | Untouched(es, i) :: reg.CellOf(i) == old(reg.CellOf(i))
  {
    var n := 0;
    while n < |es|
      invariant 0 <= n <= |es| && reg.Sound()
      invariant forall i | Untouched(es, i) :: reg.CellOf(i) == old(reg.CellOf(i))
    {
      Apply(reg, es[n]);
      n := n + 1;
    }
  }

  method Apply(reg: TrialRegistry, e: Interference)
    requires reg.Sound()
    modifies reg
    ensures reg.Sound() && reg.CellOf(e.instance) == Step(old(reg.CellOf(e.instance)), e.event)
    ensures forall i | i != e.instance :: reg.CellOf(i) == old(reg.CellOf(i))
  {
    if e.event.TryBegin? {
      var ok := reg.TryBegin(e.instance, e.event.now);
    } else {
      reg.Update(e.instance, e.event);
    }
  }

  /** The registry has settled for the account: what was seen is what it still shows. */
  ghost predicate Current(reg: TrialRegistry, seen: View, now: int)
    reads reg
  {
    var c := reg.CellOf(seen.instance);
    Advanced(c, now) == c && seen.trial == StateAt(c, now)
  }

  lemma AdvancedTwice(c: Cell, now: int)
    ensures Advanced(Advanced(c, now), now) == Advanced(c, now)
  {}

  /** A cell the pick has at most advanced. */
  ghost predicate Kept(before: Cell, after: Cell, now: int) {
    after == before || after == Advanced(before, now)
  }

  /** Look up every account that may be chosen. What was seen of an instance nobody else
      touches is still so at the end. */
  method LookAll(reg: TrialRegistry, accounts: seq<View>, eligible: set<nat>, skip: set<Instance>, now: int,
                 noise: seq<seq<Interference>>, start: nat) returns (seen: seq<View>, t: nat)
    requires reg.Sound()
    modifies reg
    ensures reg.Sound() && OnlyTrialsDiffer(accounts, seen)
    ensures forall k | 0 <= k < |seen| && seen[k].instance !in skip && seen[k].id in eligible
                       && NeverTouched(noise, seen[k].instance) :: Current(reg, seen[k], now)
    ensures forall i | NeverTouched(noise, i) :: Kept(old(reg.CellOf(i)), reg.CellOf(i), now)
  {
    seen, t := [], start;
    var n := 0;
    while n < |accounts|
      invariant 0 <= n <= |accounts| && reg.Sound() && OnlyTrialsDiffer(accounts[..n], seen)
      invariant forall k | 0 <= k < n && seen[k].instance !in skip && seen[k].id in eligible
                           && NeverTouched(noise, seen[k].instance) :: Current(reg, seen[k], now)
      invariant forall i | NeverTouched(noise, i) :: Kept(old(reg.CellOf(i)), reg.CellOf(i), now)
    {
      var a := accounts[n];
      if a.instance !in skip && a.id in eligible {
        a := LookOne(reg, a, now, NoiseAt(noise, t), NoiseAt(noise, t + 1), seen);
        t := t + 2;
      }
      seen := seen + [a];
      n := n + 1;
    }
    assert accounts[..n] == accounts;
  }

  /** Advance the trial, then read it; others may act before and between. */
  method LookOne(reg: TrialRegistry, a: View, now: int, before: seq<Interference>, between: seq<Interference>,
                 ghost seen: seq<View>) returns (v: View)
    requires reg.Sound()
    modifies reg
    ensures reg.Sound() && v == a.(trial := v.trial)
    ensures Untouched(between, v.instance) ==> Current(reg, v, now)
    ensures forall k | 0 <= k < |seen| && old(Current(reg, seen[k], now)) &&
                       Untouched(before, seen[k].instance) && Untouched(between, seen[k].instance) ::
              Current(reg, seen[k], now)
    ensures forall i | Untouched(before, i) && Untouched(between, i) :: Kept(old(reg.CellOf(i)), reg.CellOf(i), now)
  {
    Interfere(reg, before);
    reg.Update(a.instance, Trials.Event.Advance(now));
    Interfere(reg, between);
    v := a.(trial := StateAt(reg.CellOf(a.instance), now));
  }

  /** The result is what the selection makes of the accounts as seen. */
  ghost predicate PickedFrom(s: Snapshot, candidates: seq<Candidate>, skip: set<Instance>, now: int, r: Selected) {
    var pool := BestPool(s, Eligible(s, candidates), skip, now);
    && (r.NoneSelectable? <==> pool == [])
    && (r.Chosen? ==>
          r.view in pool && Classify(r.view, now) == r.class_ != Excluded
          && SelectedHead(s, Eligible(s, candidates), skip, now) == Some(r.view))
    && var choice := Choice(s, Eligible(s, candidates), skip, now);
       (choice.Some? ==> r.Chosen? && r.view == choice.value)
  }

  predicate NeedsTrial(r: Selected) {
    r.Chosen? && r.class_.Opportunistic?
  }

  /** A trial begun now, of which nothing has been heard yet. */
  predicate Running(c: Cell, now: int) {
    c.Record? && c.state.Active? && c.began == now && !c.pending && c.retries == 0
  }

  lemma SameEligible(s: Snapshot, seen: seq<View>, candidates: seq<Candidate>)
    ensures Eligible(s.(accounts := seen), candidates) == Eligible(s, candidates)
  {}

  lemma OfferedTrial(a: View, now: int)
    requires Classify(a, now) != Excluded
    ensures a.trial.NoTrial?
  {}

  /** Begin the trial of an account as it was seen. It begins unless someone touched it. */
  method Begin(reg: TrialRegistry, v: View, now: int, es: seq<Interference>) returns (ok: bool)
    requires reg.Sound() && v.trial.NoTrial?
    modifies reg
    ensures reg.Sound()
    ensures ok ==> Running(reg.CellOf(v.instance), now)
    ensures ok && Untouched(es, v.instance) ==> reg.CellOf(v.instance) == Begun(old(reg.CellOf(v.instance)), now)
    ensures Untouched(es, v.instance) && old(Current(reg, v, now)) ==> ok
    ensures forall i | Untouched(es, i) && !(ok && i == v.instance) :: reg.CellOf(i) == old(reg.CellOf(i))
  {
    Interfere(reg, es);
    OfferedMayBegin(reg.CellOf(v.instance), now);
    ok := reg.TryBegin(v.instance, now);
  }

  /** One look, one choice and, for an opportunistic one, one attempt to begin its trial. */
  method Round(s: Snapshot, candidates: seq<Candidate>, now: int, reg: TrialRegistry, skip: set<Instance>,
               noise: seq<seq<Interference>>, start: nat) returns (r: Selected, seen: seq<View>, ok: bool, t: nat)
    requires reg.Sound()
    modifies reg
    ensures reg.Sound() && OnlyTrialsDiffer(s.accounts, seen)
    ensures PickedFrom(s.(accounts := seen), candidates, skip, now, r)
    ensures ok ==> r.Chosen? && r.class_ == Opportunistic && Running(reg.CellOf(r.view.instance), now)
    ensures r.Chosen? && r.class_ == Opportunistic && !ok ==> !NeverTouched(noise, r.view.instance)
    ensures ok && NeverTouched(noise, r.view.instance) ==>
              reg.CellOf(r.view.instance) == Begun(Advanced(old(reg.CellOf(r.view.instance)), now), now)
    ensures forall i | NeverTouched(noise, i) && !(ok && r.view.instance == i) ::
      Kept(old(reg.CellOf(i)), reg.CellOf(i), now)
  {
    hide Classify, Less, Ranked, Choice, Pool, Least, Ordered;
    var eligible := EligibleIds(s, candidates);
    seen, t := LookAll(reg, s.accounts, eligible, skip, now, noise, start);
    ghost var s' := s.(accounts := seen);
    r := Select(s.(accounts := seen), candidates, now, skip);
    ok := false;
    if NeedsTrial(r) {
      SameEligible(s, seen, candidates);
      BestMember(s', eligible, skip, now, r.view);
      OfferedTrial(r.view, now);
      ok := Begin(reg, r.view, now, NoiseAt(noise, t));
      t := t + 1;
    }
  }

  function InstancesOf(accounts: seq<View>): set<Instance> {
    set k | 0 <= k < |accounts| :: accounts[k].instance
  }

  lemma ChosenInstance(s: Snapshot, seen: seq<View>, candidates: seq<Candidate>, skip: set<Instance>, now: int,
                       r: Selected)
    requires OnlyTrialsDiffer(s.accounts, seen) && r.Chosen?
    requires PickedFrom(s.(accounts := seen), candidates, skip, now, r)
    ensures r.view.instance in InstancesOf(s.accounts) && r.view.instance !in skip
  {
    var s' := s.(accounts := seen);
    BestMember(s', Eligible(s', candidates), skip, now, r.view);
    var k :| 0 <= k < |seen| && seen[k] == r.view;
    assert s.accounts[k].instance == r.view.instance;
  }

  /** The pick: an opportunistic choice counts only once its trial has begun; otherwise its
      instance is skipped and the choice repeated. A pick that ends so has a trial running,
      and an instance is skipped only if someone else touched it meanwhile, so that with
      nobody else about the first choice stands. */
  method Pick(s: Snapshot, candidates: seq<Candidate>, now: int, reg: TrialRegistry, noise: seq<seq<Interference>>)
    returns (r: Selected, skipped: set<Instance>, seen: seq<View>)
    requires reg.Sound()
    modifies reg
    ensures reg.Sound() && OnlyTrialsDiffer(s.accounts, seen)
    ensures PickedFrom(s.(accounts := seen), candidates, skipped, now, r)
    ensures skipped <= InstancesOf(s.accounts) && forall i | i in skipped :: !NeverTouched(noise, i)
    ensures Silent(noise) ==> skipped == {}
    ensures r.Chosen? && r.class_ == Opportunistic ==> Running(reg.CellOf(r.view.instance), now)
    ensures r.Chosen? && r.class_ == Opportunistic && NeverTouched(noise, r.view.instance) ==>
              reg.CellOf(r.view.instance) == Begun(Advanced(old(reg.CellOf(r.view.instance)), now), now)
    ensures forall i | NeverTouched(noise, i) && !(r.Chosen? && r.class_ == Opportunistic && r.view.instance == i) ::
              Kept(old(reg.CellOf(i)), reg.CellOf(i), now)
  {
    hide PickedFrom, OnlyTrialsDiffer, NeverTouched, Advanced, Begun, InstancesOf;
    forall i | Silent(noise) ensures NeverTouched(noise, i) { SilentTouchesNothing(noise, i); }
    skipped := {};
    var ok, t;
    r, seen, ok, t := Round(s, candidates, now, reg, skipped, noise, 0);
    while NeedsTrial(r) && !ok
      invariant reg.Sound() && OnlyTrialsDiffer(s.accounts, seen)
      invariant PickedFrom(s.(accounts := seen), candidates, skipped, now, r)
      invariant skipped <= InstancesOf(s.accounts) && forall i | i in skipped :: !NeverTouched(noise, i)
      invariant ok ==> NeedsTrial(r) && Running(reg.CellOf(r.view.instance), now)
      invariant NeedsTrial(r) && !ok ==> !NeverTouched(noise, r.view.instance)
      invariant ok && NeverTouched(noise, r.view.instance) ==>
                  reg.CellOf(r.view.instance) == Begun(Advanced(old(reg.CellOf(r.view.instance)), now), now)
      invariant forall i | NeverTouched(noise, i) && !(ok && r.view.instance == i) ::
        Kept(old(reg.CellOf(i)), reg.CellOf(i), now)
      decreases InstancesOf(s.accounts) - skipped
    {
      ChosenInstance(s, seen, candidates, skipped, now, r);
      forall i | NeverTouched(noise, i)
        ensures Advanced(Advanced(old(reg.CellOf(i)), now), now) == Advanced(old(reg.CellOf(i)), now)
      {
        AdvancedTwice(old(reg.CellOf(i)), now);
      }
      skipped := skipped + {r.view.instance};
      r, seen, ok, t := Round(s, candidates, now, reg, skipped, noise, t);
    }
  }

  /** A sure thing found while some are skipped is one with nobody skipped. */
  lemma SkippingFewer(s: Snapshot, candidates: seq<Candidate>, skip: set<Instance>, now: int, r: Selected)
    requires PickedFrom(s, candidates, skip, now, r)
    requires r.Chosen? && r.class_ == Preferred
    ensures Pool(s.accounts, Eligible(s, candidates), {}, now, Preferred) != []
  {
    BestMember(s, Eligible(s, candidates), skip, now, r.view);
    PoolMember(s.accounts, Eligible(s, candidates), {}, now, Preferred, r.view);
  }

  /** Only without a sure thing is a chance chosen. */
  lemma ChanceMeansNoSure(s: Snapshot, candidates: seq<Candidate>, skip: set<Instance>, now: int, r: Selected)
    requires PickedFrom(s, candidates, skip, now, r) && !(r.Chosen? && r.class_ == Preferred)
    ensures Pool(s.accounts, Eligible(s, candidates), skip, now, Preferred) == []
  {
    var eligible := Eligible(s, candidates);
    var pool := Pool(s.accounts, eligible, skip, now, Preferred);
    if pool != [] && r.Chosen? { PoolMember(s.accounts, eligible, skip, now, Preferred, r.view); }
  }

  /** Without a registry no trial can begin, and an opportunistic account is never picked: the
      pick is a sure thing, with nobody skipped, exactly if there is one. */
  method PickUntracked(s: Snapshot, candidates: seq<Candidate>, now: int) returns (r: Selected, skipped: set<Instance>)
    ensures PickedFrom(s, candidates, skipped, now, r) && skipped <= InstancesOf(s.accounts)
    ensures r.Chosen? ==> r.class_ == Preferred && skipped == {}
    ensures r.Chosen? <==> Pool(s.accounts, Eligible(s, candidates), {}, now, Preferred) != []
  {
    hide Classify, Less, Ranked, Choice, Pool, Least, Ordered, BestPool, InstancesOf, Eligible;
    skipped := {};
    r := Select(s, candidates, now, skipped);
    if !(r.Chosen? && r.class_ == Preferred) { ChanceMeansNoSure(s, candidates, skipped, now, r); }
    while NeedsTrial(r)
      invariant PickedFrom(s, candidates, skipped, now, r) && skipped <= InstancesOf(s.accounts)
      invariant r.Chosen? && r.class_ == Preferred ==> skipped == {}
      invariant !(r.Chosen? && r.class_ == Preferred) ==>
                  Pool(s.accounts, Eligible(s, candidates), {}, now, Preferred) == []
      decreases InstancesOf(s.accounts) - skipped
    {
      assert s.(accounts := s.accounts) == s;
      ChosenInstance(s, s.accounts, candidates, skipped, now, r);
      skipped := skipped + {r.view.instance};
      r := Select(s, candidates, now, skipped);
      if r.Chosen? && r.class_ == Preferred { SkippingFewer(s, candidates, skipped, now, r); }
    }
    if r.Chosen? { SkippingFewer(s, candidates, skipped, now, r); }
  }
}
