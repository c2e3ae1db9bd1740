/** The binding registry in its own form: maps rebuilt by loops over the host's roster and
    committed together. */
module BindingRegistry {
  import opened Basics
  import opened Identity
  import opened Epochs

  /** A roster line; an entry without an id, a codex provider or a priority is not ours. */
  datatype RosterEntry = RosterEntry(id: Option<AuthId>, codex: bool, prioritized: bool, authIndex: string)

  predicate Confirms(e: RosterEntry, id: AuthId) {
    e.id == Some(id) && e.codex && e.prioritized
  }

  function Confirmed(entries: seq<RosterEntry>): set<AuthId> {
    set n | 0 <= n < |entries| && entries[n].id.Some? && Confirms(entries[n], entries[n].id.value) ::
      entries[n].id.value
  }

  /** The last line with the id decides its auth index, whatever that line's provider. */
  function LastIndex(entries: seq<RosterEntry>, id: AuthId): string {
    if entries == [] then ""
    else if entries[|entries| - 1].id == Some(id) then entries[|entries| - 1].authIndex
    else LastIndex(entries[..|entries| - 1], id)
  }

  /** The index recorded for an id is that of its last line; an id that is listed on no line
      has none. */
  lemma {:induction false} LastLineDecides(entries: seq<RosterEntry>, id: AuthId, n: nat)
    requires n < |entries| && entries[n].id == Some(id)
    requires forall m | n < m < |entries| :: entries[m].id != Some(id)
    ensures LastIndex(entries, id) == entries[n].authIndex
    decreases |entries|
  {
    if n < |entries| - 1 { LastLineDecides(entries[..|entries| - 1], id, n); }
  }

  function RosterIndex(entries: seq<RosterEntry>): map<AuthId, string> {
    map id | id in Confirmed(entries) :: LastIndex(entries, id)
  }

  /** An account is confirmed exactly by a line that names it with a codex provider and a
      priority, among whatever other lines. */
  lemma ConfirmedExactly(entries: seq<RosterEntry>, id: AuthId)
    ensures id in RosterIndex(entries) <==>
            exists n :: 0 <= n < |entries| && entries[n] == RosterEntry(Some(id), true, true, entries[n].authIndex)
  {
    if id in Confirmed(entries) {
      var n :| 0 <= n < |entries| && entries[n].id == Some(id) && Confirms(entries[n], id);
      assert entries[n] == RosterEntry(Some(id), true, true, entries[n].authIndex);
    }
  }

  /** What a roster leaves out of the bindings that belong to an instance. */
  function Removed(bindings: map<AuthId, Binding>, index: map<AuthId, string>): map<AuthId, Binding> {
    map id | id in bindings && id !in index && bindings[id].instance != 0 :: bindings[id]
  }

  /** Every binding of an instance is kept under its id or removed, never both, never lost. */
  lemma KeptOrRemoved(s: State, entries: seq<RosterEntry>, incoming: nat, observed: map<Instance, Fingerprint>,
                      id: AuthId)
    requires Inv(s) && RosterIndex(entries) != map[] && Observable(s, RosterIndex(entries), observed)
    requires id in s.bindings && s.bindings[id].instance != 0
    ensures var index := RosterIndex(entries);
            var u := Reconciled(s, index, incoming, observed);
            && (id in u.bindings <==> id !in Removed(s.bindings, index))
            && (id in u.bindings ==> u.bindings[id].instance == s.bindings[id].instance)
            && (id in Removed(s.bindings, index) ==> Removed(s.bindings, index)[id] == s.bindings[id])
  {}

  lemma NextKeys(s: State, index: map<AuthId, string>, g: nat, observed: map<Instance, Fingerprint>)
    ensures NextBindings(s, index, g, observed).Keys == index.Keys
  {}

  // ---- Working through the confirmed ids one at a time ----

  function Part(index: map<AuthId, string>, done: set<AuthId>): map<AuthId, string> {
    map id | id in index && id in done :: index[id]
  }

  lemma AddReadmission(s: State, index: map<AuthId, string>, done: set<AuthId>, id: AuthId)
    requires id in index && id !in done
    ensures Readmissions(s, Part(index, done + {id})) ==
            if Admitted(s, index, id) then Readmissions(s, Part(index, done))[InstanceOf(id) := NextAdmission(s, id)]
            else Readmissions(s, Part(index, done))
  {
    hide Readmissions, Part, Admitted, NextAdmission;
    var p, q := Part(index, done), Part(index, done + {id});
    var a, b := Readmissions(s, p), Readmissions(s, q);
    var w := if Admitted(s, index, id) then a[InstanceOf(id) := NextAdmission(s, id)] else a;
    forall x: AuthId
      ensures InstanceOf(x) in b <==> InstanceOf(x) in w
      ensures InstanceOf(x) in b ==> b[InstanceOf(x)] == w[InstanceOf(x)]
    {
      AdmittedPart(s, index, done, x);
      AdmittedPart(s, index, done + {id}, x);
      ReadmissionOf(s, p, x);
      ReadmissionOf(s, q, x);
    }
    SameByInstance(b, w);
  }

  lemma AdmittedPart(s: State, index: map<AuthId, string>, done: set<AuthId>, id: AuthId)
    ensures Admitted(s, Part(index, done), id) <==> id in done && Admitted(s, index, id)
  {}

  lemma SameByInstance(a: map<Instance, nat>, b: map<Instance, nat>)
    requires 0 !in a && 0 !in b
    requires forall x: AuthId :: InstanceOf(x) in a <==> InstanceOf(x) in b
    requires forall x: AuthId :: InstanceOf(x) in a ==> a[InstanceOf(x)] == b[InstanceOf(x)]
    ensures a == b
  {
    forall i: Instance ensures i in a <==> i in b { if i > 0 { assert i == InstanceOf(i - 1); } }
    forall i | i in a ensures a[i] == b[i] { assert i == InstanceOf(i - 1); }
  }

  lemma AddBinding(s: State, index: map<AuthId, string>, done: set<AuthId>, id: AuthId, g: nat,
                   observed: map<Instance, Fingerprint>)
    requires id in index && id !in done
    ensures NextBindings(s, Part(index, done + {id}), g, observed) ==
            NextBindings(s, Part(index, done), g, observed)
              [id := NextBinding(s, index, id, g, Observed(observed, InstanceOf(id)))]
  {
    hide NextAdmission;
  }

  lemma AddChain(s: State, index: map<AuthId, string>, done: set<AuthId>, id: AuthId)
    requires id in index && id !in done
    ensures FreshChains(s, Part(index, done + {id})) ==
            FreshChains(s, Part(index, done)) + (if Admitted(s, index, id) then {InstanceOf(id)} else {})
  {
    var a, b := FreshChains(s, Part(index, done)), FreshChains(s, Part(index, done + {id}));
    var w := a + (if Admitted(s, index, id) then {InstanceOf(id)} else {});
    forall i ensures i in b <==> i in w {
      if i > 0 { FreshChainOf(s, Part(index, done), i - 1); FreshChainOf(s, Part(index, done + {id}), i - 1); }
    }
  }

  lemma FreshChainOf(s: State, index: map<AuthId, string>, id: AuthId)
    ensures InstanceOf(id) in FreshChains(s, index) <==> Admitted(s, index, id)
  {}

  class Registry {
    var tier: nat
    var admissions: map<Instance, nat>
    var bindings: map<AuthId, Binding>
    var chained: set<Instance>

    ghost function View(): State
      reads this
    {
      State(tier, admissions, bindings, chained)
    }

    constructor ()
      ensures View() == Initial && Inv(View())
    {
      tier, admissions, bindings, chained := 0, map[], map[], {};
    }

    static method ConfirmedIds(entries: seq<RosterEntry>) returns (ids: seq<AuthId>)
      ensures (set id | id in ids) == Confirmed(entries)
      ensures forall a, b | 0 <= a < b < |ids| :: ids[a] != ids[b]
    {
      ids := [];
      var seen: set<AuthId> := {};
      var n := 0;
      while n < |entries|
        invariant 0 <= n <= |entries| && seen == Confirmed(entries[..n]) == (set id | id in ids)
        invariant forall a, b | 0 <= a < b < |ids| :: ids[a] != ids[b]
      {
        ConfirmedAdd(entries, n);
        var e := entries[n];
        if e.id.Some? && e.codex && e.prioritized && e.id.value !in seen {
          seen := seen + {e.id.value};
          ids := ids + [e.id.value];
        }
        n := n + 1;
      }
      assert entries[..n] == entries;
    }

    static method IndexById(entries: seq<RosterEntry>, ids: set<AuthId>) returns (index: map<AuthId, string>)
      ensures index == map id | id in ids && (exists n :: 0 <= n < |entries| && entries[n].id == Some(id)) ::
        LastIndex(entries, id)
    {
      index := map[];
      var n := 0;
      while n < |entries|
        invariant 0 <= n <= |entries|
        invariant forall id :: id in index <==> id in ids && exists m :: 0 <= m < n && entries[m].id == Some(id)
        invariant forall id | id in index :: index[id] == LastIndex(entries[..n], id)
      {
        assert entries[..n + 1][..n] == entries[..n];
        if entries[n].id.Some? && entries[n].id.value in ids {
          index := index[entries[n].id.value := entries[n].authIndex];
        }
        n := n + 1;
      }
      assert entries[..n] == entries;
    }

    /** What older state files may have left behind is healed first; in a state this
        registry produced there is nothing to heal. */
    method HealedEpochs() returns (adm: map<Instance, nat>, t: nat)
      requires Inv(View())
      ensures adm == admissions && t == tier
    {
      adm, t := admissions, tier;
      var todo := bindings.Keys;
      while todo != {}
        invariant todo <= bindings.Keys && adm == admissions && t == tier
        decreases todo
      {
        var id :| id in todo;
        var b := bindings[id];
        assert BindingOk(View(), id);
        if b.admission > (if b.instance in adm then adm[b.instance] else 0) {
          adm := adm[b.instance := b.admission];
        }
        if b.generation > t {
          t := b.generation;
        }
        todo := todo - {id};
      }
    }

    method HasChanged(index: map<AuthId, string>, ids: seq<AuthId>) returns (changed: bool)
      requires forall id :: id in ids <==> id in index
      ensures changed <==> RosterChanged(View(), index)
    {
      if |bindings| != |index| {
        return true;
      }
      var n := 0;
      while n < |ids|
        invariant 0 <= n <= |ids|
        invariant forall m | 0 <= m < n :: ids[m] in bindings && bindings[ids[m]].authIndex == index[ids[m]]
      {
        if ids[n] !in bindings || bindings[ids[n]].authIndex != index[ids[n]] {
          return true;
        }
        n := n + 1;
      }
      return false;
    }

    method NextBindingFor(id: AuthId, index: map<AuthId, string>, g: nat, observed: map<Instance, Fingerprint>,
                          epoch: nat)
      returns (b: Binding)
      requires Inv(View()) && id in index && epoch == Epoch(View(), InstanceOf(id))
      requires Admitted(View(), index, id) ==> InstanceOf(id) in observed
      ensures b == NextBinding(View(), index, id, g, Observed(observed, InstanceOf(id)))
    {
      if id in bindings && bindings[id].instance != 0 {
        b := bindings[id];
        if b.authIndex != index[id] {
          assert BindingOk(View(), id);
          var admission := epoch;
          if admission < b.admission {
            admission := b.admission;
          }
          b := b.(admission := admission + 1, fingerprint := observed[b.instance]);
        }
        return b.(authIndex := index[id], generation := g);
      }
      var i := InstanceOf(id);
      var admission := epoch + 1;
      if epoch == 0 {
        admission := if i in chained then 2 else 1;
      }
      b := Binding(index[id], i, admission, g, 1, 1, observed[i], id in bindings && bindings[id].blocked);
    }

    method BuildNext(index: map<AuthId, string>, ids: seq<AuthId>, g: nat, observed: map<Instance, Fingerprint>)
      returns (ok: bool, next: map<AuthId, Binding>, adm: map<Instance, nat>, chains: set<Instance>)
      requires Inv(View()) && (forall id :: id in ids <==> id in index)
      requires forall a, b | 0 <= a < b < |ids| :: ids[a] != ids[b]
      ensures ok <==> Observable(View(), index, observed)
      ensures ok ==> next == NextBindings(View(), index, g, observed)
      ensures ok ==> adm == admissions + Readmissions(View(), index) && chains == FreshChains(View(), index)
    {
      hide Inv, NextBindings, Readmissions, FreshChains, NextBinding, Part;
      ghost var s := View();
      ghost var done: set<AuthId> := {};
      next, adm, chains := map[], admissions, {};
      PartNone(s, index, g, observed);
      var n := 0;
      while n < |ids|
        invariant 0 <= n <= |ids| && done == (set m | 0 <= m < n :: ids[m])
        invariant forall id | id in done :: Admitted(s, index, id) ==> InstanceOf(id) in observed
        invariant next == NextBindings(s, Part(index, done), g, observed)
        invariant adm == s.admissions + Readmissions(s, Part(index, done))
        invariant chains == FreshChains(s, Part(index, done))
      {
        var id := ids[n];
        assert id in index && id !in done;
        var i := InstanceOf(id);
        var admitted := id !in bindings || bindings[id].instance == 0 || bindings[id].authIndex != index[id];
        if admitted && i !in observed {
          return false, map[], map[], {};
        }
        PartEpoch(s, index, done, id);
        AddBinding(s, index, done, id, g, observed);
        AddReadmission(s, index, done, id);
        AddChain(s, index, done, id);
        var b := NextBindingFor(id, index, g, observed, if i in adm then adm[i] else 0);
        if admitted {
          AdmittedEpoch(s, index, id, g, Observed(observed, i));
          adm := adm[i := b.admission];
          chains := chains + {i};
        }
        next := next[id := b];
        done := done + {id};
        n := n + 1;
      }
      PartAll(index, done);
      ok := true;
    }

    /** Only ever raises: but an epoch in `adm` is never below the one it replaces. */
    method MergeEpochs(adm: map<Instance, nat>)
      requires admissions.Keys <= adm.Keys
      requires forall i | i in adm :: if i in admissions then adm[i] >= admissions[i] else adm[i] > 0
      modifies this`admissions
      ensures admissions == adm
    {
      ghost var before := admissions;
      var todo := adm.Keys;
      while todo != {}
        invariant todo <= adm.Keys
        invariant forall i | i in todo ::
          (i in admissions <==> i in before) && (i in before ==> admissions[i] == before[i])
        invariant forall i | i in adm && i !in todo :: i in admissions && admissions[i] == adm[i]
        invariant admissions.Keys <= adm.Keys
        decreases todo
      {
        var i :| i in todo;
        if adm[i] > (if i in admissions then admissions[i] else 0) {
          admissions := admissions[i := adm[i]];
        }
        todo := todo - {i};
      }
    }

    /** The bindings the roster no longer names. */
    method Dropped(next: map<AuthId, Binding>, ghost index: map<AuthId, string>) returns (removed: map<AuthId, Binding>)
      requires next.Keys == index.Keys
      ensures removed == Removed(bindings, index)
    {
      removed := map[];
      var todo := bindings.Keys;
      ghost var done: set<AuthId> := {};
      while todo != {}
        invariant todo + done == bindings.Keys && todo !! done
        invariant removed == map id | id in bindings && id in done && id !in index && bindings[id].instance != 0 ::
          bindings[id]
        decreases todo
      {
        var id :| id in todo;
        if id !in next && bindings[id].instance != 0 {
          removed := removed[id := bindings[id]];
        }
        todo, done := todo - {id}, done + {id};
      }
    }

    /** Build the next bindings for the roster and commit them with the epochs they need;
        without a commit nothing changes. */
    method Commit(index: map<AuthId, string>, ids: seq<AuthId>, generation: nat, observed: map<Instance, Fingerprint>)
      returns (ok: bool, removed: map<AuthId, Binding>)
      requires Inv(View()) && (forall id :: id in ids <==> id in index)
      requires forall a, b | 0 <= a < b < |ids| :: ids[a] != ids[b]
      modifies this
      ensures ok <==> Observable(old(View()), index, observed)
      ensures removed == if ok then Removed(old(bindings), index) else map[]
      ensures !ok ==> View() == old(View())
      ensures ok ==> View() == State(generation, old(admissions) + Readmissions(old(View()), index),
                NextBindings(old(View()), index, generation, observed), old(chained) + FreshChains(old(View()), index))
    {
      hide Inv, Removed, Observable, NextBindings, Readmissions, FreshChains;
      ghost var s := View();
      removed := map[];
      var next, adm, chains;
      ok, next, adm, chains := BuildNext(index, ids, generation, observed);
      if ok {
        NextKeys(s, index, generation, observed);
        removed := Dropped(next, index);
        tier := generation;
        ReadmissionsRaise(s, index);
        MergeEpochs(adm);
        bindings := next;
        chained := chained + chains;
      }
    }

    /** Reconcile with the host's roster. Nothing changes when the roster confirms no account
        or when the host cannot be read for an account that is admitted anew. */
    method ReconcileRosterTiers(authoritative: bool, entries: seq<RosterEntry>, incoming: nat,
                                observed: map<Instance, Fingerprint>)
      returns (ok: bool, removed: map<AuthId, Binding>)
      requires Inv(View())
      modifies this
      ensures Inv(View())
      ensures removed == if ok then Removed(old(bindings), RosterIndex(entries)) else map[]
      ensures ok <==>
        authoritative && RosterIndex(entries) != map[] && Observable(old(View()), RosterIndex(entries), observed)
      ensures View() == if !authoritative then old(View())
                        else Reconciled(old(View()), RosterIndex(entries), incoming, observed)
    {
      hide Inv, Removed, Observable, RosterChanged, NextBindings, Readmissions, FreshChains, RosterIndex, Confirmed;
      if !authoritative {
        return false, map[];
      }
      ghost var s := View();
      ReconciledInv(s, RosterIndex(entries), incoming, observed);
      var ids := ConfirmedIds(entries);
      ConfirmedIndex(entries, ids);
      if |ids| == 0 {
        return false, map[];
      }
      var index := IndexById(entries, set id | id in ids);
      assert index == RosterIndex(entries);
      var adm0, generation := HealedEpochs();
      var changed := HasChanged(index, ids);
      if generation == 0 {
        generation := if incoming == 0 then 1 else incoming;
      } else if changed {
        generation := if incoming > generation then incoming else generation + 1;
      } else if incoming > generation {
        generation := incoming;
      }
      ok, removed := Commit(index, ids, generation, observed);
    }

    method MarkAuthBlocked(id: AuthId)
      requires Inv(View())
      modifies this`bindings
      ensures Inv(View()) && View() == Step(old(View()), MarkBlocked(id))
    {
      StepInv(View(), MarkBlocked(id));
      var b := if id in bindings then bindings[id] else Placeholder;
      bindings := bindings[id := b.(blocked := true)];
    }

    method ObserveExternalLogin(id: AuthId, login: nat, fingerprint: Fingerprint) returns (known: bool)
      requires Inv(View())
      modifies this`bindings
      ensures Inv(View()) && View() == Step(old(View()), ReportLogin(id, login, fingerprint))
      ensures known <==> id in old(bindings)
    {
      StepInv(View(), ReportLogin(id, login, fingerprint));
      known := id in bindings;
      if known && login > bindings[id].login {
        bindings := bindings[id := bindings[id].(login := login, fingerprint := fingerprint, blocked := false)];
      }
    }

    /** Whether a result captured earlier may still be applied. */
    method ApplyIfCurrent(id: AuthId, w: Writeback) returns (apply: bool)
      ensures apply <==> Accepts(View(), id, w)
    {
      if id !in bindings {
        return false;
      }
      var b := bindings[id];
      apply := w.instance == b.instance && w.admission == b.admission && w.tier == b.generation
               && w.login == b.login && w.fingerprint == b.fingerprint;
    }

    method Regenerate(g: nat)
      modifies this`bindings
      ensures bindings == Regenerated(old(bindings), g)
    {
      ghost var before := bindings;
      var todo := bindings.Keys;
      while todo != {}
        invariant todo <= bindings.Keys == before.Keys
        invariant forall id | id in bindings ::
          bindings[id] == if id in todo then before[id] else before[id].(generation := g)
        decreases todo
      {
        var id :| id in todo;
        bindings := bindings[id := bindings[id].(generation := g)];
        todo := todo - {id};
      }
    }

    /** The host's credential turned out not to be the plugin's own, or the operator said so. */
    method CommitExternalLogin(id: AuthId, fingerprint: Fingerprint)
      requires Inv(View())
      modifies this
      ensures Inv(View()) && View() == Step(old(View()), CommitExternal(id, fingerprint))
    {
      hide Inv;
      StepInv(View(), CommitExternal(id, fingerprint));
      if id !in bindings || bindings[id].instance == 0 {
        return;
      }
      var b := bindings[id];
      tier := tier + 1;
      admissions := admissions[b.instance := b.admission + 1];
      b := b.(login := b.login + 1, admission := b.admission + 1, generation := tier,
              fingerprint := fingerprint, blocked := false);
      Regenerate(tier);
      bindings := bindings[id := b];
    }

    method CommitOwnedRotation(id: AuthId, fingerprint: Fingerprint)
      requires Inv(View())
      modifies this`bindings
      ensures Inv(View()) && View() == Step(old(View()), CommitOwned(id, fingerprint))
    {
      hide Inv;
      StepInv(View(), CommitOwned(id, fingerprint));
      if id in bindings && bindings[id].instance != 0 {
        bindings := bindings[id := bindings[id].(token := bindings[id].token + 1, fingerprint := fingerprint)];
      }
    }
  }

  lemma ConfirmedIndex(entries: seq<RosterEntry>, ids: seq<AuthId>)
    requires (set id | id in ids) == Confirmed(entries)
    ensures forall id :: id in ids <==> id in RosterIndex(entries)
    ensures ids == [] <==> RosterIndex(entries) == map[]
    ensures (map id | id in (set id | id in ids) && (exists n :: 0 <= n < |entries| && entries[n].id == Some(id)) ::
      LastIndex(entries, id))
            == RosterIndex(entries)
  {
    hide LastIndex;
    forall id ensures id in ids <==> id in RosterIndex(entries) { assert id in ids <==> id in (set x | x in ids); }
    if ids != [] { assert ids[0] in RosterIndex(entries); }
  }

  lemma ReadmissionsRaise(s: State, index: map<AuthId, string>)
    requires Inv(s)
    ensures forall i | i in Readmissions(s, index) :: Readmissions(s, index)[i] > Epoch(s, i)
  {
    forall i | i in Readmissions(s, index) ensures Readmissions(s, index)[i] > Epoch(s, i) {
      assert i == InstanceOf(i - 1);
      ReadmissionOf(s, index, i - 1);
    }
  }

  lemma PartNone(s: State, index: map<AuthId, string>, g: nat, observed: map<Instance, Fingerprint>)
    ensures var p := Part(index, {});
            NextBindings(s, p, g, observed) == map[] && Readmissions(s, p) == map[] && FreshChains(s, p) == {}
  {}

  lemma PartAll(index: map<AuthId, string>, done: set<AuthId>)
    requires done == index.Keys
    ensures Part(index, done) == index
  {}

  lemma PartEpoch(s: State, index: map<AuthId, string>, done: set<AuthId>, id: AuthId)
    requires id !in done
    ensures InstanceOf(id) !in Readmissions(s, Part(index, done))
  {
    ReadmissionOf(s, Part(index, done), id);
  }

  lemma AdmittedEpoch(s: State, index: map<AuthId, string>, id: AuthId, g: nat, f: Fingerprint)
    requires Admitted(s, index, id)
    ensures NextBinding(s, index, id, g, f).admission == NextAdmission(s, id)
  {}

  lemma ConfirmedAdd(entries: seq<RosterEntry>, n: nat)
    requires n < |entries|
    ensures var e := entries[n];
            Confirmed(entries[..n + 1]) ==
            Confirmed(entries[..n]) + (if e.id.Some? && Confirms(e, e.id.value) then {e.id.value} else {})
  {
    var e := entries[n];
    var a, b := Confirmed(entries[..n]), Confirmed(entries[..n + 1]);
    forall id: AuthId ensures id in b <==> id in a || Confirms(e, id) {
      if id in b {
        var m :| 0 <= m < n + 1 && entries[..n + 1][m].id == Some(id) && Confirms(entries[..n + 1][m], id);
        if m < n { assert entries[..n][m] == entries[m]; }
      }
      if id in a {
        var m :| 0 <= m < n && entries[..n][m].id == Some(id) && Confirms(entries[..n][m], id);
        assert entries[..n + 1][m] == entries[m];
      }
      if Confirms(e, id) { assert entries[..n + 1][n] == e; }
    }
  }
}
