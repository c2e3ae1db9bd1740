/** Durable epochs that fence stale writebacks: the tier generation shared by all bindings
    and the admission epoch of each instance.

    Each reconcile is one step on the durable state, with the in-memory mirror equal to it.
    An account's instance id is a hash of its auth id, taken to be injective and nonzero. */
module Epochs {
  import opened Basics
  import opened Identity

  type AuthId = nat
  /** Instance zero marks a record without an admitted instance: only a blocked flag. */
  datatype Binding = Binding(
    authIndex: string,
    instance: Instance,
    admission: nat,
    generation: nat,
    login: nat,
    token: nat,
    fingerprint: Fingerprint,
    blocked: bool)

  datatype State = State(
    tier: nat,
    admissions: map<Instance, nat>,
    bindings: map<AuthId, Binding>,
    chained: set<Instance>)          // instances that have a credential chain

  datatype Command =
    | Roster(index: map<AuthId, string>, incoming: nat, observed: map<Instance, Fingerprint>)
    | MarkBlocked(id: AuthId)
    | ReportLogin(id: AuthId, login: nat, fingerprint: Fingerprint)
    | CommitOwned(id: AuthId, fingerprint: Fingerprint)
    | CommitExternal(id: AuthId, fingerprint: Fingerprint)

  const NoFingerprint := Fingerprint(0, 0, 0)
  const Placeholder := Binding("", 0, 0, 0, 0, 0, NoFingerprint, false)
  const Initial := State(0, map[], map[], {})

  function InstanceOf(id: AuthId): Instance {
    id + 1
  }

  function Epoch(s: State, i: Instance): nat {
    if i in s.admissions then s.admissions[i] else 0
  }

  predicate Active(s: State, id: AuthId) {
    id in s.bindings && s.bindings[id].instance != 0
  }

  // ---- Roster reconciliation ----

  /** As the program tests it: by counting and comparing the confirmed ids. */
  predicate RosterChanged(s: State, index: map<AuthId, string>) {
    |s.bindings| != |index| || exists id :: id in index && (id !in s.bindings || s.bindings[id].authIndex != index[id])
  }

  function RosterGeneration(s: State, index: map<AuthId, string>, incoming: nat): nat {
    if s.tier == 0 then (if incoming == 0 then 1 else incoming)
    else if incoming > s.tier then incoming
    else if RosterChanged(s, index) then s.tier + 1
    else s.tier
  }

  /** The account is admitted anew: it was not active, or the host moved it. */
  predicate Admitted(s: State, index: map<AuthId, string>, id: AuthId) {
    id in index && (!Active(s, id) || s.bindings[id].authIndex != index[id])
  }

  function NextAdmission(s: State, id: AuthId): nat {
    var i := InstanceOf(id);
    if Active(s, id) then (if Epoch(s, i) < s.bindings[id].admission then s.bindings[id].admission else Epoch(s, i)) + 1
    else if Epoch(s, i) == 0 then (if i in s.chained then 2 else 1)
    else Epoch(s, i) + 1
  }

  function NextBinding(s: State, index: map<AuthId, string>, id: AuthId, generation: nat,
                       observed: Fingerprint): Binding
    requires id in index
  {
    if !Active(s, id) then
      Binding(index[id], InstanceOf(id), NextAdmission(s, id), generation, 1, 1, observed,
              id in s.bindings && s.bindings[id].blocked)
    else if s.bindings[id].authIndex != index[id] then
      s.bindings[id].(admission := NextAdmission(s, id), fingerprint := observed,
                      authIndex := index[id], generation := generation)
    else s.bindings[id].(generation := generation)
  }

  /** The host could be read for every account that is admitted anew. */
  predicate Observable(s: State, index: map<AuthId, string>, observed: map<Instance, Fingerprint>) {
    forall id :: id in index && Admitted(s, index, id) ==> InstanceOf(id) in observed
  }

  function Observed(observed: map<Instance, Fingerprint>, i: Instance): Fingerprint {
    if i in observed then observed[i] else NoFingerprint
  }

  function Readmissions(s: State, index: map<AuthId, string>): (r: map<Instance, nat>)
    ensures 0 !in r
  {
    map id | id in index && Admitted(s, index, id) :: InstanceOf(id) := NextAdmission(s, id)
  }

  function NextBindings(s: State, index: map<AuthId, string>, generation: nat, observed: map<Instance, Fingerprint>)
    : map<AuthId, Binding>
  {
    map id | id in index :: NextBinding(s, index, id, generation, Observed(observed, InstanceOf(id)))
  }

  function FreshChains(s: State, index: map<AuthId, string>): set<Instance> {
    set id | id in index && Admitted(s, index, id) :: InstanceOf(id)
  }

  function Reconciled(s: State, index: map<AuthId, string>, incoming: nat, observed: map<Instance, Fingerprint>)
    : State
  {
    if index == map[] || !Observable(s, index, observed) then s
    else
      var g := RosterGeneration(s, index, incoming);
      State(g, s.admissions + Readmissions(s, index),
            NextBindings(s, index, g, observed), s.chained + FreshChains(s, index))
  }

  // ---- The other steps ----

  function Regenerated(bindings: map<AuthId, Binding>, g: nat): map<AuthId, Binding> {
    map id | id in bindings :: bindings[id].(generation := g)
  }

  function Step(s: State, c: Command): State {
    match c
    case Roster(index, incoming, observed) => Reconciled(s, index, incoming, observed)
    case MarkBlocked(id) =>
      s.(bindings := s.bindings[id := (if id in s.bindings then s.bindings[id] else Placeholder).(blocked := true)])
    case ReportLogin(id, login, fp) =>
      if id in s.bindings && login > s.bindings[id].login
      then s.(bindings := s.bindings[id := s.bindings[id].(login := login, fingerprint := fp, blocked := false)])
      else s
    case CommitOwned(id, fp) =>
      if Active(s, id)
      then s.(bindings := s.bindings[id := s.bindings[id].(token := s.bindings[id].token + 1, fingerprint := fp)])
      else s
    case CommitExternal(id, fp) =>
      if !Active(s, id) then s
      else
        var b := s.bindings[id];
        s.(tier := s.tier + 1,
           admissions := s.admissions[b.instance := b.admission + 1],
           bindings := Regenerated(s.bindings, s.tier + 1)[id :=
             b.(login := b.login + 1, admission := b.admission + 1, generation := s.tier + 1,
                fingerprint := fp, blocked := false)])
  }

  function Exec(s: State, cs: seq<Command>): State
    decreases |cs|
  {
    if cs == [] then s else Exec(Step(s, cs[0]), cs[1..])
  }

  // ---- Writebacks ----

  datatype Writeback =
    Writeback(instance: Instance, admission: nat, tier: nat, fence: nat, login: nat, fingerprint: Fingerprint)

  /** The version an execution takes along from the binding it starts under. */
  function Capture(b: Binding, fence: nat): Writeback {
    Writeback(b.instance, b.admission, b.generation, fence, b.login, b.fingerprint)
  }

  predicate Accepts(s: State, id: AuthId, w: Writeback) {
    && id in s.bindings
    && var b := s.bindings[id];
       && w.instance == b.instance && w.admission == b.admission && w.tier == b.generation
       && w.login == b.login && w.fingerprint == b.fingerprint
  }

  // ---- What every run keeps ----

  predicate BindingOk(s: State, id: AuthId)
    requires id in s.bindings
  {
    var b := s.bindings[id];
    if b.instance == 0 then b.admission == 0 && b.generation <= s.tier
    else b.instance == InstanceOf(id) && b.generation == s.tier > 0 && b.admission == Epoch(s, b.instance) > 0
  }

  ghost predicate Inv(s: State) {
    forall id | id in s.bindings :: BindingOk(s, id)
  }

  /** Counting and comparing decides exactly whether membership or an auth index differs. */
  ghost predicate Differs(s: State, index: map<AuthId, string>) {
    || s.bindings.Keys != index.Keys
    || exists id :: id in index && id in s.bindings && s.bindings[id].authIndex != index[id]
  }

  lemma RosterChangedMeans(s: State, index: map<AuthId, string>)
    ensures RosterChanged(s, index) <==> Differs(s, index)
  {
    if s.bindings.Keys == index.Keys {
      assert |s.bindings| == |s.bindings.Keys| && |index| == |index.Keys|;
    } else if !RosterChanged(s, index) {
      assert index.Keys <= s.bindings.Keys;
      SubsetSameSize(index.Keys, s.bindings.Keys);
    }
  }

  lemma SubsetSameSize(a: set<AuthId>, b: set<AuthId>)
    requires a <= b && |a| == |b|
    ensures a == b
  {
    assert b == a + (b - a);
    assert |b| == |a| + |b - a|;
  }

  lemma ReadmissionOf(s: State, index: map<AuthId, string>, id: AuthId)
    ensures InstanceOf(id) in Readmissions(s, index) <==> Admitted(s, index, id)
    ensures Admitted(s, index, id) ==> Readmissions(s, index)[InstanceOf(id)] == NextAdmission(s, id)
  {
    hide NextAdmission, Active;
  }

  lemma ReconciledEpoch(s: State, index: map<AuthId, string>, incoming: nat, observed: map<Instance, Fingerprint>,
                        id: AuthId)
    requires index != map[] && Observable(s, index, observed)
    ensures Epoch(Reconciled(s, index, incoming, observed), InstanceOf(id))
            == if Admitted(s, index, id) then NextAdmission(s, id) else Epoch(s, InstanceOf(id))
  {
    ReadmissionOf(s, index, id);
    hide Readmissions, Admitted, NextAdmission, Observable, NextBinding, RosterGeneration;
  }

  lemma ReconciledForm(s: State, index: map<AuthId, string>, incoming: nat, observed: map<Instance, Fingerprint>,
                       id: AuthId)
    requires index != map[] && Observable(s, index, observed) && id in index
    ensures var u := Reconciled(s, index, incoming, observed);
            && u.tier == RosterGeneration(s, index, incoming) && id in u.bindings
            && u.bindings[id] == NextBinding(s, index, id, u.tier, Observed(observed, InstanceOf(id)))
  {
    hide RosterGeneration, Readmissions, FreshChains, Observable, NextBinding, Observed;
  }

  lemma GenerationPositive(s: State, index: map<AuthId, string>, incoming: nat)
    ensures RosterGeneration(s, index, incoming) > 0
  {
    hide RosterChanged;
  }

  lemma ReconciledOk(s: State, index: map<AuthId, string>, incoming: nat, observed: map<Instance, Fingerprint>,
                     id: AuthId)
    requires index != map[] && Observable(s, index, observed) && id in index && (id in s.bindings ==> BindingOk(s, id))
    ensures var u := Reconciled(s, index, incoming, observed); id in u.bindings && BindingOk(u, id)
  {
    ReconciledEpoch(s, index, incoming, observed, id);
    ReconciledForm(s, index, incoming, observed, id);
    GenerationPositive(s, index, incoming);
    hide Reconciled, Observable, Observed, RosterGeneration;
  }

  lemma ReconciledInv(s: State, index: map<AuthId, string>, incoming: nat, observed: map<Instance, Fingerprint>)
    requires Inv(s)
    ensures Inv(Reconciled(s, index, incoming, observed))
  {
    var u := Reconciled(s, index, incoming, observed);
    if index != map[] && Observable(s, index, observed) {
      assert u.bindings.Keys == index.Keys;
      hide BindingOk, Observable, Reconciled;
      forall id | id in u.bindings ensures BindingOk(u, id) {
        ReconciledOk(s, index, incoming, observed, id);
      }
    }
  }

  lemma StepInv(s: State, c: Command)
    requires Inv(s)
    ensures Inv(Step(s, c))
  {
    var u := Step(s, c);
    match c {
      case Roster(index, incoming, observed) => ReconciledInv(s, index, incoming, observed);
      case _ => forall id | id in u.bindings ensures BindingOk(u, id) { assert id in s.bindings ==> BindingOk(s, id); }
    }
  }

  lemma {:induction false} ExecInv(s: State, cs: seq<Command>)
    requires Inv(s)
    ensures Inv(Exec(s, cs))
    decreases |cs|
  {
    if cs != [] {
      StepInv(s, cs[0]);
      ExecInv(Step(s, cs[0]), cs[1..]);
    }
  }

  // ---- Epochs never go back ----

  ghost predicate NotBefore(s: State, u: State) {
    s.tier <= u.tier && forall i: Instance :: Epoch(s, i) <= Epoch(u, i)
  }

  lemma StepNotBefore(s: State, c: Command)
    requires Inv(s)
    ensures NotBefore(s, Step(s, c))
  {
    var u := Step(s, c);
    forall i: Instance ensures Epoch(s, i) <= Epoch(u, i) {
      if c.Roster? && c.index != map[] && Observable(s, c.index, c.observed) && i > 0 {
        assert i == InstanceOf(i - 1);
        ReconciledEpoch(s, c.index, c.incoming, c.observed, i - 1);
      }
      if c.CommitExternal? && Active(s, c.id) { assert BindingOk(s, c.id); }
    }
  }

  lemma {:induction false} ExecNotBefore(s: State, cs: seq<Command>)
    requires Inv(s)
    ensures NotBefore(s, Exec(s, cs))
    decreases |cs|
  {
    if cs != [] {
      StepInv(s, cs[0]);
      StepNotBefore(s, cs[0]);
      ExecNotBefore(Step(s, cs[0]), cs[1..]);
    }
  }

  // ---- Changes that cut off every execution under way ----

  /** The step commits a change of the roster's membership or of an auth index, or an
      external login. */
  ghost predicate Cuts(s: State, c: Command) {
    match c
    case Roster(index, incoming, observed) =>
      index != map[] && Observable(s, index, observed) && Differs(s, index)
    case CommitExternal(id, _) => Active(s, id)
    case _ => false
  }

  lemma ReconciledTier(s: State, index: map<AuthId, string>, incoming: nat, observed: map<Instance, Fingerprint>)
    requires index != map[] && Observable(s, index, observed)
    ensures Reconciled(s, index, incoming, observed).tier == RosterGeneration(s, index, incoming)
  {
    hide RosterGeneration, Readmissions, NextBinding;
  }

  lemma ChangedRaises(s: State, index: map<AuthId, string>, incoming: nat)
    requires Differs(s, index)
    ensures RosterGeneration(s, index, incoming) > s.tier
  {
    RosterChangedMeans(s, index);
    hide RosterChanged, Differs;
  }

  lemma CutsRaiseTier(s: State, c: Command)
    requires Cuts(s, c)
    ensures Step(s, c).tier > s.tier
  {
    hide Reconciled, Observable, Differs, RosterGeneration;
    if c.Roster? {
      ReconciledTier(s, c.index, c.incoming, c.observed);
      ChangedRaises(s, c.index, c.incoming);
    }
  }

  /** A step that leaves the tier alone keeps an active account and its login epoch. */
  predicate LoginKept(s: State, u: State, id: AuthId) {
    Active(s, id) ==> Active(u, id) && u.bindings[id].login >= s.bindings[id].login
  }

  lemma StepKeepsLogin(s: State, c: Command, id: AuthId)
    requires Inv(s)
    ensures Step(s, c).tier > s.tier || LoginKept(s, Step(s, c), id)
    ensures c.ReportLogin? && c.id == id && Active(s, id) && c.login > s.bindings[id].login ==>
              Step(s, c).bindings[id].login > s.bindings[id].login
  {
    if c.Roster? && c.index != map[] && Observable(s, c.index, c.observed) && Active(s, id) {
      assert BindingOk(s, id);
      RosterChangedMeans(s, c.index);
    }
  }

  lemma {:induction false} ExecKeepsLogin(s: State, cs: seq<Command>, id: AuthId)
    requires Inv(s)
    ensures Exec(s, cs).tier > s.tier || LoginKept(s, Exec(s, cs), id)
    decreases |cs|
  {
    if cs != [] {
      StepInv(s, cs[0]);
      StepKeepsLogin(s, cs[0], id);
      StepNotBefore(s, cs[0]);
      ExecNotBefore(Step(s, cs[0]), cs[1..]);
      ExecKeepsLogin(Step(s, cs[0]), cs[1..], id);
    }
  }

  lemma {:induction false} ExecSplits(s: State, cs: seq<Command>, k: nat)
    requires k <= |cs|
    ensures Exec(s, cs) == Exec(Exec(s, cs[..k]), cs[k..])
    decreases |cs|
  {
    if k > 0 {
      ExecSplits(Step(s, cs[0]), cs[1..], k - 1);
      assert cs[..k][1..] == cs[1..][..k - 1] && cs[1..][k - 1..] == cs[k..];
    }
  }

  /** The step reports a newer login for this account. */
  predicate LogsIn(s: State, c: Command, id: AuthId) {
    c.ReportLogin? && c.id == id && Active(s, id) && c.login > s.bindings[id].login
  }

  /** A writeback captured under an admitted binding of any reachable state and accepted
      after any run: no step of the run changed the roster, committed an external login, or
      reported a newer login of that account. */
  lemma AcceptedMeansUndisturbed(s: State, id: AuthId, fence: nat, cs: seq<Command>, k: nat)
    requires Inv(s) && Active(s, id) && k < |cs|
    requires Accepts(Exec(s, cs), id, Capture(s.bindings[id], fence))
    ensures !Cuts(Exec(s, cs[..k]), cs[k]) && !LogsIn(Exec(s, cs[..k]), cs[k], id)
  {
    var m, u := Exec(s, cs[..k]), Exec(s, cs);
    ExecInv(s, cs);
    ExecInv(s, cs[..k]);
    ExecNotBefore(s, cs[..k]);
    ExecSplits(s, cs, k);
    var n := Step(m, cs[k]);
    assert u == Exec(n, cs[k..][1..]);
    StepInv(m, cs[k]);
    StepNotBefore(m, cs[k]);
    ExecNotBefore(n, cs[k..][1..]);
    assert BindingOk(s, id) && BindingOk(u, id);
    assert u.tier == s.tier;
    if Cuts(m, cs[k]) { CutsRaiseTier(m, cs[k]); }
    ExecKeepsLogin(s, cs[..k], id);
    StepKeepsLogin(m, cs[k], id);
    ExecKeepsLogin(n, cs[k..][1..], id);
  }

  /** An account that drops out and comes back does so under a later tier generation and a
      later admission epoch. */
  lemma ReadmissionRaisesBoth(s: State, out: seq<Command>, back: seq<Command>, id: AuthId)
    requires Inv(s) && Active(s, id)
    requires var m := Exec(s, out); !Active(m, id) && Active(Exec(m, back), id)
    ensures var u := Exec(Exec(s, out), back);
            u.tier > s.tier && u.bindings[id].admission > s.bindings[id].admission
  {
    var m := Exec(s, out);
    ExecInv(s, out);
    ExecNotBefore(s, out);
    ExecKeepsLogin(s, out, id);
    ExecNotBefore(m, back);
    ExecInv(m, back);
    BackRaises(m, back, id);
    assert BindingOk(s, id) && BindingOk(Exec(m, back), id);
  }

  lemma OnlyRosterActivates(m: State, c: Command, id: AuthId)
    requires !Active(m, id) && Active(Step(m, c), id)
    ensures c.Roster?
  {
    hide Reconciled;
  }

  lemma {:induction false} BackRaises(m: State, back: seq<Command>, id: AuthId)
    requires Inv(m) && !Active(m, id) && Active(Exec(m, back), id)
    ensures Epoch(Exec(m, back), InstanceOf(id)) > Epoch(m, InstanceOf(id))
    decreases |back|
  {
    assert back != [];
    var n := Step(m, back[0]);
    assert Exec(m, back) == Exec(n, back[1..]);
    hide Exec;
    StepInv(m, back[0]);
    StepNotBefore(m, back[0]);
    ExecNotBefore(n, back[1..]);
    if Active(n, id) {
      OnlyRosterActivates(m, back[0], id);
      assert n == Reconciled(m, back[0].index, back[0].incoming, back[0].observed);
      ReconciledEpoch(m, back[0].index, back[0].incoming, back[0].observed, id);
      hide Step, Reconciled, Inv;
    } else {
      hide Step, Inv;
      BackRaises(n, back[1..], id);
    }
  }

  // ---- Nothing else cuts ----

  /** The new tier of a roster that is taken, exactly: the smallest number that is neither
      zero nor below the old tier or the incoming generation, and above the old tier if the
      roster differs. */
  ghost predicate TierBound(s: State, index: map<AuthId, string>, incoming: nat, g: nat) {
    g >= 1 && g >= s.tier && g >= incoming && (Differs(s, index) && s.tier > 0 ==> g > s.tier)
  }

  lemma NewTierExactly(s: State, index: map<AuthId, string>, incoming: nat, observed: map<Instance, Fingerprint>)
    requires index != map[] && Observable(s, index, observed)
    ensures var u := Reconciled(s, index, incoming, observed);
            TierBound(s, index, incoming, u.tier) && forall g: nat | TierBound(s, index, incoming, g) :: u.tier <= g
  {
    ReconciledTier(s, index, incoming, observed);
    RosterChangedMeans(s, index);
    hide Reconciled, Differs, RosterChanged;
  }

  /** A roster the host could not be read for, or that confirms nothing, changes nothing. */
  lemma UnreadableChangesNothing(s: State, index: map<AuthId, string>, incoming: nat,
                                 observed: map<Instance, Fingerprint>)
    requires index == map[] || exists id :: Admitted(s, index, id) && InstanceOf(id) !in observed
    ensures Reconciled(s, index, incoming, observed) == s
  {
    if id :| Admitted(s, index, id) && InstanceOf(id) !in observed { assert id in index; }
  }

  /** An account that is active under the same auth index keeps everything but the tier. */
  lemma SameIndexKept(s: State, index: map<AuthId, string>, incoming: nat, observed: map<Instance, Fingerprint>,
                      id: AuthId)
    requires index != map[] && Observable(s, index, observed)
    requires Active(s, id) && id in index && index[id] == s.bindings[id].authIndex
    ensures var u := Reconciled(s, index, incoming, observed);
            id in u.bindings && u.bindings[id] == s.bindings[id].(generation := u.tier)
  {
    hide RosterGeneration, Readmissions, FreshChains, Observable;
  }

  /** An account that is admitted anew starts with the host's fingerprint; one that was
      active keeps its login and token epochs, a new one starts at one. */
  lemma AdmittedFresh(s: State, index: map<AuthId, string>, incoming: nat, observed: map<Instance, Fingerprint>,
                      id: AuthId)
    requires Inv(s) && index != map[] && Observable(s, index, observed)
    requires id in index && !(Active(s, id) && index[id] == s.bindings[id].authIndex)
    ensures var u, i := Reconciled(s, index, incoming, observed), InstanceOf(id);
            && id in u.bindings && i in observed
            && var b := u.bindings[id];
               && b.instance == i && b.authIndex == index[id] && b.fingerprint == observed[i] && b.generation == u.tier
               && b.admission == Epoch(u, i) > Epoch(s, i) && i in u.chained
               && b.blocked == (id in s.bindings && s.bindings[id].blocked)
               && (Active(s, id) ==> b.login == s.bindings[id].login && b.token == s.bindings[id].token)
               && (!Active(s, id) ==> b.login == 1 && b.token == 1)
               && (Epoch(s, i) > 0 ==> b.admission == Epoch(s, i) + 1)
               && (Epoch(s, i) == 0 ==> b.admission == if i in s.chained then 2 else 1)
  {
    ReconciledEpoch(s, index, incoming, observed, id);
    if id in s.bindings { assert BindingOk(s, id); }
    assert Admitted(s, index, id);
    hide RosterGeneration, Readmissions;
  }

  /** A roster that does not differ, with nothing newer coming in, leaves the state as it was,
      exactly unless an account is known only by its blocked flag. */
  lemma SameRosterChangesNothing(s: State, index: map<AuthId, string>, incoming: nat,
                                 observed: map<Instance, Fingerprint>)
    requires Inv(s) && Observable(s, index, observed) && !Differs(s, index) && incoming <= s.tier
    ensures Reconciled(s, index, incoming, observed) == s <==> forall id | id in s.bindings :: Active(s, id)
  {
    if index == map[] {
    } else if forall id | id in s.bindings :: Active(s, id) {
      SameRosterKeepsAll(s, index, incoming, observed);
    } else {
      var id :| id in s.bindings && !Active(s, id);
      AdmittedFresh(s, index, incoming, observed, id);
    }
  }

  lemma SameRosterRest(s: State, index: map<AuthId, string>, incoming: nat, observed: map<Instance, Fingerprint>)
    requires Observable(s, index, observed) && index != map[] && index.Keys == s.bindings.Keys
    requires Readmissions(s, index) == map[] && FreshChains(s, index) == {}
    ensures var u := Reconciled(s, index, incoming, observed);
            u.bindings.Keys == s.bindings.Keys && u.admissions == s.admissions && u.chained == s.chained
  {
    hide Readmissions, FreshChains, Observable, RosterGeneration, NextBinding, Observed;
  }

  lemma SameRosterTier(s: State, index: map<AuthId, string>, incoming: nat, observed: map<Instance, Fingerprint>)
    requires Observable(s, index, observed) && index != map[] && !Differs(s, index) && incoming <= s.tier && s.tier > 0
    ensures Reconciled(s, index, incoming, observed).tier == s.tier
  {
    NewTierExactly(s, index, incoming, observed);
    assert TierBound(s, index, incoming, s.tier);
    hide Reconciled, Observable;
  }

  lemma SameBindingKept(s: State, index: map<AuthId, string>, incoming: nat, observed: map<Instance, Fingerprint>,
                        id: AuthId)
    requires index != map[] && Observable(s, index, observed) && !Differs(s, index)
    requires Active(s, id) && BindingOk(s, id) && Reconciled(s, index, incoming, observed).tier == s.tier
    ensures var u := Reconciled(s, index, incoming, observed); id in u.bindings && u.bindings[id] == s.bindings[id]
  {
    hide Reconciled, Observable;
    SameIndexKept(s, index, incoming, observed, id);
  }

  lemma SameState(s: State, u: State)
    requires u.tier == s.tier && u.admissions == s.admissions && u.chained == s.chained
    requires u.bindings.Keys == s.bindings.Keys && forall id | id in s.bindings :: u.bindings[id] == s.bindings[id]
    ensures u == s
  {
    assert u.bindings == s.bindings;
  }

  lemma SameRosterKeepsAll(s: State, index: map<AuthId, string>, incoming: nat, observed: map<Instance, Fingerprint>)
    requires Inv(s) && index != map[] && Observable(s, index, observed) && !Differs(s, index) && incoming <= s.tier
    requires forall id | id in s.bindings :: Active(s, id)
    ensures Reconciled(s, index, incoming, observed) == s
  {
    var u := Reconciled(s, index, incoming, observed);
    NothingAdmitted(s, index);
    assert index.Keys == s.bindings.Keys;
    var some :| some in index;
    assert BindingOk(s, some);
    hide Reconciled, Observable, Readmissions, FreshChains, Differs, BindingOk;
    SameRosterRest(s, index, incoming, observed);
    SameRosterTier(s, index, incoming, observed);
    forall id | id in s.bindings ensures id in u.bindings && u.bindings[id] == s.bindings[id] {
      SameBindingKept(s, index, incoming, observed, id);
    }
    SameState(s, u);
  }

  /** Such an account joins a roster that lists it without an auth index, and the tier does
      not rise: the comparison counts it as a member already. */
  lemma SilentJoin(s: State, index: map<AuthId, string>, incoming: nat, observed: map<Instance, Fingerprint>,
                   id: AuthId)
    requires Inv(s) && Observable(s, index, observed) && !Differs(s, index) && incoming <= s.tier && s.tier > 0
    requires id in s.bindings && !Active(s, id)
    ensures var u := Reconciled(s, index, incoming, observed); Active(u, id) && u.tier == s.tier
  {
    NewTierExactly(s, index, incoming, observed);
    assert TierBound(s, index, incoming, s.tier);
    AdmittedFresh(s, index, incoming, observed, id);
  }

  lemma NothingAdmitted(s: State, index: map<AuthId, string>)
    requires !Differs(s, index) && forall id | id in s.bindings :: Active(s, id)
    ensures Readmissions(s, index) == map[] && FreshChains(s, index) == {}
  {
    forall id: AuthId ensures !Admitted(s, index, id) {}
  }

  // ---- Exactly when a writeback is accepted ----

  predicate RaisesTier(s: State, c: Command) {
    c.Roster? && c.index != map[] && Observable(s, c.index, c.observed) && c.incoming > s.tier
  }

  /** The step leaves the version of the account alone: no cut, no newer generation from the
      host, no newer login of the account. */
  ghost predicate Quiet(s: State, c: Command, id: AuthId) {
    !Cuts(s, c) && !RaisesTier(s, c) && !LogsIn(s, c, id)
  }

  ghost predicate QuietRun(s: State, cs: seq<Command>, id: AuthId)
    decreases |cs|
  {
    cs == [] || (Quiet(s, cs[0], id) && QuietRun(Step(s, cs[0]), cs[1..], id))
  }

  /** The fingerprint that owned rotations of the account leave, the last one's if any. */
  function LastOwned(cs: seq<Command>, id: AuthId, f: Fingerprint): Fingerprint
    decreases |cs|
  {
    if cs == [] then f
    else LastOwned(cs[1..], id, if cs[0].CommitOwned? && cs[0].id == id then cs[0].fingerprint else f)
  }

  /** The account is active under the same instance, admission, generation and login. */
  predicate SameVersion(s: State, u: State, id: AuthId) {
    && Active(s, id) && Active(u, id)
    && var b, d := s.bindings[id], u.bindings[id];
       d.instance == b.instance && d.admission == b.admission && d.generation == b.generation && d.login == b.login
  }

  lemma QuietRoster(s: State, index: map<AuthId, string>, incoming: nat, observed: map<Instance, Fingerprint>,
                    id: AuthId)
    requires Inv(s) && Active(s, id) && Quiet(s, Roster(index, incoming, observed), id)
    ensures var u := Reconciled(s, index, incoming, observed); Active(u, id) && u.bindings[id] == s.bindings[id]
  {
    if index != map[] && Observable(s, index, observed) {
      assert BindingOk(s, id);
      NewTierExactly(s, index, incoming, observed);
      assert TierBound(s, index, incoming, s.tier);
      SameIndexKept(s, index, incoming, observed, id);
    }
  }

  lemma QuietStep(s: State, c: Command, id: AuthId)
    requires Inv(s) && Active(s, id) && Quiet(s, c, id)
    ensures var u := Step(s, c);
            && SameVersion(s, u, id)
            && u.bindings[id].fingerprint ==
               if c.CommitOwned? && c.id == id then c.fingerprint else s.bindings[id].fingerprint
  {
    if c.Roster? { QuietRoster(s, c.index, c.incoming, c.observed, id); }
    hide Reconciled, Observable, Differs;
  }

  /** A step that is not quiet raises the tier or the account's login, for good. */
  lemma LoudStep(s: State, c: Command, id: AuthId)
    requires Inv(s) && Active(s, id) && !Quiet(s, c, id)
    ensures var u := Step(s, c);
            u.tier > s.tier || (Active(u, id) && u.bindings[id].login > s.bindings[id].login)
  {
    if Cuts(s, c) {
      CutsRaiseTier(s, c);
    } else if RaisesTier(s, c) {
      NewTierExactly(s, c.index, c.incoming, c.observed);
    } else {
      StepKeepsLogin(s, c, id);
    }
  }

  lemma {:induction false} SameVersionIff(s: State, cs: seq<Command>, id: AuthId)
    requires Inv(s) && Active(s, id)
    ensures SameVersion(s, Exec(s, cs), id) <==> QuietRun(s, cs, id)
    ensures QuietRun(s, cs, id) ==>
              Exec(s, cs).bindings[id].fingerprint == LastOwned(cs, id, s.bindings[id].fingerprint)
    decreases |cs|
  {
    if cs != [] {
      var n, rest := Step(s, cs[0]), cs[1..];
      var u := Exec(n, rest);
      assert u == Exec(s, cs);
      StepInv(s, cs[0]);
      if Quiet(s, cs[0], id) {
        QuietStep(s, cs[0], id);
        hide Step, Exec, Inv, Quiet;
        SameVersionIff(n, rest, id);
      } else {
        LoudStep(s, cs[0], id);
        StepNotBefore(s, cs[0]);
        ExecNotBefore(n, rest);
        ExecKeepsLogin(n, rest, id);
        ExecInv(n, rest);
        assert BindingOk(s, id) && (Active(u, id) ==> BindingOk(u, id));
        hide Step, Exec, Quiet;
      }
    }
  }

  /** The exact condition: a writeback captured under an admitted binding is accepted after a
      run if and only if every step was quiet for the account and the owned rotations in it,
      if any, left the fingerprint it was captured with. */
  lemma AcceptedIff(s: State, id: AuthId, fence: nat, cs: seq<Command>)
    requires Inv(s) && Active(s, id)
    ensures Accepts(Exec(s, cs), id, Capture(s.bindings[id], fence)) <==>
            QuietRun(s, cs, id) && LastOwned(cs, id, s.bindings[id].fingerprint) == s.bindings[id].fingerprint
  {
    SameVersionIff(s, cs, id);
    assert BindingOk(s, id);
    hide Exec, QuietRun, LastOwned;
  }

  // ---- The steps other than the roster ----

  /** The account logs in: a newer login is reported, or an external one is committed. */
  predicate Unblocks(s: State, c: Command, id: AuthId) {
    LogsIn(s, c, id) || (c.CommitExternal? && c.id == id && Active(s, id))
  }

  /** A binding that stays is blocked after a step exactly if the step blocks it, or it was
      blocked and did not log in. Its login count rises with logins alone, and its token count
      by one with each refresh of its own. */
  lemma BlockedIff(s: State, c: Command, id: AuthId)
    requires id in s.bindings && id in Step(s, c).bindings && Active(s, id)
    ensures var b, u := s.bindings[id], Step(s, c).bindings[id];
            && (u.blocked <==> c == MarkBlocked(id) || (b.blocked && !Unblocks(s, c, id)))
            && (u.login > b.login <==> Unblocks(s, c, id)) && (u.login != b.login ==> Unblocks(s, c, id))
            && u.token == b.token + (if c.CommitOwned? && c.id == id then 1 else 0)
  {}

  /** Each step leaves the account listed, and none logs it in. */
  predicate StaysOut(s: State, cs: seq<Command>, id: AuthId)
    decreases |cs|
  {
    cs == [] || (Active(Step(s, cs[0]), id) && !Unblocks(s, cs[0], id) && StaysOut(Step(s, cs[0]), cs[1..], id))
  }

  /** A blocked account stays blocked, through rosters, refreshes and other accounts' logins,
      until it logs in or leaves the roster. */
  lemma {:induction false} BlockedUntilLogin(s: State, cs: seq<Command>, id: AuthId)
    requires Active(s, id) && s.bindings[id].blocked && StaysOut(s, cs, id)
    ensures Active(Exec(s, cs), id) && Exec(s, cs).bindings[id].blocked
    decreases |cs|
  {
    if cs != [] {
      BlockedIff(s, cs[0], id);
      BlockedUntilLogin(Step(s, cs[0]), cs[1..], id);
    }
  }

  /** A step that names one account changes of another at most the tier it is counted in. */
  lemma OthersUntouched(s: State, c: Command, id: AuthId)
    requires Inv(s) && !c.Roster? && c.id != id
    ensures var u := Step(s, c);
            && (id in u.bindings <==> id in s.bindings)
            && (id in s.bindings ==> u.bindings[id] == s.bindings[id].(generation := u.bindings[id].generation))
            && Epoch(u, InstanceOf(id)) == Epoch(s, InstanceOf(id))
  {
    if c.CommitExternal? && c.id in s.bindings { assert BindingOk(s, c.id); }
  }
}
