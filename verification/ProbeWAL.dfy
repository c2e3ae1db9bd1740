/** The durable record of a probe attempt: prepared, sending, sent or sent-unknown, gone.
    Every change names the exact attempt and the phases it may find it in. */
module ProbeWAL {
  import opened Basics

  datatype Phase = Prepared | Sending | Sent | SentUnknown

  /** Attempt zero does not exist. Times count nanoseconds, zero is unset. */
  datatype Attempt = Attempt(
    id: nat,
    phase: Phase,
    sendFence: nat,
    createdAt: int,
    sentAt: int,
    verifyNotBefore: int,
    suppressUntil: int)

  const TEN_MINUTES: int := 600 * 1_000_000_000

  function Rank(p: Phase): nat {
    match p
    case Prepared => 0
    case Sending => 1
    case Sent => 2
    case SentUnknown => 3
  }

  predicate Exact(m: map<Instance, Attempt>, i: Instance, id: nat, phases: set<Phase>) {
    i in m && id != 0 && m[i].id == id && m[i].phase in phases
  }

  const SentPhases := {Sending, Sent, SentUnknown}

  // ---- The transitions, on the map of records ----

  function AsSending(a: Attempt): Attempt {
    a.(phase := Sending, suppressUntil := if a.suppressUntil == 0 then a.createdAt + TEN_MINUTES else a.suppressUntil)
  }

  function WithSending(m: map<Instance, Attempt>, i: Instance, a: Attempt): map<Instance, Attempt> {
    if Exact(m, i, a.id, {Prepared}) then m[i := AsSending(a)] else m
  }

  function WithSent(m: map<Instance, Attempt>, i: Instance, id: nat, at: int): map<Instance, Attempt> {
    if Exact(m, i, id, {Sending}) then m[i := m[i].(phase := Sent, sentAt := at)] else m
  }

  function AsUnknown(a: Attempt, suppress: int): Attempt {
    a.(phase := SentUnknown, suppressUntil := if suppress > a.suppressUntil then suppress else a.suppressUntil)
  }

  function WithUnknown(m: map<Instance, Attempt>, i: Instance, id: nat, suppress: int): map<Instance, Attempt> {
    if Exact(m, i, id, SentPhases) then m[i := AsUnknown(m[i], suppress)] else m
  }

  function Without(m: map<Instance, Attempt>, i: Instance, id: nat, phases: set<Phase>): map<Instance, Attempt> {
    if Exact(m, i, id, phases) then m - {i} else m
  }

  /** A roster hold gives up what was only prepared; whatever may have been sent stays. */
  function WithoutPrepared(m: map<Instance, Attempt>, instances: set<Instance>): map<Instance, Attempt> {
    map i | i in m && !(i in instances && m[i].phase.Prepared?) :: m[i]
  }

  function NewAttempt(id: nat, now: int): Attempt {
    Attempt(id, Prepared, 0, now, 0, now, 0)
  }

  // ---- Recovery ----

  predicate Recoverable(a: Attempt, now: int) {
    a.phase in SentPhases && now >= a.verifyNotBefore
  }

  function Recovered(a: Attempt, now: int): Attempt {
    if a.phase.Sending? && a.id != 0 && Recoverable(a, now) then AsUnknown(a, a.suppressUntil) else a
  }

  function AllRecovered(m: map<Instance, Attempt>, now: int): map<Instance, Attempt> {
    map i | i in m :: Recovered(m[i], now)
  }

  datatype VerifyIntent = VerifyIntent(instance: Instance, attempt: nat, startedAfter: nat)

  /** A record is due for verification; one with no id can only be so if it is not sending. */
  predicate Verifiable(m: map<Instance, Attempt>, i: Instance, now: int) {
    i in m && Recoverable(m[i], now) && (m[i].phase.Sending? ==> m[i].id != 0)
  }

  class WAL {
    var attempts: map<Instance, Attempt>
    var lastId: nat

    constructor ()
      ensures attempts == map[] && lastId == 0
    {
      attempts, lastId := map[], 0;
    }

    /** The due pass takes up the attempt on record, or prepares a new one under a new id. */
    method Claim(i: Instance, now: int) returns (a: Attempt)
      modifies this
      ensures if i in old(attempts) && old(attempts)[i].id != 0
              then attempts == old(attempts) && lastId == old(lastId) && a == attempts[i]
              else lastId == old(lastId) + 1 && a == NewAttempt(lastId, now) && attempts == old(attempts)[i := a]
    {
      if i in attempts && attempts[i].id != 0 {
        return attempts[i];
      }
      lastId := lastId + 1;
      a := NewAttempt(lastId, now);
      attempts := attempts[i := a];
    }

    method FindExact(i: Instance, id: nat, phases: seq<Phase>) returns (found: bool)
      ensures found <==> Exact(attempts, i, id, set p | p in phases)
    {
      if i !in attempts || id == 0 || attempts[i].id != id {
        return false;
      }
      var n := 0;
      while n < |phases|
        invariant 0 <= n <= |phases| && attempts[i].phase !in phases[..n]
      {
        if attempts[i].phase == phases[n] {
          return true;
        }
        n := n + 1;
      }
      return false;
    }

    method PersistSending(i: Instance, a: Attempt) returns (ok: bool)
      modifies this`attempts
      ensures ok <==> Exact(old(attempts), i, a.id, {Prepared})
      ensures attempts == WithSending(old(attempts), i, a)
    {
      var b := a.(phase := Sending);
      if b.suppressUntil == 0 {
        b := b.(suppressUntil := b.createdAt + TEN_MINUTES);
      }
      ok := FindExact(i, a.id, [Prepared]);
      if ok {
        attempts := attempts[i := b];
      }
    }

    method PersistSent(i: Instance, id: nat, at: int) returns (ok: bool)
      modifies this`attempts
      ensures ok <==> Exact(old(attempts), i, id, {Sending})
      ensures attempts == WithSent(old(attempts), i, id, at)
    {
      ok := FindExact(i, id, [Sending]);
      if ok {
        attempts := attempts[i := attempts[i].(phase := Sent, sentAt := at)];
      }
    }

    method PersistSentUnknown(i: Instance, id: nat, suppress: int) returns (ok: bool)
      modifies this`attempts
      ensures ok <==> Exact(old(attempts), i, id, SentPhases)
      ensures attempts == WithUnknown(old(attempts), i, id, suppress)
    {
      ok := FindExact(i, id, [Sending, Sent, SentUnknown]);
      assert (set p | p in [Sending, Sent, SentUnknown]) == SentPhases;
      if ok {
        var a := attempts[i].(phase := SentUnknown);
        if suppress > a.suppressUntil {
          a := a.(suppressUntil := suppress);
        }
        attempts := attempts[i := a];
      }
    }

    method Complete(i: Instance, id: nat, phases: seq<Phase>) returns (ok: bool)
      modifies this`attempts
      ensures ok <==> Exact(old(attempts), i, id, set p | p in phases)
      ensures attempts == Without(old(attempts), i, id, set p | p in phases)
    {
      ok := FindExact(i, id, phases);
      if ok {
        attempts := attempts - {i};
      }
    }

    /** A failed run: after sending the outcome is unknown; before it, a prepared attempt is
        given up and one already sending is left for recovery. */
    method PersistFailure(i: Instance, id: nat, sent: bool, suppress: int) returns (ok: bool)
      modifies this`attempts
      ensures ok <==> Exact(old(attempts), i, id, if sent then SentPhases else {Prepared, Sending})
      ensures attempts == if sent then WithUnknown(old(attempts), i, id, suppress)
                          else Without(old(attempts), i, id, {Prepared})
    {
      if sent {
        ok := PersistSentUnknown(i, id, suppress);
        return;
      }
      ok := FindExact(i, id, [Prepared, Sending]);
      assert (set p | p in [Prepared, Sending]) == {Prepared, Sending};
      if ok && attempts[i].phase.Prepared? {
        attempts := attempts - {i};
      }
    }

    /** Every instance the controller knows is held while the roster is unconfirmed. */
    method HoldForRoster(instances: set<Instance>)
      modifies this`attempts
      ensures attempts == WithoutPrepared(old(attempts), instances)
    {
      ghost var before := attempts;
      var todo := instances;
      while todo != {}
        invariant todo <= instances && attempts == WithoutPrepared(before, instances - todo)
        decreases todo
      {
        var i :| i in todo;
        if i in attempts && attempts[i].phase.Prepared? {
          attempts := attempts - {i};
        }
        todo := todo - {i};
        assert attempts == WithoutPrepared(before, instances - todo);
      }
      assert instances - todo == instances;
    }

    /** Every record that may have been sent and is old enough gets a verify intent that
        must start after its send fence; a record still sending becomes sent-unknown first. */
    method RecoverChecked(now: int) returns (out: seq<VerifyIntent>)
      modifies this`attempts
      ensures attempts == AllRecovered(old(attempts), now)
      ensures forall n | 0 <= n < |out| ::
        && Verifiable(old(attempts), out[n].instance, now)
        && out[n].attempt == old(attempts)[out[n].instance].id
        && out[n].startedAfter == old(attempts)[out[n].instance].sendFence
      ensures forall i | Verifiable(old(attempts), i, now) :: exists n :: 0 <= n < |out| && out[n].instance == i
      ensures forall m, n | 0 <= m < n < |out| :: out[m].instance != out[n].instance
    {
      ghost var before := attempts;
      var snapshot := attempts;
      var todo := snapshot.Keys;
      out := [];
      while todo != {}
        invariant todo <= before.Keys == attempts.Keys && snapshot == before
        invariant forall i | i in before :: attempts[i] == if i in todo then before[i] else Recovered(before[i], now)
        invariant forall n | 0 <= n < |out| ::
          && out[n].instance !in todo && Verifiable(before, out[n].instance, now)
          && out[n].attempt == before[out[n].instance].id && out[n].startedAfter == before[out[n].instance].sendFence
        invariant forall i | Verifiable(before, i, now) && i !in todo ::
          exists n :: 0 <= n < |out| && out[n].instance == i
        invariant forall m, n | 0 <= m < n < |out| :: out[m].instance != out[n].instance
        decreases todo
      {
        var i :| i in todo;
        var a := snapshot[i];
        todo := todo - {i};
        ghost var sofar := out;
        if a.phase in SentPhases && now >= a.verifyNotBefore {
          var changed := false;
          if a.phase.Sending? {
            var ok := PersistSentUnknown(i, a.id, a.suppressUntil);
            changed := !ok;
          }
          if !changed {
            out := out + [VerifyIntent(i, a.id, a.sendFence)];
            assert out[|out| - 1].instance == i;
          }
        }
        assert forall n | 0 <= n < |sofar| :: out[n] == sofar[n];
      }
    }
  }

  // ---- When recovery is next worth running ----

  ghost predicate AnyRecoverable(m: map<Instance, Attempt>, now: int) {
    exists i :: i in m && Recoverable(m[i], now)
  }

  /** The earliest time at which some record becomes recoverable; zero when one is already. */
  method RecoveryDeadline(m: map<Instance, Attempt>) returns (found: bool, d: int)
    ensures found <==> exists i :: i in m && m[i].phase in SentPhases
    ensures found && d != 0 ==> forall now: int :: AnyRecoverable(m, now) <==> now >= d
    ensures found && d == 0 ==> exists i :: i in m && m[i].phase in SentPhases && m[i].verifyNotBefore == 0
  {
    found, d := false, 0;
    var todo := m.Keys;
    ghost var at: Instance := 0;
    while todo != {}
      invariant todo <= m.Keys
      invariant found <==> exists i :: i in m && i !in todo && m[i].phase in SentPhases
      invariant found ==> at in m && m[at].phase in SentPhases && m[at].verifyNotBefore == d && d != 0
      invariant found ==> forall i | i in m && i !in todo && m[i].phase in SentPhases :: d <= m[i].verifyNotBefore
      decreases todo
    {
      var i :| i in todo;
      todo := todo - {i};
      if m[i].phase in SentPhases {
        if m[i].verifyNotBefore == 0 {
          return true, 0;
        }
        if !found || m[i].verifyNotBefore < d {
          found, d, at := true, m[i].verifyNotBefore, i;
        }
      }
    }
    if found {
      forall now: int ensures AnyRecoverable(m, now) <==> now >= d {
        if now >= d { assert Recoverable(m[at], now); }
      }
    }
  }
}
