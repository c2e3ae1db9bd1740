/** The state store over whole histories of writes, failures, crashes and restarts. */
module Store {
  import opened Disk

  /** The store has loaded; `state` is its memory, which a failed write does not touch. */
  datatype Machine = Machine(disk: Disk, state: Persistent)

  /** `done` counts the operations a write got through, all of them if at least eight. With
      seven the new primary is in place but its directory could not be synced: the write
      reports an error and memory keeps the old state. */
  datatype Event =
    | Write(next: Persistent, mirror: bool, done: nat)
    | Restart

  /** What is written: the current schema, and never without a fence warning once raised. */
  function Stamped(state: Persistent, next: Persistent): Persistent {
    next.(schema := CURRENT_SCHEMA, fenceUnsafe := next.fenceUnsafe || state.fenceUnsafe)
  }

  predicate ReadOnly(m: Machine) {
    m.state.schema > CURRENT_SCHEMA
  }

  function OpsDone(m: Machine, e: Event): seq<Op>
    requires e.Write?
  {
    WriteOps(m.disk, Stamped(m.state, e.next), e.mirror)[..if e.done < 8 then e.done else 8]
  }

  function Step(m: Machine, e: Event): Machine {
    match e
    case Write(next, mirror, done) =>
      if ReadOnly(m) then m
      else Machine(Run(m.disk, OpsDone(m, e)), if done >= 8 then Stamped(m.state, next) else m.state)
    case Restart =>
      if Load(m.disk).Loaded? then Machine(Run(m.disk, LoadOps(m.disk)), Load(m.disk).value) else m
  }

  function Exec(m: Machine, es: seq<Event>): Machine
    decreases |es|
  {
    if es == [] then m else Exec(Step(m, es[0]), es[1..])
  }

  // ---- Only what was written ever comes back ----

  /** The states a load may return at the end: what was last completed, or attempted since. */
  function Candidates(m: Machine, es: seq<Event>, so: set<Persistent>): set<Persistent>
    decreases |es|
  {
    if es == [] then so
    else
      var now :=
        if es[0].Restart? || ReadOnly(m) then so
        else if es[0].done >= 7 then {Stamped(m.state, es[0].next)}
        else so + {Stamped(m.state, es[0].next)};
      Candidates(Step(m, es[0]), es[1..], now)
  }

  lemma WriteStep(m: Machine, e: Event)
    requires Settled(m.disk) && e.Write? && !ReadOnly(m)
    ensures var u, v := Step(m, e), Stamped(m.state, e.next);
            && Settled(u.disk) && Load(u.disk).Loaded?
            && (Load(u.disk).value == v || (e.done < 7 && Load(u.disk).value == Load(m.disk).value))
  {
    CrashLeavesOldOrNew(m.disk, Stamped(m.state, e.next), e.mirror, if e.done < 8 then e.done else 8);
  }

  /** Over any history, a load returns the last completed write or one attempted after it. */
  lemma {:induction false} LoadsOnlyWhatWasWritten(m: Machine, es: seq<Event>, so: set<Persistent>)
    requires Settled(m.disk) && Load(m.disk).value in so
    ensures var u := Exec(m, es);
            Settled(u.disk) && Load(u.disk).Loaded? && Load(u.disk).value in Candidates(m, es, so)
    decreases |es|
  {
    if es != [] {
      var u := Step(m, es[0]);
      if es[0].Restart? { LoadSettles(m.disk); } else if !ReadOnly(m) { WriteStep(m, es[0]); }
      var now :=
        if es[0].Restart? || ReadOnly(m) then so
        else if es[0].done >= 7 then {Stamped(m.state, es[0].next)}
        else so + {Stamped(m.state, es[0].next)};
      LoadsOnlyWhatWasWritten(u, es[1..], now);
    }
  }

  // ---- Memory against disk ----

  /** What memory holds after a step: a completed write changes it to what was asked for, with
      the current schema and any warning kept; a restart to what the disk says. From agreement
      a failed write leaves memory and disk apart exactly when it moved the new primary into
      place without syncing it, or had no primary to keep and moved the new backup into place. */
  lemma MemoryAgreesIff(m: Machine, e: Event)
    requires Settled(m.disk) && Load(m.disk).value == m.state && m.state.schema <= CURRENT_SCHEMA
    ensures var u := Step(m, e);
            && Settled(u.disk) && Load(u.disk).Loaded?
            && (e.Restart? ==> u.state == m.state == Load(u.disk).value)
            && (e.Write? ==>
                  var unsafe := e.next.fenceUnsafe || m.state.fenceUnsafe;
                  var v := Persistent(2, unsafe, e.next.reservedCeiling, e.next.rest);
                  && u.state == (if e.done >= 8 then v else m.state)
                  && (Load(u.disk).value == u.state <==>
                        || v == m.state || e.done >= 8
                        || (e.done < 7 && (e.done < 3 || !m.disk.primary.Missing?))))
  {
    if e.Restart? {
      LoadSettles(m.disk);
    } else {
      WriteRun(m.disk, Stamped(m.state, e.next), e.mirror, if e.done < 8 then e.done else 8);
    }
  }

  /** A state of a newer schema is never altered, by any history. */
  lemma {:induction false} NewerIsNeverTouched(m: Machine, es: seq<Event>)
    requires Settled(m.disk) && Load(m.disk).value == m.state && m.state.schema > CURRENT_SCHEMA
    ensures Exec(m, es) == m
    decreases |es|
  {
    if es != [] {
      assert LoadOps(m.disk) == [] && Run(m.disk, []) == m.disk;
      NewerIsNeverTouched(m, es[1..]);
    }
  }

  // ---- What a load does to the files ----

  ghost predicate Kept(u: Disk, c: Content) {
    c.Missing? || c == u.primary || c == u.backup || c == u.primaryEvidence || c == u.backupEvidence
  }

  /** A load that succeeds loses no content: what either file held, readable or not, is still
      in one of the files or set aside, and what was set aside before is untouched. */
  lemma LoadLosesNothing(d: Disk)
    requires Load(d).Loaded?
    ensures var u := Run(d, LoadOps(d));
            && Kept(u, d.primary) && Kept(u, d.backup)
            && (!d.primaryEvidence.Missing? ==> u.primaryEvidence == d.primaryEvidence)
            && (!d.backupEvidence.Missing? ==> u.backupEvidence == d.backupEvidence)
  {
    if d.primary.Torn? && d.backup.Good? {
      RepairOps(d);
      AtomicRun(Apply(d, Quarantine(Primary)), Primary, Good(d.backup.value), 4);
    } else if !d.primary.Good? && !d.backup.Good? && !(d.primary.Missing? && d.backup.Missing?) {
      var q1 := if d.primary.Torn? then [Quarantine(Primary)] else [];
      var q2 := if d.backup.Torn? then [Quarantine(Backup)] else [];
      EmptyOps(d, q1, q2);
      WriteRun(Run(Run(d, q1), q2), Emptied, false, 8);
    }
  }

  /** When a load fails, and what it returns: the first readable file's state, with only an
      older schema raised; without any file the first start's state, unwarned; and with none
      readable that state, warned. */
  lemma LoadExactly(d: Disk)
    ensures var torn := d.primary.Torn? && !d.primaryEvidence.Missing?;
            var worse := !d.backup.Good? && d.backup.Torn? && !d.backupEvidence.Missing?;
            Load(d).Failed? <==> !d.primary.Good? && (torn || worse)
    ensures Load(d).Loaded? ==>
              var file := if d.primary.Good? then d.primary else d.backup;
              var v := Load(d).value;
              && (file.Good? ==>
                    && v.schema == (if file.value.schema < 2 then 2 else file.value.schema)
                    && v == file.value.(schema := v.schema) && !Load(d).recoveredEmpty)
              && (!file.Good? ==>
                    && v == Persistent(2, !(d.primary.Missing? && d.backup.Missing?), 0, 0)
                    && (Load(d).recoveredEmpty <==> v.fenceUnsafe))
              && (Load(d).usedBackup <==> !d.primary.Good? && d.backup.Good?)
  {}

  // ---- The fence warning stays ----

  /** A load has reported the warning: memory carries it, and so does what a load returns. */
  predicate Warned(m: Machine) {
    && Settled(m.disk) && m.state.fenceUnsafe
    && Load(m.disk).Loaded? && Load(m.disk).value.fenceUnsafe
  }

  lemma WarnedStep(m: Machine, e: Event)
    requires Warned(m)
    ensures Warned(Step(m, e))
  {
    if e.Restart? {
      LoadSettles(m.disk);
    } else if !ReadOnly(m) {
      WriteStep(m, e);
    }
  }

  /** From then on every write, whatever it asks for and wherever it is cut short, and every
      restart keep it. */
  lemma {:induction false} WarningStays(m: Machine, es: seq<Event>)
    requires Warned(m)
    ensures Warned(Exec(m, es))
    decreases |es|
  {
    if es != [] {
      WarnedStep(m, es[0]);
      WarningStays(Step(m, es[0]), es[1..]);
    }
  }

  /** A load that lost both files raises the warning, in memory and in both files. */
  lemma EmptyRecoveryWarns(d: Disk)
    requires Load(d).Loaded? && Load(d).recoveredEmpty
    ensures var u := Run(d, LoadOps(d));
            Warned(Machine(u, Load(d).value)) && u.primary == u.backup == Good(Emptied)
  {
    var q1 := if d.primary.Torn? then [Quarantine(Primary)] else [];
    var q2 := if d.backup.Torn? then [Quarantine(Backup)] else [];
    var w := Run(d, q1 + q2);
    RunSplits(d, q1, q2);
    RunSplits(d, q1 + q2, WriteOps(w, Emptied, false));
    WriteRun(w, Emptied, false, 8);
    assert WriteOps(w, Emptied, false)[..8] == WriteOps(w, Emptied, false);
  }

  // ---- The program's own form ----

  class StateStore {
    var disk: Disk
    var readOnly: bool
    var loaded: bool
    var state: Persistent

    ghost function View(): Machine
      reads this
    {
      Machine(disk, state)
    }

    ghost predicate Valid()
      reads this
    {
      loaded ==> Settled(disk) && readOnly == ReadOnly(View())
    }

    constructor (d: Disk)
      ensures disk == d && !loaded && Valid()
    {
      disk, readOnly, loaded, state := d, false, false, Fresh;
    }

    /** Replace one file; after `budget` disk operations the rest does not happen. */
    method WriteAtomic(t: Target, c: Content, budget: nat) returns (left: nat, ok: bool)
      modifies this`disk
      ensures ok <==> budget >= 4
      ensures disk == Run(old(disk), AtomicOps(t, c)[..if ok then 4 else budget])
      ensures left == if ok then budget - 4 else 0
    {
      RunFour(disk, Truncate(t), Fill(t, c), Rename(t), Sync(t), if budget < 4 then budget else 4);
      left, ok := 0, false;
      if budget == 0 { return; }
      disk := Apply(disk, Truncate(t));
      if budget == 1 { return; }
      disk := Apply(disk, Fill(t, c));
      if budget == 2 { return; }
      disk := Apply(disk, Rename(t));
      if budget == 3 { return; }
      disk := Apply(disk, Sync(t));
      left, ok := budget - 4, true;
    }

    method MoveAside(t: Target) returns (ok: bool)
      modifies this`disk
      ensures ok <==> (if t.Primary? then old(disk).primary.Missing? || old(disk).primaryEvidence.Missing?
                       else old(disk).backup.Missing? || old(disk).backupEvidence.Missing?)
      ensures disk == if ok && (if t.Primary? then !old(disk).primary.Missing? else !old(disk).backup.Missing?)
                      then Apply(old(disk), Quarantine(t)) else old(disk)
      ensures ok && t.Primary? && !old(disk).primary.Missing? ==>
                disk == old(disk).(primary := Missing, primaryEvidence := old(disk).primary)
      ensures ok && t.Backup? && !old(disk).backup.Missing? ==>
                disk == old(disk).(backup := Missing, backupEvidence := old(disk).backup)
    {
      if (if t.Primary? then disk.primary else disk.backup).Missing? {
        return true;
      }
      if !(if t.Primary? then disk.primaryEvidence else disk.backupEvidence).Missing? {
        return false;
      }
      disk := Apply(disk, Quarantine(t));
      return true;
    }

    /** The first load of a process. A corrupt primary is replaced from the backup; when
        nothing readable is left the store starts empty and says so. */
    method LoadLocked() returns (r: Loaded)
      requires !loaded && !readOnly && state == Fresh
      modifies this
      ensures r == Load(old(disk)) && Valid() && loaded == r.Loaded?
      ensures r.Loaded? ==> disk == Run(old(disk), LoadOps(old(disk))) && state == r.value
    {
      ghost var d := disk;
      if Load(d).Loaded? { LoadSettles(d); }
      if disk.primary.Good? {
        r := Loaded(Migrated(disk.primary.value), false, false);
      } else if disk.backup.Good? {
        var v := disk.backup.value;
        if disk.primary.Torn? {
          RepairOps(d);
          var moved := MoveAside(Primary);
          if !moved { return Failed; }
          var left, ok := WriteAtomic(Primary, Good(v), 4);
        }
        r := Loaded(Migrated(v), true, false);
      } else if disk.primary.Missing? && disk.backup.Missing? {
        r := Loaded(Fresh, false, false);
      } else {
        r := RecoverEmpty();
        if r.Failed? { return; }
      }
      readOnly, loaded, state := r.value.schema > CURRENT_SCHEMA, true, r.value;
    }

    method RecoverEmpty() returns (r: Loaded)
      requires !disk.primary.Good? && !disk.backup.Good? && !(disk.primary.Missing? && disk.backup.Missing?)
      modifies this`disk
      ensures r == Load(old(disk))
      ensures r.Loaded? ==> disk == Run(old(disk), LoadOps(old(disk)))
    {
      ghost var d := disk;
      ghost var q1 := if d.primary.Torn? then [Quarantine(Primary)] else [];
      ghost var q2 := if d.backup.Torn? then [Quarantine(Backup)] else [];
      EmptyOps(d, q1, q2);
      if disk.primary.Torn? {
        var moved := MoveAside(Primary);
        if !moved { return Failed; }
      }
      assert disk == Run(d, q1);
      if disk.backup.Torn? {
        var moved := MoveAside(Backup);
        if !moved { return Failed; }
      }
      assert disk == Run(Run(d, q1), q2);
      var current := if disk.primary.Missing? then Good(Emptied) else disk.primary;
      WriteOpsSplit(disk, Emptied, false, 8);
      var left, ok := WriteAtomic(Backup, current, 8);
      left, ok := WriteAtomic(Primary, Good(Emptied), left);
      return Loaded(Emptied, false, true);
    }

    /** Write the backup, then the primary; only then does memory change. */
    method WriteLocked(next: Persistent, mirror: bool, budget: nat) returns (ok: bool)
      requires loaded && Valid()
      modifies this
      ensures Valid() && loaded
      ensures View() == Step(old(View()), Write(next, mirror, budget))
      ensures ok <==> !old(readOnly) && budget >= 8
    {
      if readOnly {
        return false;
      }
      WriteStep(View(), Write(next, mirror, budget));
      var v := next.(schema := CURRENT_SCHEMA);
      if state.fenceUnsafe {
        v := v.(fenceUnsafe := true);
      }
      var current := if mirror || disk.primary.Missing? then Good(v) else disk.primary;
      WriteOpsSplit(disk, v, mirror, if budget < 8 then budget else 8);
      var left;
      left, ok := WriteAtomic(Backup, current, budget);
      if !ok {
        return;
      }
      left, ok := WriteAtomic(Primary, Good(v), left);
      if ok {
        state := v;
      }
    }
  }

  lemma RepairOps(d: Disk)
    requires d.primary.Torn? && d.backup.Good?
    ensures Run(d, LoadOps(d)) == Run(Apply(d, Quarantine(Primary)), AtomicOps(Primary, Good(d.backup.value))[..4])
  {
    var q, b := [Quarantine(Primary)], AtomicOps(Primary, Good(d.backup.value));
    RunSplits(d, q, b);
    assert b[..4] == b;
    assert Run(d, q) == Apply(Run(d, []), q[0]);
  }

  lemma EmptyOps(d: Disk, q1: seq<Op>, q2: seq<Op>)
    requires !d.primary.Good? && !d.backup.Good? && !(d.primary.Missing? && d.backup.Missing?)
    requires q1 == (if d.primary.Torn? then [Quarantine(Primary)] else [])
    requires q2 == (if d.backup.Torn? then [Quarantine(Backup)] else [])
    ensures var w := Run(Run(d, q1), q2);
            && Run(d, LoadOps(d)) == Run(w, WriteOps(w, Emptied, false)[..8])
            && Run(d, q1) == (if d.primary.Torn? then Apply(d, Quarantine(Primary)) else d)
            && w == (if d.backup.Torn? then Apply(Run(d, q1), Quarantine(Backup)) else Run(d, q1))
  {
    var w := Run(d, q1 + q2);
    RunSplits(d, q1, q2);
    RunSplits(d, q1 + q2, WriteOps(w, Emptied, false));
    assert WriteOps(w, Emptied, false)[..8] == WriteOps(w, Emptied, false);
    if q1 != [] { assert q1[..0] == []; }
    if q2 != [] { assert q2[..0] == []; }
  }

  lemma WriteOpsSplit(d: Disk, v: Persistent, mirror: bool, k: nat)
    requires k <= 8
    ensures var c := if mirror || d.primary.Missing? then Good(v) else d.primary;
            var a, b := AtomicOps(Backup, c), AtomicOps(Primary, Good(v));
            Run(d, WriteOps(d, v, mirror)[..k]) ==
            if k < 4 then Run(d, a[..k]) else Run(Run(d, a[..4]), b[..k - 4])
  {
    var c := if mirror || d.primary.Missing? then Good(v) else d.primary;
    var a, b := AtomicOps(Backup, c), AtomicOps(Primary, Good(v));
    if k < 4 {
      assert WriteOps(d, v, mirror)[..k] == a[..k];
    } else {
      assert WriteOps(d, v, mirror)[..k] == a[..4] + b[..k - 4];
      RunSplits(d, a[..4], b[..k - 4]);
    }
  }
}
