/** The state file, its backup, and the operations a write consists of. A file is replaced by
    writing a temporary file and renaming it; renaming is atomic. */
module Disk {

  /** The persistent state; `rest` stands for everything the store treats as payload. */
  datatype Persistent = Persistent(schema: nat, fenceUnsafe: bool, reservedCeiling: nat, rest: nat)

  datatype Content = Missing | Good(value: Persistent) | Torn

  datatype Disk = Disk(
    primary: Content,
    backup: Content,
    primaryTmp: Content,
    backupTmp: Content,
    primaryEvidence: Content,
    backupEvidence: Content)

  datatype Target = Primary | Backup

  datatype Op =
    | Truncate(target: Target)                     // open the temporary file
    | Fill(target: Target, content: Content)       // write and sync it
    | Rename(target: Target)                       // move it into place
    | Sync(target: Target)                         // sync the directory; it may fail after the move
    | Quarantine(target: Target)                   // move a corrupt file aside

  const CURRENT_SCHEMA := 2
  const Fresh := Persistent(CURRENT_SCHEMA, false, 0, 0)
  const Emptied := Fresh.(fenceUnsafe := true)

  function Apply(d: Disk, op: Op): Disk {
    match op
    case Truncate(t) => if t.Primary? then d.(primaryTmp := Torn) else d.(backupTmp := Torn)
    case Fill(t, c) => if t.Primary? then d.(primaryTmp := c) else d.(backupTmp := c)
    case Rename(t) =>
      if t.Primary? then d.(primary := d.primaryTmp, primaryTmp := Missing)
      else d.(backup := d.backupTmp, backupTmp := Missing)
    case Sync(_) => d
    case Quarantine(t) =>
      if t.Primary? then d.(primaryEvidence := d.primary, primary := Missing)
      else d.(backupEvidence := d.backup, backup := Missing)
  }

  function Run(d: Disk, ops: seq<Op>): Disk {
    if ops == [] then d else Apply(Run(d, ops[..|ops| - 1]), ops[|ops| - 1])
  }

  function AtomicOps(t: Target, c: Content): seq<Op> {
    [Truncate(t), Fill(t, c), Rename(t), Sync(t)]
  }

  /** What a write does to the disk. The backup first: it takes the primary's old content,
      or, for a mirrored write or without a primary, the new state itself. */
  function WriteOps(d: Disk, v: Persistent, mirror: bool): seq<Op> {
    AtomicOps(Backup, if mirror || d.primary.Missing? then Good(v) else d.primary) + AtomicOps(Primary, Good(v))
  }

  // ---- Loading ----

  function Migrated(v: Persistent): Persistent {
    if v.schema < CURRENT_SCHEMA then v.(schema := CURRENT_SCHEMA) else v
  }

  datatype Loaded = Failed | Loaded(value: Persistent, usedBackup: bool, recoveredEmpty: bool)

  /** A corrupt file can be moved aside only once. */
  predicate CanQuarantine(d: Disk, t: Target) {
    if t.Primary? then d.primary.Torn? ==> d.primaryEvidence.Missing?
    else d.backup.Torn? ==> d.backupEvidence.Missing?
  }

  function Load(d: Disk): Loaded {
    if d.primary.Good? then Loaded(Migrated(d.primary.value), false, false)
    else if d.backup.Good? then
      if CanQuarantine(d, Primary) then Loaded(Migrated(d.backup.value), true, false) else Failed
    else if d.primary.Missing? && d.backup.Missing? then Loaded(Fresh, false, false)
    else if CanQuarantine(d, Primary) && CanQuarantine(d, Backup) then Loaded(Emptied, false, true)
    else Failed
  }

  /** The disk operations of a load that succeeds. */
  function LoadOps(d: Disk): seq<Op> {
    if d.primary.Good? then []
    else if d.backup.Good? then
      if d.primary.Torn? then [Quarantine(Primary)] + AtomicOps(Primary, Good(d.backup.value)) else []
    else if d.primary.Missing? && d.backup.Missing? then []
    else
      var q1 := if d.primary.Torn? then [Quarantine(Primary)] else [];
      var q2 := if d.backup.Torn? then [Quarantine(Backup)] else [];
      q1 + q2 + WriteOps(Run(d, q1 + q2), Emptied, false)
  }

  // ---- A write cut short anywhere ----

  /** What a load leaves: a good primary, or none beside a good or missing backup. */
  predicate Settled(d: Disk) {
    d.primary.Good? || (d.primary.Missing? && !d.backup.Torn?)
  }

  lemma RunFour(d: Disk, a: Op, b: Op, c: Op, e: Op, k: nat)
    requires k <= 4
    ensures var ops := [a, b, c, e];
            Run(d, ops[..k]) == if k == 0 then d else if k == 1 then Apply(d, a)
            else if k == 2 then Apply(Apply(d, a), b) else if k == 3 then Apply(Apply(Apply(d, a), b), c)
            else Apply(Apply(Apply(Apply(d, a), b), c), e)
  {
    var ops := [a, b, c, e];
    if k > 0 { assert ops[..k][..k - 1] == ops[..k - 1]; RunFour(d, a, b, c, e, k - 1); }
  }

  lemma {:induction false} RunSplits(d: Disk, a: seq<Op>, b: seq<Op>)
    ensures Run(d, a + b) == Run(Run(d, a), b)
    decreases |b|
  {
    if b == [] {
      assert a + b == a;
    } else {
      RunSplits(d, a, b[..|b| - 1]);
      assert (a + b)[..|a + b| - 1] == a + b[..|b| - 1];
    }
  }

  /** Replacing one file touches nothing else, and its target changes in one step. */
  lemma AtomicRun(d: Disk, t: Target, c: Content, k: nat)
    requires k <= 4
    ensures var u := Run(d, AtomicOps(t, c)[..k]);
            && u.primary == (if t.Primary? && k >= 3 then c else d.primary)
            && u.backup == (if t.Backup? && k >= 3 then c else d.backup)
            && u.primaryEvidence == d.primaryEvidence && u.backupEvidence == d.backupEvidence
  {
    RunFour(d, Truncate(t), Fill(t, c), Rename(t), Sync(t), k);
  }

  lemma WriteRun(d: Disk, v: Persistent, mirror: bool, k: nat)
    requires k <= 8
    ensures var u := Run(d, WriteOps(d, v, mirror)[..k]);
            && u.primary == (if k >= 7 then Good(v) else d.primary)
            && u.backup == (if k >= 3 then (if mirror || d.primary.Missing? then Good(v) else d.primary) else d.backup)
            && u.primaryEvidence == d.primaryEvidence && u.backupEvidence == d.backupEvidence
  {
    var c := if mirror || d.primary.Missing? then Good(v) else d.primary;
    var a, b := AtomicOps(Backup, c), AtomicOps(Primary, Good(v));
    if k <= 4 {
      assert WriteOps(d, v, mirror)[..k] == a[..k];
      AtomicRun(d, Backup, c, k);
    } else {
      assert WriteOps(d, v, mirror)[..k] == a + b[..k - 4];
      RunSplits(d, a, b[..k - 4]);
      AtomicRun(d, Backup, c, 4);
      assert a[..4] == a;
      AtomicRun(Run(d, a), Primary, Good(v), k - 4);
    }
  }

  /** A crash after any number of disk operations of a write leaves a disk that loads as the
      state before or as the new one, without using evidence or falling back to empty. */
  lemma CrashLeavesOldOrNew(d: Disk, v: Persistent, mirror: bool, k: nat)
    requires Settled(d) && v.schema == CURRENT_SCHEMA && k <= 8
    ensures var u := Run(d, WriteOps(d, v, mirror)[..k]);
            && Settled(u) && Load(u).Loaded? && !Load(u).recoveredEmpty
            && (Load(u).value == Load(d).value || Load(u).value == v)
            && (k >= 7 ==> Load(u) == Loaded(v, false, false))
  {
    WriteRun(d, v, mirror, k);
  }

  /** After a completed mirrored write either file alone suffices: whatever happens to the
      other, a load yields the new state or fails. */
  lemma MirrorSurvivesOneLoss(d: Disk, v: Persistent, lost: Target, left: Content)
    requires v.schema == CURRENT_SCHEMA && !left.Good?
    ensures var u := Run(d, WriteOps(d, v, true));
            var w := if lost.Primary? then u.(primary := left) else u.(backup := left);
            && (Load(w).Loaded? ==> Load(w).value == v && !Load(w).recoveredEmpty)
            && (Load(w).Failed? <==> lost.Primary? && left.Torn? && !d.primaryEvidence.Missing?)
  {
    WriteRun(d, v, true, 8);
    assert WriteOps(d, v, true)[..8] == WriteOps(d, v, true);
  }

  /** A plain write promises that only in part. With the primary lost after a write, a load
      fails exactly when the file is corrupt and evidence of an earlier corruption is in the
      way. Otherwise it returns what was written if and only if the write was mirrored, had no
      earlier primary to keep, or wrote what was there already, and else the previous state. */
  lemma LostPrimaryIff(d: Disk, v: Persistent, mirror: bool, left: Content)
    requires Settled(d) && v.schema == CURRENT_SCHEMA && !left.Good?
    ensures var w := Run(d, WriteOps(d, v, mirror)).(primary := left);
            && (Load(w).Failed? <==> left.Torn? && !d.primaryEvidence.Missing?)
            && (Load(w).Loaded? ==>
                  && Load(w).usedBackup && !Load(w).recoveredEmpty
                  && (Load(w).value == v <==> mirror || d.primary.Missing? || Load(d).value == v)
                  && (Load(w).value != v ==> Load(w).value == Load(d).value))
  {
    WriteRun(d, v, mirror, 8);
    assert WriteOps(d, v, mirror)[..8] == WriteOps(d, v, mirror);
  }

  /** The smallest case: one plain write after another. */
  lemma PlainWriteFallsBack()
    ensures var d := Disk(Good(Fresh), Missing, Missing, Missing, Missing, Missing);
            Load(Run(d, WriteOps(d, Emptied, false)).(primary := Missing)) == Loaded(Fresh, true, false)
  {
    var d := Disk(Good(Fresh), Missing, Missing, Missing, Missing, Missing);
    LostPrimaryIff(d, Emptied, false, Missing);
  }

  /** Repairing a corrupt primary from its backup may be cut short anywhere. */
  lemma RepairKeepsState(d: Disk, k: nat)
    requires d.primary.Torn? && d.backup.Good? && d.primaryEvidence.Missing? && k <= 5
    ensures var u := Run(d, LoadOps(d)[..k]);
            && Load(u).Loaded? && Load(u).value == Load(d).value
            && (k > 0 ==> Settled(u))
  {
    var q, b := [Quarantine(Primary)], AtomicOps(Primary, Good(d.backup.value));
    assert LoadOps(d) == q + b;
    if k > 0 {
      assert (q + b)[..k] == q + b[..k - 1];
      RunSplits(d, q, b[..k - 1]);
      AtomicRun(Run(d, q), Primary, Good(d.backup.value), k - 1);
    }
  }

  /** A load that succeeds leaves a settled disk that loads the same way again. */
  lemma LoadSettles(d: Disk)
    requires Load(d).Loaded?
    ensures var u := Run(d, LoadOps(d));
            Settled(u) && Load(u).Loaded? && Load(u).value == Load(d).value
  {
    if d.primary.Torn? && d.backup.Good? {
      RepairKeepsState(d, 5);
      assert LoadOps(d)[..5] == LoadOps(d);
    } else if !d.primary.Good? && !d.backup.Good? && !(d.primary.Missing? && d.backup.Missing?) {
      var q1 := if d.primary.Torn? then [Quarantine(Primary)] else [];
      var q2 := if d.backup.Torn? then [Quarantine(Backup)] else [];
      var w := Run(d, q1 + q2);
      RunSplits(d, q1 + q2, WriteOps(w, Emptied, false));
      WriteRun(w, Emptied, false, 8);
      assert WriteOps(w, Emptied, false)[..8] == WriteOps(w, Emptied, false);
    }
  }
}
