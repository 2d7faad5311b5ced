/** Whole runs of a volume: any sequence of operations, commits, snapshot operations, remounts and
    crashes, and what holds throughout. */
module Runs {
  import opened ArcTypes
  import opened Reader
  import opened Writer
  import opened Soundness
  import opened CommitProofs
  import opened Commit
  import opened Space
  import opened CommitTheorems
  import opened Crash
  import opened Operations
  import opened OperationProofs
  import opened Snapshots

  datatype Op =
    | MakeFile(parent: nat, name: Name)
    | MakeDirectory(parent: nat, name: Name)
    | Remove(parent: nat, name: Name)
    | Rename(parent: nat, name: Name, newParent: nat, newName: Name)
    | Resize(oid: nat, size: nat)
    | Put(oid: nat, offset: nat, data: seq<byte>)
    | Save
    | Take(labelText: seq<byte>, now: nat)
    | Drop(id: nat)
    | Roll(id: nat)
    | Interrupt(during: Op, k: nat, torn: bool)   // a crash during the commit of `during`, then a mount
    | Remount

  function OrSame(r: Result<Vol>, v: Vol): Vol {
    if r.Ok? then r.value else v
  }

  /** After a resize or a write: an impossible buffer leaves the pending entry behind. */
  function OrEntered(r: Result<Vol>, v: Vol, oid: nat): Vol {
    if r == Err(BufferTooLong) then Entered(v, oid) else OrSame(r, v)
  }

  /** The in-memory operations; a refused one changes nothing but, for an impossible buffer, the
      pending entry. */
  ghost function Edit(d: Disk, v: Vol, op: Op): Vol {
    match op
    case MakeFile(parent, name) => OrSame(CreateFile(v, parent, name), v)
    case MakeDirectory(parent, name) => OrSame(CreateDirectory(v, parent, name), v)
    case Remove(parent, name) => OrSame(RemoveChild(v, parent, name), v)
    case Rename(parent, name, newParent, newName) => OrSame(RenameChild(v, parent, name, newParent, newName), v)
    case Resize(oid, size) => OrEntered(ResizeFile(d, v, oid, size, false), v, oid)
    case Put(oid, offset, data) => OrEntered(WriteFile(d, v, oid, offset, data, false), v, oid)
    case _ => v
  }

  /** The state an operation hands to `commit`, if it gets that far. */
  function Intent(d: Disk, v: Vol, op: Op): Option<Vol> {
    match op
    case Save => Some(v)
    case Take(labelText, now) => (match TakeSnapshot(v, labelText, now) case Ok(w) => Some(w) case Err(_) => None)
    case Drop(id) => (match DropSnapshot(v, id) case Ok(w) => Some(w) case Err(_) => None)
    case Roll(id) => (match RollBack(d, v, id) case Ok(w) => Some(w) case Err(_) => None)
    case _ => None
  }

  predicate InBounds(d: Disk, v: Vol) {
    RING_SLOTS <= v.HighWater() <= v.Total() <= |d|
  }

  /** A commit, unless it publishes a volume that cannot be mounted. */
  function Settle(d: Disk, w: Vol): Option<(Disk, Vol)> {
    if !InBounds(d, w) then None else
    match CommitEnding(d, w)
    case Done(x) => Some((CommitDisk(d, w), x))
    case Refused(_, x) => Some((CommitDisk(d, w), x))
    case Lost(_, _) => None
  }

  /** A crash during a commit, followed by a mount: anywhere in the commit of a volume this reader will
      mount again, and up to the first ring write of any other. */
  function Crashed(d: Disk, w: Vol, k: nat, torn: bool): Option<(Disk, Vol)> {
    if !InBounds(d, w) || !CrashPoint(w, k, torn) || !(Remountable(w) || k <= |Prepare(w).flow.out|)
       || !(forall x | x in CommitLog(w) :: x.sector < |d|) then None
    else
      var e := CrashDisk(d, CommitLog(w), k, torn);
      match Mount(e) case Ok(x) => Some((e, x)) case Err(_) => None
  }

  ghost function Step(d: Disk, v: Vol, op: Op): Option<(Disk, Vol)> {
    match op
    case Save => Settle(d, v)
    case Take(_, _) => if Intent(d, v, op).Some? then Settle(d, Intent(d, v, op).value) else Some((d, v))
    case Drop(_) => if Intent(d, v, op).Some? then Settle(d, Intent(d, v, op).value) else Some((d, v))
    case Roll(_) => if Intent(d, v, op).Some? then Settle(d, Intent(d, v, op).value) else Some((d, v))
    case Interrupt(during, k, torn) =>
      if Intent(d, v, during).Some? then Crashed(d, Intent(d, v, during).value, k, torn) else None
    case Remount => (match Mount(d) case Ok(x) => Some((d, x)) case Err(_) => None)
    case _ => Some((d, Edit(d, v, op)))
  }

  ghost function Exec(d: Disk, v: Vol, ops: seq<Op>): Option<(Disk, Vol)>
    decreases |ops|
  {
    if |ops| == 0 then Some((d, v)) else
    var next := Step(d, v, ops[0]);
    if next.None? then None else Exec(next.value.0, next.value.1, ops[1..])
  }

  // ---- One step keeps the invariant ---------------------------------------------------------------

  /** `e` keeps everything the committed part of `d` holds. */
  ghost predicate KeepsCore(d: Disk, v: Vol, e: Disk) {
    v.HighWater() <= |d| && Knows(Core(d, v.HighWater()), e)
  }

  lemma EditKeeps(d: Disk, v: Vol, op: Op)
    requires Sound(d, v)
    ensures var w := Edit(d, v, op);
      Sound(d, w) && w.super == v.super && w.checkpoint == v.checkpoint && w.snapshots == v.snapshots
  {
    hide Sound, ReadFile, OldBytes, FileSystemOf;
    match op
    case MakeFile(parent, name) =>
      if CreateFile(v, parent, name).Ok? {
        CreateAdds(d, v, parent, name, FILE);
      }
    case MakeDirectory(parent, name) =>
      if CreateDirectory(v, parent, name).Ok? {
        CreateAdds(d, v, parent, name, DIRECTORY);
      }
    case Remove(parent, name) =>
      if RemoveChild(v, parent, name).Ok? {
        RemoveTakes(d, v, parent, name);
      }
    case Rename(parent, name, newParent, newName) =>
      if RenameChild(v, parent, name, newParent, newName).Ok? {
        RenameMoves(d, v, parent, name, newParent, newName);
      }
    case Resize(oid, size) =>
      if ResizeFile(d, v, oid, size, false).Ok? {
        ResizeFits(d, v, oid, size, false);
      } else if IsFile(v, oid) {
        EnteredKeepsIff(d, v, oid);
      }
    case Put(oid, offset, data) =>
      if WriteFile(d, v, oid, offset, data, false).Ok? {
        WriteOverlays(d, v, oid, offset, data, false);
      } else if IsFile(v, oid) {
        EnteredKeepsIff(d, v, oid);
      }
    case _ =>
  }

  lemma IntentSound(d: Disk, v: Vol, op: Op)
    requires Sound(d, v) && Intent(d, v, op).Some?
    ensures var w := Intent(d, v, op).value; Sound(d, w) && w.super == v.super && w.checkpoint == v.checkpoint
  {
    hide Sound, SnapshotView, FileSystemOf;
    match op
    case Take(labelText, now) => TakePins(d, v, labelText, now);
    case Drop(id) => DropTakes(d, v, id);
    case Roll(id) => RollBackLoads(d, v, id);
    case _ =>
  }

  lemma PublishKeepsCore(d: Disk, v: Vol, p: Prepared)
    requires RING_SLOTS <= v.HighWater() && v.HighWater() + |p.flow.out| <= |d|
    ensures KeepsCore(d, v, Publish(d, v, p))
  {
  }

  lemma CommitKeepsCore(d: Disk, v: Vol)
    requires InBounds(d, v)
    ensures KeepsCore(d, v, CommitDisk(d, v))
  {
    hide Prepare;
    if !v.Clean() {
      PublishKeepsCore(d, v, Prepare(v));
    }
  }

  lemma SettleKeeps(d: Disk, w: Vol)
    requires Sound(d, w) && Settle(d, w).Some?
    ensures var (e, x) := Settle(d, w).value; Sound(e, x) && KeepsCore(d, w, e) && x.Total() == w.Total()
  {
    hide Sound, Prepare, Mount, Remountable, RoomFor, BitmapStart;
    SoundBounds(d, w);
    CommitKeepsCore(d, w);
    RoomIff(d, w);
    if !w.Clean() && Prepare(w).flow.Failed() {
      FullCommitHarmless(d, w);
    } else if !w.Clean() {
      CommitMountsIff(d, w);
      CommitRefines(d, w);
    }
  }

  // ---- Crashes ------------------------------------------------------------------------------------

  lemma {:induction false} ReplayElsewhere(d: Disk, log: seq<Write>, i: nat)
    requires (forall w | w in log :: w.sector < |d| && w.sector != i) && i < |d|
    ensures Replay(d, log)[i] == d[i]
  {
    if |log| != 0 {
      assert log[|log| - 1] in log;
      assert forall w | w in log[..|log| - 1] :: w in log;
      ReplayElsewhere(d, log[..|log| - 1], i);
    }
  }

  lemma LogElsewhere(v: Vol, p: Prepared)
    ensures forall w | w in RunLog(v.HighWater(), p.flow.out) :: w.sector >= v.HighWater()
    ensures forall w | w in PublishLog(v, p) :: w.sector < RING_SLOTS || w.sector >= v.HighWater()
  {
    forall w | w in PublishLog(v, p)
      ensures w.sector < RING_SLOTS || w.sector >= v.HighWater()
    {
      var i :| 0 <= i < |PublishLog(v, p)| && PublishLog(v, p)[i] == w;
      if i >= |p.flow.out| {
        assert w == RingLog(CommitSuper(v, p))[i - |p.flow.out|];
      }
    }
  }

  /** A crash touches neither the committed part of the disk nor its size. */
  lemma CrashKeepsCore(d: Disk, v: Vol, log: seq<Write>, k: nat, torn: bool)
    requires InBounds(d, v) && k <= |log| && (torn ==> k < |log|)
    requires forall w | w in log :: w.sector < |d| && (w.sector < RING_SLOTS || w.sector >= v.HighWater())
    ensures KeepsCore(d, v, CrashDisk(d, log, k, torn))
  {
    var e := CrashDisk(d, log, k, torn);
    forall i: nat | RING_SLOTS <= i < v.HighWater()
      ensures e[i] == d[i]
    {
      assert forall w | w in log[..k] :: w in log;
      ReplayElsewhere(d, log[..k], i);
      if torn {
        assert log[k] in log;
      }
    }
  }

  /** A crash of a commit that does not fit leaves the old volume. */
  lemma CrashWhileFull(d: Disk, v: Vol, p: Prepared, k: nat, torn: bool)
    requires Sound(d, v) && InBounds(d, v) && v.HighWater() + |p.flow.out| <= |d|
    requires k <= |p.flow.out| && (torn ==> k < |p.flow.out|)
    ensures forall w | w in RunLog(v.HighWater(), p.flow.out) :: w.sector < |d|
    ensures var e := CrashDisk(d, RunLog(v.HighWater(), p.flow.out), k, torn); DiskOk(e) && Mount(e) == Mount(d)
  {
    hide Sound, DiskOk, Mount;
    var log := RunLog(v.HighWater(), p.flow.out);
    CrashBefore(d, v, p, k, torn);
    assert PublishLog(v, p)[..k] == log[..k];
    assert torn ==> PublishLog(v, p)[k] == log[k];
  }

  lemma SameTotal(a: Vol, b: Vol)
    requires SameVolume(a, b)
    ensures a.Total() == b.Total()
  {
  }

  lemma NewTotal(v: Vol, p: Prepared, s: Stage)
    ensures NewVolume(v, p, s, 0).Total() == v.Total()
  {
  }

  /** The crash tears slot 0, or comes before it. */
  lemma EarlyCrashSound(d: Disk, v: Vol, p: Prepared, k: nat, torn: bool)
    requires Sound(d, v) && InBounds(d, v) && v.HighWater() + |p.flow.out| <= |d| && k <= |p.flow.out|
    ensures forall w | w in PublishLog(v, p) :: w.sector < |d|
    ensures var e := CrashDisk(d, PublishLog(v, p), k, torn);
      Mount(e).Ok? ==> DiskOk(e) && Mount(e).value.Total() == v.Total()
  {
    hide Sound, Mount, RingOk, DiskOk, CrashDisk, PublishLog, SameVolume;
    SoundSuper(d, v);
    if k == |p.flow.out| && torn {
      CrashAtFirst(d, v, p);
      var e := CrashDisk(d, PublishLog(v, p), k, torn);
      if Mount(e).Ok? {
        MountedIsOk(e);
        if Backed(d, v) {
          SameTotal(Mount(e).value, Mount(d).value);
        }
      }
    } else {
      CrashBefore(d, v, p, k, torn);
    }
  }

  /** After any crash that leaves something to mount, the disk is sound and still the same volume. */
  lemma PublishCrashSound(d: Disk, v: Vol, p: Prepared, s: Stage, k: nat, torn: bool)
    requires Sound(d, v) && BodyOk(d, v, p, s) && (Remountable(v) || k <= |p.flow.out|) && InBounds(d, v)
    requires k <= |PublishLog(v, p)| && (torn ==> k < |PublishLog(v, p)|)
    ensures forall w | w in PublishLog(v, p) :: w.sector < |d|
    ensures var e := CrashDisk(d, PublishLog(v, p), k, torn);
      Mount(e).Ok? ==> DiskOk(e) && Mount(e).value.Total() == v.Total()
  {
    hide Sound, BodyOk, Mount, RingOk, DiskOk, Remountable, Closed, CrashDisk, PublishLog, NewVolume, SameVolume;
    BodyFits(d, v, p, s);
    LogInRange(d, v, p);
    var n := |p.flow.out|;
    if k <= n {
      EarlyCrashSound(d, v, p, k, torn);
    } else {
      CrashAfter(d, v, p, s, k - n, torn);
      SameTotal(Mount(CrashDisk(d, PublishLog(v, p), k, torn)).value, NewVolume(v, p, s, 0));
      NewTotal(v, p, s);
    }
  }

  lemma BodyFits(d: Disk, v: Vol, p: Prepared, s: Stage)
    requires BodyOk(d, v, p, s) && InBounds(d, v)
    ensures v.HighWater() + |p.flow.out| <= |d|
  {
  }

  lemma SoundSuper(d: Disk, v: Vol)
    requires Sound(d, v)
    ensures Mount(d).Ok? && Mount(d).value.super == v.super
  {
    hide Mount, DiskOk, VolumeOk;
    MountLoads(d);
  }

  lemma MountedIsOk(e: Disk)
    requires RingOk(e) && Mount(e).Ok?
    ensures DiskOk(e)
  {
    hide RingOk, LoadView, LoadSnapshots;
    assert Valid(e, Select(e).value.slot);
  }

  lemma CrashedKeeps(d: Disk, w: Vol, k: nat, torn: bool)
    requires Sound(d, w) && Crashed(d, w, k, torn).Some?
    ensures var (e, x) := Crashed(d, w, k, torn).value; Sound(e, x) && KeepsCore(d, w, e) && x.Total() == w.Total()
  {
    hide Sound, Prepare, Mount, Remountable, DiskOk;
    var p, e := Prepare(w), CrashDisk(d, CommitLog(w), k, torn);
    SoundSuper(d, w);
    LogElsewhere(w, p);
    if w.Clean() {
      assert e == d;
      SoundBounds(d, w);
    } else if p.flow.Failed() {
      assert CommitLog(w) == RunLog(w.HighWater(), p.flow.out);
      CrashWhileFull(d, w, p, k, torn);
    } else {
      assert CommitLog(w) == PublishLog(w, p);
      PrepareBody(d, w);
      PublishCrashSound(d, w, p, FinalStage(w), k, torn);
    }
    CrashKeepsCore(d, w, CommitLog(w), k, torn);
    DiskMounts(e);
  }

  // ---- One step, and whole runs --------------------------------------------------------------------

  /** Every step of a mounted volume keeps the invariant, and every sector of the committed part. */
  lemma StepKeeps(d: Disk, v: Vol, op: Op)
    requires Sound(d, v) && Step(d, v, op).Some?
    ensures var (e, w) := Step(d, v, op).value; Sound(e, w) && KeepsCore(d, v, e) && w.Total() == v.Total()
  {
    hide Sound, Mount, Settle, Crashed, Intent, Edit, DiskOk;
    SoundBounds(d, v);
    SoundSuper(d, v);
    assert KeepsCore(d, v, d);
    match op
    case Save => SettleKeeps(d, v);
    case Take(_, _) => StepCommits(d, v, op);
    case Drop(_) => StepCommits(d, v, op);
    case Roll(_) => StepCommits(d, v, op);
    case Interrupt(during, k, torn) =>
      IntentSound(d, v, during);
      CrashedKeeps(d, Intent(d, v, during).value, k, torn);
    case Remount => DiskMounts(d);
    case _ => EditKeeps(d, v, op);
  }

  lemma StepCommits(d: Disk, v: Vol, op: Op)
    requires Sound(d, v)
    ensures Intent(d, v, op).Some? && Settle(d, Intent(d, v, op).value).Some? ==>
      var (e, w) := Settle(d, Intent(d, v, op).value).value; Sound(e, w) && KeepsCore(d, v, e) && w.Total() == v.Total()
  {
    hide Sound, Settle, Intent;
    if Intent(d, v, op).Some? && Settle(d, Intent(d, v, op).value).Some? {
      IntentSound(d, v, op);
      SettleKeeps(d, Intent(d, v, op).value);
    }
  }

  /** The list has snapshot `s`, up to what reading cuts from its label. */
  ghost predicate Lists(l: seq<Snapshot>, s: Snapshot) {
    exists t :: t in l && AsRead(t) == AsRead(s)
  }

  lemma ListedOk(d: Disk, v: Vol, s: Snapshot)
    requires Sound(d, v) && Lists(v.snapshots, s)
    ensures v.HighWater() <= |d| && SnapshotOk(Core(d, v.HighWater()), s, v.Total())
  {
    hide Sound, LoadedOk, FixedLabel;
    SoundSnapshots(d, v);
    var t :| t in v.snapshots && AsRead(t) == AsRead(s);
    var i :| 0 <= i < |v.snapshots| && v.snapshots[i] == t;
    assert SnapshotOk(Core(d, v.HighWater()), v.snapshots[i], v.Total());
  }

  /** A snapshot that stays on the list reads the same after a step. */
  lemma StepPreservesSnapshot(d: Disk, v: Vol, op: Op, s: Snapshot)
    requires Sound(d, v) && Step(d, v, op).Some? && Lists(v.snapshots, s)
    ensures var (e, w) := Step(d, v, op).value;
      SnapshotFileSystem(d, s, v.Total()).Some?
          && SnapshotFileSystem(e, s, w.Total()) == SnapshotFileSystem(d, s, v.Total())
      && SnapshotView(e, s, w.Total()) == SnapshotView(d, s, v.Total())
  {
    hide Sound, Step, SnapshotOk, SnapshotFileSystem, SnapshotView;
    StepKeeps(d, v, op);
    ListedOk(d, v, s);
    var core := Core(d, v.HighWater());
    CoreKnows(d, v.HighWater());
    SnapshotReads(core, d, s, v.Total());
    SnapshotReads(core, Step(d, v, op).value.0, s, v.Total());
  }

  /** Snapshot `s` is on the list in every state of a run, whether or not its label has been read back. */
  ghost predicate OnListThroughout(d: Disk, v: Vol, ops: seq<Op>, s: Snapshot)
    decreases |ops|
  {
    Lists(v.snapshots, s) &&
    (|ops| == 0 ||
     (Step(d, v, ops[0]).Some?
      && OnListThroughout(Step(d, v, ops[0]).value.0, Step(d, v, ops[0]).value.1, ops[1..], s)))
  }

  /** Snapshot immutability over whole runs: through any sequence of creates, removes, renames,
      resizes, writes, commits that succeed or fail, other snapshots taken and deleted, rollbacks,
      remounts and crashes, a snapshot that stays on the list pins the same file system, and shows the
      same objects and entries in the same order. */
  lemma {:induction false} SnapshotImmutable(d: Disk, v: Vol, ops: seq<Op>, s: Snapshot)
    requires Sound(d, v) && OnListThroughout(d, v, ops, s) && Exec(d, v, ops).Some?
    ensures var (e, w) := Exec(d, v, ops).value;
      Sound(e, w) && Lists(w.snapshots, s) && w.Total() == v.Total()
      && SnapshotFileSystem(d, s, v.Total()).Some?
         && SnapshotFileSystem(e, s, w.Total()) == SnapshotFileSystem(d, s, v.Total())
      && SnapshotView(e, s, w.Total()) == SnapshotView(d, s, v.Total())
    decreases |ops|
  {
    hide Sound, Step, SnapshotFileSystem, SnapshotView;
    if |ops| == 0 {
      OnListReads(d, v, s);
    } else {
      StepKeeps(d, v, ops[0]);
      StepPreservesSnapshot(d, v, ops[0], s);
      var (e, w) := Step(d, v, ops[0]).value;
      SnapshotImmutable(e, w, ops[1..], s);
    }
  }

  lemma OnListReads(d: Disk, v: Vol, s: Snapshot)
    requires Sound(d, v) && Lists(v.snapshots, s)
    ensures SnapshotFileSystem(d, s, v.Total()).Some?
  {
    hide Sound, SnapshotOk, SnapshotFileSystem, SnapshotView;
    ListedOk(d, v, s);
    var core := Core(d, v.HighWater());
    CoreKnows(d, v.HighWater());
    SnapshotReads(core, d, s, v.Total());
  }

  /** Whole runs keep the invariant. */
  lemma {:induction false} RunSound(d: Disk, v: Vol, ops: seq<Op>)
    requires Sound(d, v) && Exec(d, v, ops).Some?
    ensures Sound(Exec(d, v, ops).value.0, Exec(d, v, ops).value.1) && Exec(d, v, ops).value.1.Total() == v.Total()
    decreases |ops|
  {
    hide Sound, Step;
    if |ops| != 0 {
      StepKeeps(d, v, ops[0]);
      RunSound(Step(d, v, ops[0]).value.0, Step(d, v, ops[0]).value.1, ops[1..]);
    }
  }
}
