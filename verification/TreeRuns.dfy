/** The directory tree over whole runs, live and in every snapshot and ring generation. */
module TreeRuns {
  import opened ArcTypes
  import opened Keys
  import opened Reader
  import opened Writer
  import opened Soundness
  import opened StageProofs
  import opened CommitProofs
  import opened Commit
  import opened Space
  import opened CommitTheorems
  import opened Crash
  import opened Operations
  import opened OperationProofs
  import opened Namespace
  import opened Snapshots
  import opened Runs

  ghost predicate SnapshotRooted(d: Disk, s: Snapshot, total: nat) {
    SnapshotView(d, s, total).Ok? ==> Rooted(SnapshotView(d, s, total).value)
  }

  /** A loaded generation is a tree, and so is each of its snapshots. */
  ghost predicate GenerationRooted(d: Disk, record: CheckpointRecord, total: nat) {
    (LoadView(d, record, total).Ok? ==> Rooted(LoadView(d, record, total).value))
    && (LoadSnapshots(d, record).Ok? ==> forall s | s in LoadSnapshots(d, record).value :: SnapshotRooted(d, s, total))
  }

  ghost predicate RingRooted(d: Disk) {
    forall i: nat | Valid(d, i) :: GenerationRooted(d, SlotCheckpoint(d, i).value, d[i].super.total)
  }

  ghost predicate ListRooted(d: Disk, l: seq<Snapshot>, total: nat) {
    forall s | s in l :: SnapshotRooted(d, s, total)
  }

  /** Everything that can be reached is a tree: the live view, the snapshots, the ring generations. */
  ghost predicate AllRooted(d: Disk, v: Vol) {
    Rooted(v.view) && ListRooted(d, v.snapshots, v.Total()) && RingRooted(d)
  }

  // ---- Generations --------------------------------------------------------------------------------

  /** Snapshots in a core are trees on every disk that knows the core, if they are on one. */
  lemma ListKept(core: Disk, d: Disk, e: Disk, l: seq<Snapshot>, total: nat)
    requires Knows(core, d) && Knows(core, e) && SnapshotsOk(core, l, total) && ListRooted(d, l, total)
    ensures ListRooted(e, l, total)
  {
    hide SnapshotOk, Rooted, SnapshotView, SnapshotFileSystem, Knows;
    forall s | s in l
      ensures SnapshotRooted(e, s, total)
    {
      var i :| 0 <= i < |l| && l[i] == s;
      assert SnapshotOk(core, l[i], total);
      SnapshotReads(core, d, s, total);
      SnapshotReads(core, e, s, total);
      assert SnapshotRooted(d, s, total);
    }
  }

  /** A generation that stays in place stays a tree. */
  lemma GenerationStaysRooted(d: Disk, e: Disk, sector: nat, total: nat)
    requires GenerationOk(d, sector, total) && |e| == |d|
    requires forall i | RING_SLOTS <= i < ReadCheckpoint(d, sector).value.highWater :: e[i] == d[i]
    requires GenerationRooted(d, ReadCheckpoint(d, sector).value, total)
    ensures GenerationRooted(e, ReadCheckpoint(d, sector).value, total)
  {
    hide Rooted, LoadedOk, LoadView, LoadSnapshots, SnapshotOk, SnapshotView;
    var record := ReadCheckpoint(d, sector).value;
    var core := Core(d, record.highWater);
    GenerationKeeps(d, e, sector, total);
    GenerationLoads(d, sector, total);
    GenerationLoads(e, sector, total);
    assert core == Core(e, record.highWater);
    CoreKnows(d, record.highWater);
    CoreKnows(e, record.highWater);
    var l := LoadSnapshots(core, record).value;
    assert ListRooted(d, l, total);
    ListKept(core, d, e, l, total);
  }

  /** An untouched slot stays a tree. */
  lemma OldSlotRooted(d: Disk, v: Vol, e: Disk, i: nat)
    requires Sound(d, v) && |e| == |d| && i < RING_SLOTS && OldSlot(d, e, i) && RingRooted(d) && Valid(d, i)
    requires forall j | RING_SLOTS <= j < v.HighWater() && j < |d| :: e[j] == d[j]
    ensures SlotCheckpoint(e, i) == SlotCheckpoint(d, i)
    ensures GenerationRooted(e, SlotCheckpoint(e, i).value, e[i].super.total)
  {
    hide Sound, GenerationRooted, LoadedOk, SnapshotsOk;
    SoundBounds(d, v);
    SlotsBelow(d, v, i);
    OldSlotReads(d, v, e, i);
    assert GenerationRooted(d, SlotCheckpoint(d, i).value, d[i].super.total);
    GenerationStaysRooted(d, e, d[i].super.checkpointSector, d[i].super.total);
  }

  /** The committed view of a tree is a tree. */
  lemma NewViewRooted(v: Vol, s: Stage)
    requires Rooted(v.view) && s.objects.Keys == v.view.objects.Keys && ObjectsOk(s.objects)
    requires forall k | k in v.view.objects :: s.objects[k].kind == v.view.objects[k].kind
    ensures Rooted(NewView(v, s))
  {
    hide Rooted;
    SortKeeps(v.view.names, NameKey);
    RootedSame(v.view, NewView(v, s));
  }

  lemma NewGenerationRooted(d: Disk, v: Vol, p: Prepared, s: Stage, e: Disk)
    requires Sound(d, v) && NewGeneration(d, v, p, s, e)
    requires Rooted(NewView(v, s)) && ListRooted(d, v.snapshots, v.Total())
    requires KeepsCore(d, v, e)
    ensures GenerationRooted(e, p.record, v.Total())
  {
    hide Sound, Rooted, GenerationOk, FileSystemOf, SnapshotRooted, SnapshotsOk, Knows;
    SoundSnapshots(d, v);
    CoreKnows(d, v.HighWater());
    ListKept(Core(d, v.HighWater()), d, e, v.snapshots, v.Total());
    ReadBackRooted(e, v.snapshots, v.Total());
  }

  /** Only the labels differ. */
  lemma ReadBackRooted(d: Disk, l: seq<Snapshot>, total: nat)
    requires ListRooted(d, l, total)
    ensures ListRooted(d, ReadBack(l), total)
  {
    hide Rooted, FixedLabel, ReadCheckpoint, LoadView;
    var r := ReadBack(l);
    forall s | s in r
      ensures SnapshotRooted(d, s, total)
    {
      var i :| 0 <= i < |r| && r[i] == s;
      assert l[i] in l;
      assert SnapshotRooted(d, l[i], total) && SnapshotView(d, s, total) == SnapshotView(d, l[i], total);
    }
  }

  lemma OldRingRooted(d: Disk, v: Vol, e: Disk)
    requires Sound(d, v) && RingRooted(d) && OldRing(d, v, e)
    ensures RingRooted(e)
  {
    hide Sound, GenerationRooted;
    forall i: nat | Valid(e, i)
      ensures GenerationRooted(e, SlotCheckpoint(e, i).value, e[i].super.total)
    {
      OldRingSlot(d, v, e, i);
      OldSlotRooted(d, v, e, i);
    }
  }

  lemma MixedRingRooted(d: Disk, v: Vol, p: Prepared, s: Stage, e: Disk)
    requires Sound(d, v) && RingRooted(d) && MixedRing(d, v, p, s, e)
    requires Rooted(NewView(v, s)) && ListRooted(d, v.snapshots, v.Total()) && KeepsCore(d, v, e)
    ensures RingRooted(e)
  {
    hide Sound, GenerationRooted, NewGeneration, Rooted, ListRooted, KeepsCore;
    forall i: nat | Valid(e, i)
      ensures GenerationRooted(e, SlotCheckpoint(e, i).value, e[i].super.total)
    {
      MixedSlot(d, v, p, s, e, i);
      if OldSlot(d, e, i) {
        OldSlotRooted(d, v, e, i);
      } else {
        NewGenerationRooted(d, v, p, s, e);
      }
    }
  }

  /** Mounting a disk whose ring generations are trees. */
  lemma MountRooted(e: Disk)
    requires DiskOk(e) && RingRooted(e)
    ensures Mount(e).Ok? && AllRooted(e, Mount(e).value)
  {
    hide Rooted, SnapshotRooted, GenerationOk, LoadView, LoadSnapshots;
    MountLoads(e);
    assert GenerationRooted(e, SlotCheckpoint(e, Select(e).value.slot).value, e[Select(e).value.slot].super.total);
  }

  // ---- Steps --------------------------------------------------------------------------------------

  /** A rename that does not move a directory below itself. */
  ghost predicate MovesOutside(v: Vol, op: Op) {
    op.Rename? && RenameChild(v, op.parent, op.name, op.newParent, op.newName).Ok? ==>
      !Under(v.view.names, v.view.names[Find(v.view.names, op.parent, op.name).value].child, op.newParent)
  }

  lemma SizesRooted(v: Vol, oid: nat, bytes: seq<byte>, size: nat, flag: bool)
    requires Rooted(v.view) && oid in v.view.objects
    ensures Rooted(PutBytes(v, oid, bytes, size, flag).view)
  {
    hide NamesOk, Ranked, HasEntry;
    RootedSame(v.view, PutBytes(v, oid, bytes, size, flag).view);
  }

  lemma ResizeRooted(d: Disk, v: Vol, oid: nat, size: nat)
    requires Sound(d, v) && Rooted(v.view) && ResizeFile(d, v, oid, size, false).Ok?
    ensures Rooted(ResizeFile(d, v, oid, size, false).value.view)
  {
    hide Sound, Rooted, ResizeFile;
    ResizeFits(d, v, oid, size, false);
    SizesRooted(v, oid, Fit(Start(v, oid, Live(d, v).entities[oid].bytes, false), size), size, true);
  }

  lemma WriteRooted(d: Disk, v: Vol, oid: nat, offset: nat, data: seq<byte>)
    requires Sound(d, v) && Rooted(v.view) && WriteFile(d, v, oid, offset, data, false).Ok?
    ensures Rooted(WriteFile(d, v, oid, offset, data, false).value.view)
  {
    hide Sound, Rooted, ResizeFile, OldBytes;
    if offset + |data| > v.view.objects[oid].size {
      ResizeRooted(d, v, oid, offset + |data|);
    }
  }

  lemma EditRooted(d: Disk, v: Vol, op: Op)
    requires Sound(d, v) && Rooted(v.view) && MovesOutside(v, op)
    ensures Rooted(Edit(d, v, op).view)
  {
    hide Sound, Rooted, ResizeFile, WriteFile, Under;
    match op
    case MakeFile(parent, name) =>
      if CreateFile(v, parent, name).Ok? {
        CreateRooted(d, v, parent, name, FILE);
      }
    case MakeDirectory(parent, name) =>
      if CreateDirectory(v, parent, name).Ok? {
        CreateRooted(d, v, parent, name, DIRECTORY);
      }
    case Remove(parent, name) =>
      if RemoveChild(v, parent, name).Ok? {
        RemoveRooted(d, v, parent, name);
      }
    case Rename(parent, name, newParent, newName) =>
      if RenameChild(v, parent, name, newParent, newName).Ok? {
        RenameRootedIff(d, v, parent, name, newParent, newName);
      }
    case Resize(oid, size) =>
      if ResizeFile(d, v, oid, size, false).Ok? {
        ResizeRooted(d, v, oid, size);
      }
    case Put(oid, offset, data) =>
      if WriteFile(d, v, oid, offset, data, false).Ok? {
        WriteRooted(d, v, oid, offset, data);
      }
    case _ =>
  }

  lemma TakeRooted(d: Disk, v: Vol, labelText: seq<byte>, now: nat)
    requires Sound(d, v) && AllRooted(d, v) && TakeSnapshot(v, labelText, now).Ok?
    ensures AllRooted(d, TakeSnapshot(v, labelText, now).value)
  {
    hide Sound, Rooted, RingRooted, LoadedOk;
    CurrentGeneration(d, v);
  }

  lemma IntentRooted(d: Disk, v: Vol, op: Op)
    requires Sound(d, v) && AllRooted(d, v) && Intent(d, v, op).Some?
    ensures AllRooted(d, Intent(d, v, op).value)
  {
    hide Sound, Rooted, RingRooted, SnapshotView;
    match op
    case Take(labelText, now) => TakeRooted(d, v, labelText, now);
    case Drop(id) => DropTakes(d, v, id);
    case Roll(id) =>
      var s := v.snapshots[FindSnapshot(v.snapshots, id).value];
      assert s in v.snapshots && SnapshotRooted(d, s, v.Total());
    case _ =>
  }

  /** What a commit writes is a tree if the volume is. */
  lemma StageRooted(d: Disk, v: Vol)
    requires Sound(d, v) && Rooted(v.view) && !Prepare(v).flow.Failed()
    ensures Rooted(NewView(v, FinalStage(v)))
  {
    hide Rooted, Prepare, WriteObjects, Sound;
    SoundParts(d, v);
    StageFailsOnlyFull(d, v);
    MovedKinds(v, FinalStage(v).objects);
    NewViewRooted(v, FinalStage(v));
  }

  lemma MovedKinds(v: Vol, objects: map<nat, Object>)
    requires ObjectsOk(v.view.objects) && objects.Keys == v.view.objects.Keys
    requires forall k | k in objects :: objects[k] == v.view.objects[k] || objects[k] == Moved(v, k)
    ensures ObjectsOk(objects) && forall k | k in objects :: objects[k].kind == v.view.objects[k].kind
  {
  }

  lemma PublishRooted(d: Disk, v: Vol, p: Prepared, s: Stage)
    requires Sound(d, v) && BodyOk(d, v, p, s) && Remountable(v) && InBounds(d, v)
    requires Rooted(NewView(v, s)) && ListRooted(d, v.snapshots, v.Total()) && RingRooted(d)
    ensures var e := Publish(d, v, p); DiskOk(e) && RingRooted(e)
  {
    hide Sound, Rooted, ListRooted, RingRooted, NewGeneration, DiskOk, Remountable, KeepsCore, BodyOk, Mount, MixedRing;
    BodyFits(d, v, p, s);
    var e := Publish(d, v, p);
    BodyClosed(d, v, p, s);
    PublishMounts(d, v, p, s);
    PublishHolds(d, v, p);
    AllNew(d, v, p, s, e);
    PublishKeepsCore(d, v, p);
    MixedRingRooted(d, v, p, s, e);
  }

  lemma FullRooted(d: Disk, v: Vol, p: Prepared)
    requires Sound(d, v) && p.flow.Failed() && v.HighWater() + |p.flow.out| <= |d| && InBounds(d, v) && RingRooted(d)
    ensures RingRooted(Publish(d, v, p))
  {
    hide Sound, RingRooted;
    OldRingRooted(d, v, Publish(d, v, p));
  }

  lemma SettleRooted(d: Disk, w: Vol)
    requires Sound(d, w) && AllRooted(d, w) && Settle(d, w).Some?
    ensures AllRooted(Settle(d, w).value.0, Settle(d, w).value.1)
  {
    hide Sound, Prepare, Mount, Remountable, Rooted, RingRooted, ListRooted, DiskOk, FinalStage, NewView, RoomFor;
    SoundBounds(d, w);
    RoomIff(d, w);
    if !w.Clean() && Prepare(w).flow.Failed() {
      FullRooted(d, w, Prepare(w));
      RefusedRooted(d, w);
    } else if !w.Clean() {
      CommitMountsIff(d, w);
      PrepareBody(d, w);
      StageRooted(d, w);
      PublishRooted(d, w, Prepare(w), FinalStage(w));
      MountRooted(CommitDisk(d, w));
    }
  }

  /** The volume a failed commit leaves is a tree with the same snapshots. */
  lemma RefusedRooted(d: Disk, v: Vol)
    requires Sound(d, v) && AllRooted(d, v) && !v.Clean() && Prepare(v).flow.Failed() && InBounds(d, v)
    ensures CommitEnding(d, v).Refused?
    ensures var x := CommitEnding(d, v).vol;
      Rooted(x.view) && x.snapshots == v.snapshots && x.Total() == v.Total()
          && ListRooted(CommitDisk(d, v), x.snapshots, x.Total())
  {
    hide Sound, Rooted, RingRooted, Prepare, ListRooted, FinalStage, Mount;
    StageFailsOnlyFull(d, v);
    FailsOnlyFull(v);
    SoundParts(d, v);
    MovedKinds(v, Prepare(v).objects);
    RootedSame(v.view, v.view.(objects := Prepare(v).objects));
    SoundSnapshots(d, v);
    CommitKeepsCore(d, v);
    CoreKnows(d, v.HighWater());
    ListKept(Core(d, v.HighWater()), d, CommitDisk(d, v), v.snapshots, v.Total());
  }

  // ---- Crashes --------------------------------------------------------------------------------------

  lemma PublishCrashRooted(d: Disk, v: Vol, p: Prepared, s: Stage, k: nat, torn: bool)
    requires Sound(d, v) && BodyOk(d, v, p, s) && (Remountable(v) || k <= |p.flow.out|) && InBounds(d, v)
    requires Rooted(NewView(v, s)) && ListRooted(d, v.snapshots, v.Total()) && RingRooted(d)
    requires k <= |PublishLog(v, p)| && (torn ==> k < |PublishLog(v, p)|)
    ensures forall w | w in PublishLog(v, p) :: w.sector < |d|
    ensures RingRooted(CrashDisk(d, PublishLog(v, p), k, torn))
  {
    hide Sound, BodyOk, Rooted, RingRooted, ListRooted, Remountable, NewGeneration, CrashDisk;
    hide PublishLog, NewView, MixedRing, KeepsCore;
    BodyFits(d, v, p, s);
    BodyClosed(d, v, p, s);
    LogInRange(d, v, p);
    LogElsewhere(v, p);
    var n, e := |p.flow.out|, CrashDisk(d, PublishLog(v, p), k, torn);
    CrashKeepsCore(d, v, PublishLog(v, p), k, torn);
    if k <= n {
      EarlyRing(d, v, p, k, torn);
      OldRingRooted(d, v, e);
    } else {
      CrashRingShape(d, v, p, k - n, torn);
      NewGenerationHolds(d, v, p, s, e);
      RingMixes(d, v, p, s, e);
      MixedRingRooted(d, v, p, s, e);
    }
  }

  lemma EarlyRing(d: Disk, v: Vol, p: Prepared, k: nat, torn: bool)
    requires InBounds(d, v) && v.HighWater() + |p.flow.out| <= |d| && k <= |p.flow.out|
    ensures forall w | w in PublishLog(v, p) :: w.sector < |d|
    ensures OldRing(d, v, CrashDisk(d, PublishLog(v, p), k, torn))
  {
    hide CrashDisk, PublishLog;
    if k == |p.flow.out| && torn {
      CrashInRing(d, v, p, 0, true);
    } else {
      CrashInBody(d, v, p, k, torn);
    }
  }

  lemma FullCrashRooted(d: Disk, v: Vol, p: Prepared, k: nat, torn: bool)
    requires Sound(d, v) && RingRooted(d) && InBounds(d, v) && v.HighWater() + |p.flow.out| <= |d|
    requires k <= |p.flow.out| && (torn ==> k < |p.flow.out|)
    ensures forall w | w in RunLog(v.HighWater(), p.flow.out) :: w.sector < |d|
    ensures RingRooted(CrashDisk(d, RunLog(v.HighWater(), p.flow.out), k, torn))
  {
    hide Sound, RingRooted, OldRing;
    var log := RunLog(v.HighWater(), p.flow.out);
    EarlyRing(d, v, p, k, torn);
    assert PublishLog(v, p)[..k] == log[..k];
    assert torn ==> PublishLog(v, p)[k] == log[k];
    OldRingRooted(d, v, CrashDisk(d, log, k, torn));
  }

  lemma CrashedRooted(d: Disk, w: Vol, k: nat, torn: bool)
    requires Sound(d, w) && AllRooted(d, w) && Crashed(d, w, k, torn).Some?
    ensures AllRooted(Crashed(d, w, k, torn).value.0, Crashed(d, w, k, torn).value.1)
  {
    hide Sound, Prepare, Mount, Remountable, DiskOk, Rooted, RingRooted, ListRooted, FinalStage, NewView;
    var p, e := Prepare(w), CrashDisk(d, CommitLog(w), k, torn);
    if w.Clean() {
      assert e == d;
    } else if p.flow.Failed() {
      assert CommitLog(w) == RunLog(w.HighWater(), p.flow.out);
      FullCrashRooted(d, w, p, k, torn);
    } else {
      assert CommitLog(w) == PublishLog(w, p);
      PrepareBody(d, w);
      StageRooted(d, w);
      PublishCrashRooted(d, w, p, FinalStage(w), k, torn);
    }
    CrashedKeeps(d, w, k, torn);
    SoundBounds(e, Crashed(d, w, k, torn).value.1);
    MountRooted(e);
  }

  // ---- Whole runs -----------------------------------------------------------------------------------

  lemma StepRooted(d: Disk, v: Vol, op: Op)
    requires Sound(d, v) && AllRooted(d, v) && MovesOutside(v, op) && Step(d, v, op).Some?
    ensures AllRooted(Step(d, v, op).value.0, Step(d, v, op).value.1)
  {
    hide Sound, Mount, Settle, Crashed, Intent, Edit, DiskOk, Rooted, RingRooted, ListRooted;
    match op
    case Save => SettleRooted(d, v);
    case Take(_, _) => CommitStepRooted(d, v, op);
    case Drop(_) => CommitStepRooted(d, v, op);
    case Roll(_) => CommitStepRooted(d, v, op);
    case Interrupt(during, k, torn) =>
      IntentSound(d, v, during);
      IntentRooted(d, v, during);
      CrashedRooted(d, Intent(d, v, during).value, k, torn);
    case Remount =>
      SoundBounds(d, v);
      MountRooted(d);
    case _ =>
      EditKeeps(d, v, op);
      EditRooted(d, v, op);
  }

  lemma CommitStepRooted(d: Disk, v: Vol, op: Op)
    requires Sound(d, v) && AllRooted(d, v)
    ensures Intent(d, v, op).Some? && Settle(d, Intent(d, v, op).value).Some? ==>
      AllRooted(Settle(d, Intent(d, v, op).value).value.0, Settle(d, Intent(d, v, op).value).value.1)
  {
    hide Sound, Settle, Intent, AllRooted;
    if Intent(d, v, op).Some? && Settle(d, Intent(d, v, op).value).Some? {
      IntentSound(d, v, op);
      IntentRooted(d, v, op);
      SettleRooted(d, Intent(d, v, op).value);
    }
  }

  /** Every rename of a run moves outside the subtree it moves. */
  ghost predicate RenamesOutside(d: Disk, v: Vol, ops: seq<Op>)
    decreases |ops|
  {
    |ops| == 0 ||
    (MovesOutside(v, ops[0])
     && (Step(d, v, ops[0]).Some? ==> RenamesOutside(Step(d, v, ops[0]).value.0, Step(d, v, ops[0]).value.1, ops[1..])))
  }

  /** The namespace stays a rooted tree over whole runs, through commits, rollbacks and crashes, in the
      live volume, in every snapshot and in every ring generation, as long as no rename moves a
      directory below itself. */
  lemma {:induction false} TreeThroughout(d: Disk, v: Vol, ops: seq<Op>)
    requires Sound(d, v) && AllRooted(d, v) && RenamesOutside(d, v, ops) && Exec(d, v, ops).Some?
    ensures AllRooted(Exec(d, v, ops).value.0, Exec(d, v, ops).value.1)
    decreases |ops|
  {
    hide Sound, Step, AllRooted, MovesOutside;
    if |ops| != 0 {
      StepKeeps(d, v, ops[0]);
      StepRooted(d, v, ops[0]);
      var (e, w) := Step(d, v, ops[0]).value;
      TreeThroughout(e, w, ops[1..]);
    }
  }
}
