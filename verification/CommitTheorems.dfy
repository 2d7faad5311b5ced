/** Commit and mount: refinement, the exact condition under which a commit can be mounted again,
    failure when the volume is full, and what every crash leaves. */
module CommitTheorems {
  import opened ArcTypes
  import opened Keys
  import opened Reader
  import opened Writer
  import opened Soundness
  import opened StageProofs
  import opened CommitProofs
  import opened Commit
  import opened Space

  // ---- What mounting a mixed ring yields ---------------------------------------------------------

  /** The volume the new generation mounts as. */
  function NewVolume(v: Vol, p: Prepared, s: Stage, slot: nat): Vol {
    Vol(Superblock(slot, CommitSuper(v, p)), Checkpoint(p.checkpointSector, p.record), NewView(v, s), map[],
        ReadBack(v.snapshots), NextAfter(SortedKeys(NewView(v, s).objects.Keys)), NextSnapshotAfter(v.snapshots), false)
  }

  /** The same volume, whichever ring slot it was mounted from. */
  predicate SameVolume(a: Vol, b: Vol) {
    a.(super := a.super.(slot := 0)) == b.(super := b.super.(slot := 0))
  }

  /** Only a new slot has a generation as high as a new slot's. */
  lemma NewIsHighest(d: Disk, v: Vol, p: Prepared, s: Stage, e: Disk, i: nat, slot: nat)
    requires Sound(d, v) && MixedRing(d, v, p, s, e) && i < RING_SLOTS && NewSlot(d, v, p, s, e, i)
    requires Valid(e, i) && Valid(e, slot)
    requires SlotCheckpoint(e, i).value.generation <= SlotCheckpoint(e, slot).value.generation
    ensures e[slot].super == CommitSuper(v, p)
  {
    MixedSlot(d, v, p, s, e, slot);
    assert SlotCheckpoint(e, i) == Some(p.record);
  }

  /** Selection returns a slot of the highest generation. */
  lemma SelectsHighest(e: Disk, i: nat, super: SuperRecord)
    requires |e| >= RING_SLOTS && Valid(e, i) && SlotCheckpoint(e, i).value.generation != 0
    requires forall slot: nat ::
      Valid(e, slot) && SlotCheckpoint(e, i).value.generation <= SlotCheckpoint(e, slot).value.generation
      ==> e[slot].super == super
    ensures Select(e).Ok? && Select(e).value.record == super
  {
    BestIsBest(e, RING_SLOTS, i);
    assert Valid(e, Best(e, RING_SLOTS).value);
  }

  /** Once one slot is new, a new slot is selected. */
  lemma SelectsNew(d: Disk, v: Vol, p: Prepared, s: Stage, e: Disk, i: nat)
    requires Sound(d, v) && MixedRing(d, v, p, s, e) && i < RING_SLOTS && NewSlot(d, v, p, s, e, i)
    requires Valid(e, i) && SlotCheckpoint(e, i) == Some(p.record)
    ensures Select(e).Ok? && Select(e).value.record == CommitSuper(v, p)
  {
    forall slot: nat | Valid(e, slot)
        && SlotCheckpoint(e, i).value.generation <= SlotCheckpoint(e, slot).value.generation
      ensures e[slot].super == CommitSuper(v, p)
    {
      NewIsHighest(d, v, p, s, e, i, slot);
    }
    assert p.record.generation != 0;
    SelectsHighest(e, i, CommitSuper(v, p));
  }

  lemma NewSlotValid(v: Vol, p: Prepared, e: Disk, i: nat)
    requires i < RING_SLOTS && i < |e| && e[i] == Super(CommitSuper(v, p))
    requires ReadCheckpoint(e, p.checkpointSector) == Ok(p.record)
    ensures Valid(e, i) && SlotCheckpoint(e, i) == Some(p.record)
  {
    assert RecognizedFlags(COMMIT_FLAGS);
  }

  lemma NewSuperMounts(d: Disk, v: Vol, p: Prepared, s: Stage, e: Disk)
    requires NewGeneration(d, v, p, s, e) && Select(e).Ok? && Select(e).value.record == CommitSuper(v, p)
    ensures Mount(e).Ok? && SameVolume(Mount(e).value, NewVolume(v, p, s, 0))
  {
    NextReadBack(v.snapshots);
    MountIs(e, Select(e).value, p.record, NewView(v, s), ReadBack(v.snapshots));
  }

  /** Once one slot is new, mounting yields the new volume. */
  lemma MountsNew(d: Disk, v: Vol, p: Prepared, s: Stage, e: Disk, i: nat)
    requires Sound(d, v) && MixedRing(d, v, p, s, e) && i < RING_SLOTS && NewSlot(d, v, p, s, e, i)
    ensures DiskOk(e) && Mount(e).Ok? && SameVolume(Mount(e).value, NewVolume(v, p, s, 0))
  {
    NewSlotValid(v, p, e, i);
    MixedRingOk(d, v, p, s, e);
    assert DiskOk(e);
    SelectsNew(d, v, p, s, e, i);
    NewSuperMounts(d, v, p, s, e);
  }

  /** A slot that survived with the current superblock. */
  predicate Survives(d: Disk, v: Vol, e: Disk, i: nat) {
    i < RING_SLOTS && i < |d| && OldSlot(d, e, i) && Valid(d, i) && d[i].super == v.super.record
  }

  /** A disk whose ring holds no new slot. */
  ghost predicate OldRing(d: Disk, v: Vol, e: Disk) {
    |e| == |d| >= RING_SLOTS && v.HighWater() <= |d|
    && (forall i | RING_SLOTS <= i < v.HighWater() :: e[i] == d[i])
    && (forall i: nat | i < RING_SLOTS :: OldSlot(d, e, i) || e[i] == Junk)
  }

  lemma OldRingSlot(d: Disk, v: Vol, e: Disk, i: nat)
    requires Sound(d, v) && OldRing(d, v, e) && i < RING_SLOTS && e[i].Super? && RecognizedFlags(e[i].super.flags)
    ensures OldSlot(d, e, i) && Valid(e, i) && SlotOk(e, i) && Valid(d, i)
    ensures SlotCheckpoint(e, i) == SlotCheckpoint(d, i)
    ensures SlotCheckpoint(e, i).value.generation <= v.checkpoint.record.generation
    ensures SlotCheckpoint(e, i).value.generation == v.checkpoint.record.generation ==> e[i].super == v.super.record
    ensures e[i].super.total == v.Total()
  {
    OldSlotReads(d, v, e, i);
    SlotsBelow(d, v, i);
  }

  lemma OldRingOk(d: Disk, v: Vol, e: Disk)
    requires Sound(d, v) && OldRing(d, v, e)
    ensures RingOk(e)
  {
    forall i: nat | i < RING_SLOTS && e[i].Super? && RecognizedFlags(e[i].super.flags)
      ensures Valid(e, i) && SlotOk(e, i)
    {
      OldRingSlot(d, v, e, i);
    }
    forall i: nat, j: nat | Valid(e, i) && Valid(e, j)
      ensures SlotsAgree(e, i, j)
    {
      OldRingSlot(d, v, e, i);
      OldRingSlot(d, v, e, j);
      assert SlotsAgree(d, i, j);
    }
  }

  /** While a slot with the current superblock survives, mounting yields the old volume. */
  lemma MountsOld(d: Disk, v: Vol, e: Disk, i: nat)
    requires Sound(d, v) && OldRing(d, v, e) && Survives(d, v, e, i)
    ensures DiskOk(e) && Mount(e).Ok? && Mount(d).Ok? && SameVolume(Mount(e).value, Mount(d).value)
  {
    hide Sound, SlotOk;
    OldRingOk(d, v, e);
    OldRingSlot(d, v, e, i);
    SoundBounds(d, v);
    assert Valid(e, i);
    MountLoads(e);
    BestIsBest(e, RING_SLOTS, i);
    var slot := Select(e).value.slot;
    OldRingSlot(d, v, e, slot);
    assert SlotCheckpoint(e, i) == SlotCheckpoint(d, v.super.slot);
    SameLoads(d, v, e);
  }

  /** The current generation reads the same from both disks. */
  lemma SameLoads(d: Disk, v: Vol, e: Disk)
    requires Sound(d, v) && |e| == |d| && forall i | RING_SLOTS <= i < v.HighWater() && i < |d| :: e[i] == d[i]
    ensures ReadCheckpoint(e, v.checkpoint.sector) == ReadCheckpoint(d, v.checkpoint.sector)
    ensures LoadView(e, v.checkpoint.record, v.Total()) == LoadView(d, v.checkpoint.record, v.Total())
    ensures LoadSnapshots(e, v.checkpoint.record) == LoadSnapshots(d, v.checkpoint.record)
  {
    hide LoadView, LoadSnapshots;
    SoundBounds(d, v);
    assert SlotOk(d, v.super.slot);
    GenerationKeeps(d, e, v.checkpoint.sector, v.Total());
    GenerationLoads(d, v.checkpoint.sector, v.Total());
    GenerationLoads(e, v.checkpoint.sector, v.Total());
    assert Core(d, v.HighWater()) == Core(e, v.HighWater());
  }

  /** When none survives, mounting fails or goes back to an older generation. */
  lemma MountsOlder(d: Disk, v: Vol, e: Disk)
    requires Sound(d, v) && OldRing(d, v, e) && forall i: nat :: !Survives(d, v, e, i)
    ensures Mount(e).Ok? ==>
      (Mount(e).value.checkpoint.record.generation < v.checkpoint.record.generation
          && Mount(e).value.Total() == v.Total())
  {
    hide Sound, SlotOk;
    if Mount(e).Ok? {
      var slot := Select(e).value.slot;
      OldRingSlot(d, v, e, slot);
      assert !Survives(d, v, e, slot);
    }
  }

  // ---- Commit, then mount -------------------------------------------------------------------------

  /** A finished commit of a volume within the limits: the ring is new in every slot. */
  lemma PublishMounts(d: Disk, v: Vol, p: Prepared, s: Stage)
    requires Sound(d, v) && BodyOk(d, v, p, s) && Remountable(v)
    requires RING_SLOTS <= v.HighWater() <= v.Total() <= |d|
    ensures var e := Publish(d, v, p);
      NewGeneration(d, v, p, s, e) && DiskOk(e) && Mount(e).Ok? && SameVolume(Mount(e).value, NewVolume(v, p, s, 0))
  {
    var e := Publish(d, v, p);
    PublishHolds(d, v, p);
    NewGenerationHolds(d, v, p, s, e);
    AllNew(d, v, p, s, e);
    MountsNew(d, v, p, s, e, 0);
  }

  lemma AllNew(d: Disk, v: Vol, p: Prepared, s: Stage, e: Disk)
    requires Closed(v, p) && HoldsCommit(d, v, p, e) && NewGeneration(d, v, p, s, e)
    requires RING_SLOTS <= v.HighWater() <= |d|
    requires forall i: nat | i < RING_SLOTS :: e[i] == Super(CommitSuper(v, p))
    ensures MixedRing(d, v, p, s, e) && NewSlot(d, v, p, s, e, 0)
  {
    forall i: nat | i < RING_SLOTS
      ensures NewSlot(d, v, p, s, e, i)
    {
    }
  }

  /** Commit refines the file system: for every sound volume that fits, within the limits the reader
      checks, `commit` and its own re-mount raise no error, nothing is dirty afterwards, names, types,
      contents and attributes are the same, the snapshot list is the same but for its labels, which are
      as the reader cuts them, and the new state is sound again. */
  lemma CommitRefines(d: Disk, v: Vol)
    requires Sound(d, v) && (v.Clean() || RoomFor(v)) && Remountable(v)
    ensures RING_SLOTS <= v.HighWater() <= v.Total() <= |d|
    ensures CommitEnding(d, v).Done?
    ensures var e, w := CommitDisk(d, v), CommitEnding(d, v).vol;
      Sound(e, w) && w.Clean() && Live(e, w) == Live(d, v) && w.Total() == v.Total()
      && w.snapshots == ReadBack(v.snapshots) && w.nextSnapshot == NextSnapshotAfter(v.snapshots)
    ensures var w := CommitEnding(d, v).vol;
      !v.Clean() ==>
        (w.checkpoint.record.generation == v.checkpoint.record.generation + 1 && w.HighWater() > v.HighWater()
         && w.HighWater() == NewHighWater(v)
         && w.view.objects.Keys == v.view.objects.Keys && multiset(w.view.names) == multiset(v.view.names))
  {
    SoundBounds(d, v);
    if v.Clean() {
      CleanAsRead(d, v);
    } else {
      RoomIff(d, v);
      PrepareBody(d, v);
      CommitRefinesBody(d, v, Prepare(v), FinalStage(v));
    }
  }

  /** A clean volume has its labels as read. */
  lemma CleanAsRead(d: Disk, v: Vol)
    requires Sound(d, v) && v.Clean()
    ensures ReadBack(v.snapshots) == v.snapshots && v.nextSnapshot == NextSnapshotAfter(v.snapshots)
  {
    hide Mount, DiskOk, VolumeOk, ReadBack, NextSnapshotAfter;
    CleanMounts(d, v);
    MountedAsRead(d);
  }

  lemma CommitRefinesBody(d: Disk, v: Vol, p: Prepared, s: Stage)
    requires Sound(d, v) && BodyOk(d, v, p, s) && Remountable(v) && s.objects.Keys == v.view.objects.Keys
    requires RING_SLOTS <= v.HighWater() <= v.Total() <= |d|
    ensures var e := Publish(d, v, p);
      Mount(e).Ok? && Sound(e, Mount(e).value) && Mount(e).value.Clean() && Live(e, Mount(e).value) == Live(d, v)
      && SameVolume(Mount(e).value, NewVolume(v, p, s, 0))
    ensures multiset(NewView(v, s).names) == multiset(v.view.names)
  {
    PublishMounts(d, v, p, s);
    DiskMounts(Publish(d, v, p));
    SortKeeps(v.view.names, NameKey);
  }

  /** Exactly which commits can be mounted again. The counts are checked only when the new checkpoint
      is read, and dangling attributes only when it is loaded, both after all four ring slots have
      been overwritten: outside this condition the published volume does not mount at all. */
  lemma CommitMountsIff(d: Disk, v: Vol)
    requires Sound(d, v) && !v.Clean() && RoomFor(v)
    ensures RING_SLOTS <= v.HighWater() <= v.Total() <= |d|
    ensures Mount(CommitDisk(d, v)).Ok? <==> Remountable(v)
  {
    SoundBounds(d, v);
    RoomIff(d, v);
    PrepareBody(d, v);
    PublishMountsIff(d, v, Prepare(v), FinalStage(v));
  }

  lemma PublishMountsIff(d: Disk, v: Vol, p: Prepared, s: Stage)
    requires Sound(d, v) && BodyOk(d, v, p, s)
    requires RING_SLOTS <= v.HighWater() <= v.Total() <= |d|
    ensures Mount(Publish(d, v, p)).Ok? <==> Remountable(v)
  {
    var e := Publish(d, v, p);
    PublishHolds(d, v, p);
    CheckpointReads(v, p, e);
    if Remountable(v) {
      PublishMounts(d, v, p, s);
    } else if !WithinLimits(v) {
      assert forall i: nat | i < RING_SLOTS :: SlotCheckpoint(e, i) == None;
      NoneBest(e, RING_SLOTS);
    } else {
      assert TreesLoad(d, v, s, p.record, e);
      assert LoadView(e, p.record, v.Total()).Err?;
      SelectedIsNew(v, p, e);
    }
  }

  lemma SelectedIsNew(v: Vol, p: Prepared, e: Disk)
    requires |e| >= RING_SLOTS && forall i: nat | i < RING_SLOTS :: e[i] == Super(CommitSuper(v, p))
    ensures Select(e).Ok? ==> Select(e).value.record == CommitSuper(v, p)
  {
  }

  lemma {:induction false} NoneBest(e: Disk, n: nat)
    requires n <= |e| && forall i: nat | i < n :: SlotCheckpoint(e, i) == None
    ensures Best(e, n) == None
  {
    if n != 0 {
      NoneBest(e, n - 1);
    }
  }

  // ---- A commit that does not fit ------------------------------------------------------------------

  lemma StageFailsOnlyFull(d: Disk, v: Vol)
    requires Sound(d, v)
    ensures FinalStage(v).flow.SpaceOnly() && ObjectsMoved(v, AllKeys(v), |AllKeys(v)|, FinalStage(v))
  {
    var keys := AllKeys(v);
    SoundReady(d, v);
    StageHolds(v, Core(d, v.HighWater()), keys, |keys|);
  }

  lemma FailsOnlyFull(v: Vol)
    requires FinalStage(v).flow.SpaceOnly()
    ensures Prepare(v).flow.SpaceOnly() && Prepare(v).objects == FinalStage(v).objects
  {
  }

  /** Re-labelling data slots and sizes, as a failed commit leaves them, keeps the invariant. */
  lemma MovedViewOk(v: Vol, core: Disk, objects: map<nat, Object>)
    requires ViewOk(v.view, v.dirty.Keys, core) && objects.Keys == v.view.objects.Keys
    requires forall k | k in objects :: objects[k] == v.view.objects[k] || objects[k] == Moved(v, k)
    ensures ViewOk(v.view.(objects := objects), v.dirty.Keys, core)
    ensures forall k | k in objects && k !in v.dirty :: objects[k] == v.view.objects[k]
    ensures forall k | k in objects ::
        objects[k].kind == v.view.objects[k].kind && objects[k].oidHigh == v.view.objects[k].oidHigh
  {
    forall k | k in objects && k !in v.dirty
      ensures objects[k] == v.view.objects[k]
    {
      assert v.view.objects[k].kind == FILE ==> v.view.objects[k].dataSlot == k;
    }
    assert ObjectsOk(objects);
    assert NamesOk(v.view.names, objects);
    assert Covered(v.view.(objects := objects), v.dirty.Keys);
  }

  /** Nor does it change anything a client sees. */
  lemma MovedFileSystem(d: Disk, v: Vol, objects: map<nat, Object>)
    requires objects.Keys == v.view.objects.Keys
    requires forall k | k in objects && k !in v.dirty :: objects[k] == v.view.objects[k]
    requires forall k | k in objects ::
        objects[k].kind == v.view.objects[k].kind && objects[k].oidHigh == v.view.objects[k].oidHigh
    ensures FileSystemOf(d, v.view.(objects := objects), v.dirty) == FileSystemOf(d, v.view, v.dirty)
  {
    var a, b := FileSystemOf(d, v.view.(objects := objects), v.dirty).entities,
        FileSystemOf(d, v.view, v.dirty).entities;
    forall k | k in objects
      ensures a[k] == b[k]
    {
    }
    assert a == b;
  }

  /** A commit that does not fit fails as full and for no other reason; the disk still mounts as
      before, and the in-memory file system, dirty data included, is the one before the call. */
  lemma FullCommitHarmless(d: Disk, v: Vol)
    requires Sound(d, v) && !v.Clean() && !RoomFor(v)
    ensures RING_SLOTS <= v.HighWater() <= v.Total() <= |d|
    ensures CommitEnding(d, v).Refused? && CommitEnding(d, v).error == VolumeFull
    ensures var e, w := CommitDisk(d, v), CommitEnding(d, v).vol;
      Mount(e).Ok? && Mount(d).Ok? && SameVolume(Mount(e).value, Mount(d).value) && Sound(e, w)
          && Live(e, w) == Live(d, v)
      && w.snapshots == v.snapshots && !w.Clean()
  {
    SoundBounds(d, v);
    RoomIff(d, v);
    StageFailsOnlyFull(d, v);
    FailsOnlyFull(v);
    FullBody(d, v, Prepare(v));
  }

  lemma FullBody(d: Disk, v: Vol, p: Prepared)
    requires Sound(d, v) && !v.Clean() && p.flow.Failed() && p.objects.Keys == v.view.objects.Keys
    requires RING_SLOTS < v.HighWater() && v.HighWater() + |p.flow.out| <= v.Total() <= |d|
    requires forall k | k in p.objects :: p.objects[k] == v.view.objects[k] || p.objects[k] == Moved(v, k)
    ensures var e, w := Publish(d, v, p), v.(view := v.view.(objects := p.objects));
      Mount(e) == Mount(d) && Sound(e, w) && Live(e, w) == Live(d, v)
  {
    hide DiskOk, Mount, Select, ReadCheckpoint, VolumeOk, FileSystemOf;
    var e := Publish(d, v, p);
    KeepsMount(d, v, e);
    KeepsVolume(d, v, e, p.objects);
  }

  /** The in-memory side fits a disk that agrees below the high-water mark. */
  lemma KeepsVolume(d: Disk, v: Vol, e: Disk, objects: map<nat, Object>)
    requires VolumeOk(d, v) && |e| == |d| && forall i | RING_SLOTS <= i < v.HighWater() && i < |d| :: e[i] == d[i]
    requires objects.Keys == v.view.objects.Keys
    requires forall k | k in objects :: objects[k] == v.view.objects[k] || objects[k] == Moved(v, k)
    ensures var w := v.(view := v.view.(objects := objects)); VolumeOk(e, w) && Live(e, w) == Live(d, v)
  {
    var core := Core(d, v.HighWater());
    assert core == Core(e, v.HighWater());
    MovedViewOk(v, core, objects);
    MovedFileSystem(d, v, objects);
    CoreKnows(d, v.HighWater());
    CoreKnows(e, v.HighWater());
    FileSystemKnows(core, d, v.view.(objects := objects), v.dirty);
    FileSystemKnows(core, e, v.view.(objects := objects), v.dirty);
  }

  /** A disk that agrees below the high-water mark, ring included, mounts the same. */
  lemma KeepsMount(d: Disk, v: Vol, e: Disk)
    requires Sound(d, v) && |e| == |d| && forall i | 0 <= i < v.HighWater() && i < |d| :: e[i] == d[i]
    ensures DiskOk(e) && Mount(e) == Mount(d) && Select(e) == Select(d)
    ensures ReadCheckpoint(e, v.checkpoint.sector) == ReadCheckpoint(d, v.checkpoint.sector)
  {
    hide Sound, SlotOk;
    SoundBounds(d, v);
    forall i: nat | i < RING_SLOTS
      ensures SlotCheckpoint(e, i) == SlotCheckpoint(d, i)
    {
      OldSlotReads(d, v, e, i);
    }
    OldRingOk(d, v, e);
    assert Valid(e, v.super.slot);
    SameBest(d, e, RING_SLOTS);
    SameLoads(d, v, e);
  }

  lemma {:induction false} SameBest(d: Disk, e: Disk, n: nat)
    requires n <= |d| && n <= |e| && forall i: nat | i < n :: SlotCheckpoint(e, i) == SlotCheckpoint(d, i)
    ensures Best(e, n) == Best(d, n)
  {
    if n != 0 {
      SameBest(d, e, n - 1);
    }
  }
}
