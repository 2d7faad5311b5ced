/** A commit as a whole: what it does to the disk, what mounting finds afterwards, and what mounting
    finds if the machine stops anywhere in between. */
module Commit {
  import opened ArcTypes
  import opened Keys
  import opened Reader
  import opened Writer
  import opened TreeProofs
  import opened Soundness
  import opened StageProofs
  import opened CommitProofs

  // ---- The specification -----------------------------------------------------------------------

  /** The disk once everything in `p` is written. */
  function Publish(d: Disk, v: Vol, p: Prepared): (e: Disk)
    requires RING_SLOTS <= v.HighWater() <= |d| && v.HighWater() + |p.flow.out| <= |d|
    ensures |e| == |d|
  {
    var body := Overwrite(d, v.HighWater(), p.flow.out);
    if p.flow.Failed() then body else WriteRing(body, CommitSuper(v, p))
  }

  /** The disk after `commit` returns or throws. */
  function CommitDisk(d: Disk, v: Vol): (e: Disk)
    requires RING_SLOTS <= v.HighWater() <= v.Total() <= |d|
    ensures |e| == |d|
  {
    if v.Clean() then d else Publish(d, v, Prepare(v))
  }

  /** How a commit ends. `Refused`: before the ring was touched, with the volume left as given.
      `Lost`: the new generation was published but this reader does not accept it; the fields are
      those the failed mount leaves. */
  datatype Ending = Done(vol: Vol) | Refused(error: Error, vol: Vol) | Lost(error: Error, vol: Vol)

  function CommitEnding(d: Disk, v: Vol): Ending
    requires RING_SLOTS <= v.HighWater() <= v.Total() <= |d|
  {
    if v.Clean() then Done(v) else
    var p := Prepare(v);
    if p.flow.Failed() then Refused(p.flow.error.value, v.(view := v.view.(objects := p.objects))) else
    match Mount(CommitDisk(d, v))
    case Ok(w) => Done(w)
    case Err(e) => Lost(e, MountLeaves(CommitDisk(d, v), v.(view := v.view.(objects := p.objects))))
  }

  // ---- The bounds a sound volume gives ----------------------------------------------------------

  lemma SoundBounds(d: Disk, v: Vol)
    requires Sound(d, v)
    ensures RING_SLOTS < v.HighWater() <= v.Total() <= |d|
    ensures RING_SLOTS <= v.checkpoint.sector < v.HighWater() && v.checkpoint.record.generation != 0
    ensures Valid(d, v.super.slot) && SlotOk(d, v.super.slot) && d[v.super.slot].super == v.super.record
    ensures SlotCheckpoint(d, v.super.slot) == Some(v.checkpoint.record)
    ensures v.super.record.checkpointSector == v.checkpoint.sector
    ensures DiskOk(d) && Mount(d).Ok? && v.super.slot == Select(d).value.slot
  {
    MountLoads(d);
    var slot := Select(d).value.slot;
    assert SlotOk(d, slot);
  }

  /** The selected generation is the latest, and no other slot's generation reaches higher. */
  lemma SlotsBelow(d: Disk, v: Vol, i: nat)
    requires Sound(d, v) && Valid(d, i)
    ensures SlotOk(d, i) && d[i].super.total == v.Total() && d[i].super.volumeId == v.super.record.volumeId
    ensures SlotCheckpoint(d, i).value.generation <= v.checkpoint.record.generation
    ensures SlotCheckpoint(d, i).value.highWater <= v.HighWater()
    ensures SlotCheckpoint(d, i).value.generation == v.checkpoint.record.generation ==> d[i].super == v.super.record
  {
    SoundBounds(d, v);
    assert SlotOk(d, i);
    BestIsBest(d, RING_SLOTS, i);
    assert SlotsAgree(d, i, v.super.slot) && SlotsAgree(d, v.super.slot, i);
  }

  lemma SuperIsValid(d: Disk, v: Vol, i: nat)
    requires Sound(d, v) && i < RING_SLOTS && i < |d| && d[i].Super? && RecognizedFlags(d[i].super.flags)
    ensures Valid(d, i)
  {
  }

  lemma SoundReady(d: Disk, v: Vol)
    requires Sound(d, v)
    ensures v.HighWater() <= |d| && Ready(v, Core(d, v.HighWater()), AllKeys(v))
    ensures SnapshotsOk(Core(d, v.HighWater()), v.snapshots, v.Total())
    ensures forall k | k in v.view.objects :: k in AllKeys(v)
  {
    hide DiskOk, Mount, SnapshotsOk, ObjectsOk, NamesOk, Covered, ExtentsOk;
    SortedKeysAre(v.view.objects.Keys);
  }

  // ---- The new generation, on any disk that holds it --------------------------------------------

  /** What a reader of `e` finds behind a checkpoint with `record`. */
  ghost predicate TreesLoad(d: Disk, v: Vol, s: Stage, record: CheckpointRecord, e: Disk) {
    v.HighWater() <= |d| && s.objects.Keys == v.view.objects.Keys &&
    (LoadView(e, record, v.Total()).Ok? <==> AttributesAttached(v))
    && (AttributesAttached(v) ==> LoadView(e, record, v.Total()) == Ok(NewView(v, s)) && LoadedOk(e, record, v.Total()))
    && LoadSnapshots(e, record) == Ok(ReadBack(v.snapshots))
    && FileSystemOf(e, NewView(v, s), map[]) == FileSystemOf(Core(d, v.HighWater()), v.view, v.dirty)
  }

  /** The checkpoint is the last sector of the body. */
  predicate Closed(v: Vol, p: Prepared) {
    !p.flow.Failed() && p.flow.start == v.HighWater() && p.flow.total == v.Total()
    && p.record.highWater == p.flow.Cursor() <= v.Total()
    && p.checkpointSector + 1 == p.record.highWater && p.checkpointSector >= v.HighWater() + 1
    && p.flow.out[|p.flow.out| - 1] == Check(p.record)
    && p.record.generation == v.checkpoint.record.generation + 1
    && p.record.objectCount == |v.view.objects| && p.record.nameCount == |v.view.names|
    && p.record.attributeCount == |v.view.attributes| && p.record.snapshotCount == |v.snapshots|
  }

  /** All that is used below about a successful `Prepare`: any disk that holds the body of the commit,
      and what the volume knew before, loads back as the volume. */
  ghost predicate BodyOk(d: Disk, v: Vol, p: Prepared, s: Stage) {
    Closed(v, p) && v.HighWater() <= |d| && (WithinLimits(v) ==>
    forall e: Disk {:trigger TreesLoad(d, v, s, p.record, e)} ::
      Knows(Core(d, v.HighWater()), e) && Written(e, p.flow) ==> TreesLoad(d, v, s, p.record, e))
  }

  /** `e` holds the old generation untouched and the whole body of the commit. */
  ghost predicate HoldsCommit(d: Disk, v: Vol, p: Prepared, e: Disk)
  {
    |e| == |d| && (forall i | RING_SLOTS <= i < v.HighWater() && i < |d| :: e[i] == d[i])
    && Written(e, p.flow)
  }

  /** What the new generation consists of. */
  ghost predicate NewGeneration(d: Disk, v: Vol, p: Prepared, s: Stage, e: Disk) {
    GenerationOk(e, p.checkpointSector, v.Total())
    && ReadCheckpoint(e, p.checkpointSector) == Ok(p.record)
    && LoadView(e, p.record, v.Total()) == Ok(NewView(v, s))
    && LoadSnapshots(e, p.record) == Ok(ReadBack(v.snapshots))
    && FileSystemOf(e, NewView(v, s), map[]) == Live(d, v)
  }

  /** The part of `e` the new generation needs. */
  lemma NewCore(d: Disk, v: Vol, e: Disk, highWater: nat)
    requires v.HighWater() <= |d| && |e| == |d| && RING_SLOTS <= v.HighWater() <= highWater <= |e|
    requires forall i | RING_SLOTS <= i < v.HighWater() :: e[i] == d[i]
    ensures Knows(Core(d, v.HighWater()), Core(e, highWater))
  {
  }

  lemma WrittenInCore(e: Disk, f: Flow)
    requires RING_SLOTS <= f.start && Written(e, f)
    ensures Written(Core(e, f.Cursor()), f)
  {
    assert Core(e, f.Cursor())[f.start..f.Cursor()] == e[f.start..f.Cursor()];
  }

  /** The trees and the files of the new generation, read from `core2`. */
  lemma NewTrees(v: Vol, core: Disk, core2: Disk, keys: seq<nat>, s: Stage, record: CheckpointRecord)
    requires StageDone(v, core, keys, s) && |s.extents| == MaxExtents(s.objects)
    requires var t := WriteForest(v, s);
      !t.snapshots.flow.Failed() && Written(core2, t.snapshots.flow) && Records(v, s, t, record)
    requires Knows(core, core2) && WithinLimits(v) && SnapshotsOk(core, v.snapshots, v.Total())
    ensures LoadView(core2, record, v.Total()).Ok? <==> AttributesAttached(v)
    ensures AttributesAttached(v) ==>
      LoadView(core2, record, v.Total()) == Ok(NewView(v, s)) && LoadedOk(core2, record, v.Total())
    ensures LoadSnapshots(core2, record) == Ok(ReadBack(v.snapshots))
    ensures FileSystemOf(core2, NewView(v, s), map[]) == FileSystemOf(core, v.view, v.dirty)
  {
    hide WriteForest, Ready, ExtentsPlaced;
    ForestGrows(v, s);
    WrittenBefore(core2, s.flow, WriteForest(v, s).snapshots.flow);
    ForestCollects(v, s, record, core2);
    StageExtents(v, core, keys, s);
    StageObjectsOk(v, core, keys, s);
    ViewLoads(v, s, record, core2);
    SnapshotsLoad(v.snapshots, core, v.Total());
    NewViewSound(v, core, keys, s, core2);
    FileSystemKept(v, core, keys, s, core2);
  }

  lemma StageObjectsOk(v: Vol, core: Disk, keys: seq<nat>, s: Stage)
    requires StageDone(v, core, keys, s)
    ensures ObjectsOk(s.objects) && NamesOk(v.view.names, s.objects) && Distinct(s.extents)
  {
  }

  /** The stage and the forest of a successful commit, as `NewTrees` wants them. */
  lemma CommitTrees(d: Disk, v: Vol, e: Disk)
    requires Sound(d, v) && !Prepare(v).flow.Failed() && WithinLimits(v)
    requires Knows(Core(d, v.HighWater()), e) && Written(e, Prepare(v).flow)
    ensures TreesLoad(d, v, FinalStage(v), Prepare(v).record, e)
  {
    hide Sound, DiskOk, Mount, Prepare, WriteForest, WriteObjects, LoadView, LoadSnapshots, LoadedOk;
    hide FileSystemOf, ViewOk, Ready;
    SoundBounds(d, v);
    SoundReady(d, v);
    var core, keys, s, p := Core(d, v.HighWater()), AllKeys(v), FinalStage(v), Prepare(v);
    var t := WriteForest(v, s);
    PrepareShape(v);
    ForestGrows(v, s);
    StageFinishes(v, core, keys);
    WrittenBefore(e, t.snapshots.flow, p.flow);
    NewTrees(v, core, e, keys, s, p.record);
  }

  lemma PrepareCloses(v: Vol)
    requires !Prepare(v).flow.Failed()
    ensures Closed(v, Prepare(v))
  {
    PrepareShape(v);
  }

  lemma PrepareBody(d: Disk, v: Vol)
    requires Sound(d, v) && !Prepare(v).flow.Failed()
    ensures BodyOk(d, v, Prepare(v), FinalStage(v))
  {
    PrepareCloses(v);
    if WithinLimits(v) {
      forall e: Disk | Knows(Core(d, v.HighWater()), e) && Written(e, Prepare(v).flow)
        ensures TreesLoad(d, v, FinalStage(v), Prepare(v).record, e)
      {
        CommitTrees(d, v, e);
      }
    }
  }

  /** The checkpoint reads back exactly when the counts are within the reader's limits. */
  lemma CheckpointReads(v: Vol, p: Prepared, e: Disk)
    requires Closed(v, p) && Written(e, p.flow)
    ensures WithinLimits(v) ==> ReadCheckpoint(e, p.checkpointSector) == Ok(p.record)
    ensures !WithinLimits(v) ==> ReadCheckpoint(e, p.checkpointSector).Err?
  {
    assert e[p.checkpointSector] == e[p.flow.start..p.flow.Cursor()][|p.flow.out| - 1];
  }

  /** The list the new generation carries. */
  lemma NewListOk(v: Vol, core: Disk, core2: Disk)
    requires SnapshotsOk(core, v.snapshots, v.Total()) && Knows(core, core2)
    ensures SnapshotsOk(core2, ReadBack(v.snapshots), v.Total())
  {
    hide SnapshotsOk, ReadBack;
    ReadBackOk(v.snapshots, core, v.Total());
    SnapshotsKnow(core, core2, ReadBack(v.snapshots), v.Total());
  }

  /** The new generation is complete on every disk that holds the body of the commit. */
  lemma NewGenerationHolds(d: Disk, v: Vol, p: Prepared, s: Stage, e: Disk)
    requires Sound(d, v) && BodyOk(d, v, p, s) && Remountable(v) && HoldsCommit(d, v, p, e)
    ensures NewGeneration(d, v, p, s, e)
  {
    var core := Core(d, v.HighWater());
    SoundBounds(d, v);
    CheckpointReads(v, p, e);
    var core2 := Core(e, p.record.highWater);
    NewCore(d, v, e, p.record.highWater);
    WrittenInCore(e, p.flow);
    assert TreesLoad(d, v, s, p.record, core2);
    NewListOk(v, core, core2);
    GenerationLoads(e, p.checkpointSector, v.Total());
    CoreKnows(e, p.record.highWater);
    FileSystemKnows(core2, e, NewView(v, s), map[]);
    CoreKnows(d, v.HighWater());
    FileSystemKnows(core, d, v.view, v.dirty);
  }

  /** A finished commit leaves its whole body below the ring it rewrote. */
  lemma PublishHolds(d: Disk, v: Vol, p: Prepared)
    requires RING_SLOTS <= v.HighWater() <= v.Total() <= |d| && Closed(v, p)
    ensures var e := Publish(d, v, p);
      HoldsCommit(d, v, p, e) && Knows(Core(d, v.HighWater()), e)
      && forall i: nat | i < RING_SLOTS :: e[i] == Super(CommitSuper(v, p))
  {
    var e := Publish(d, v, p);
    assert e[p.flow.start..p.flow.Cursor()] == p.flow.out;
  }

  // ---- Rings --------------------------------------------------------------------------------------

  /** A slot of `e` that reads as it did in `d`. */
  predicate OldSlot(d: Disk, e: Disk, i: nat) {
    i < |d| && i < |e| && e[i] == d[i]
  }

  lemma OldSlotReads(d: Disk, v: Vol, e: Disk, i: nat)
    requires Sound(d, v) && |e| == |d| && i < RING_SLOTS && OldSlot(d, e, i)
    requires forall j | RING_SLOTS <= j < v.HighWater() :: e[j] == d[j]
    ensures SlotCheckpoint(e, i) == SlotCheckpoint(d, i)
    ensures Valid(e, i) <==> Valid(d, i)
    ensures Valid(e, i) ==> SlotOk(e, i)
  {
    if Valid(d, i) {
      SlotsBelow(d, v, i);
      GenerationKeeps(d, e, d[i].super.checkpointSector, d[i].super.total);
    }
  }

  /** A slot of `e` that carries the new superblock, with the new generation in place. */
  ghost predicate NewSlot(d: Disk, v: Vol, p: Prepared, s: Stage, e: Disk, i: nat) {
    i < |e| && e[i] == Super(CommitSuper(v, p)) && NewGeneration(d, v, p, s, e)
  }

  /** A disk whose ring is old, torn or new in each slot, new slots only where the whole body is. */
  ghost predicate MixedRing(d: Disk, v: Vol, p: Prepared, s: Stage, e: Disk) {
    Closed(v, p) && |e| == |d| >= RING_SLOTS && v.HighWater() <= |d|
    && (forall i | RING_SLOTS <= i < v.HighWater() :: e[i] == d[i])
    && (forall i: nat | i < RING_SLOTS :: OldSlot(d, e, i) || e[i] == Junk || NewSlot(d, v, p, s, e, i))
  }

  /** What one slot of a mixed ring leads to: an old generation, or the new one. */
  lemma MixedSlot(d: Disk, v: Vol, p: Prepared, s: Stage, e: Disk, i: nat)
    requires Sound(d, v) && MixedRing(d, v, p, s, e) && i < RING_SLOTS
    requires e[i].Super? && RecognizedFlags(e[i].super.flags)
    ensures Valid(e, i) && SlotOk(e, i)
    ensures e[i].super.total == v.Total() && e[i].super.volumeId == v.super.record.volumeId
    ensures OldSlot(d, e, i) ==>
      (Valid(d, i) && SlotCheckpoint(e, i) == SlotCheckpoint(d, i)
       && SlotCheckpoint(e, i).value.generation <= v.checkpoint.record.generation
       && SlotCheckpoint(e, i).value.highWater <= v.HighWater()
       && (SlotCheckpoint(e, i).value.generation == v.checkpoint.record.generation ==> e[i].super == v.super.record))
    ensures !OldSlot(d, e, i) ==>
      (NewSlot(d, v, p, s, e, i) && SlotCheckpoint(e, i).value == p.record
       && p.record.generation == v.checkpoint.record.generation + 1 && p.record.highWater > v.HighWater())
  {
    hide Sound, LoadedOk, SnapshotsOk, Mount;
    if OldSlot(d, e, i) {
      SuperIsValid(d, v, i);
      OldSlotReads(d, v, e, i);
      SlotsBelow(d, v, i);
    }
  }

  /** Every such ring is sound. */
  lemma MixedRingOk(d: Disk, v: Vol, p: Prepared, s: Stage, e: Disk)
    requires Sound(d, v) && MixedRing(d, v, p, s, e)
    ensures RingOk(e)
  {
    forall i: nat | i < RING_SLOTS && e[i].Super? && RecognizedFlags(e[i].super.flags)
      ensures Valid(e, i) && SlotOk(e, i)
    {
      MixedSlot(d, v, p, s, e, i);
    }
    forall i: nat, j: nat | Valid(e, i) && Valid(e, j)
      ensures SlotsAgree(e, i, j)
    {
      MixedSlot(d, v, p, s, e, i);
      MixedSlot(d, v, p, s, e, j);
      if OldSlot(d, e, i) && OldSlot(d, e, j) {
        assert SlotsAgree(d, i, j);
      }
    }
  }
}
