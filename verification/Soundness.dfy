/** The abstract file system a volume stands for, and the invariant that ties a mounted volume to
    its disk. */
module Soundness {
  import opened ArcTypes
  import opened Keys
  import opened Reader

  // ---- The abstract file system ----------------------------------------------------------------

  /** An object as a client sees it; a directory has no bytes. */
  datatype Entity = Entity(kind: nat, oidHigh: nat, bytes: seq<byte>)

  /** A file system: objects with their contents, directory entries, attributes. */
  datatype FileSystem = FileSystem(entities: map<nat, Entity>, names: multiset<DirEntry>,
      attributes: multiset<Attribute>)

  /** Byte `k` of the eight-sector run at `e`. */
  function RawByte(d: Disk, e: nat, k: nat): byte {
    var s := e + k / SECTOR_SIZE;
    if s < |d| && d[s].Data? && k % SECTOR_SIZE < |d[s].bytes| then d[s].bytes[k % SECTOR_SIZE] else 0
  }

  /** Byte `i` of a data slot; a chunk without an extent reads as zeros. */
  function ByteAt(d: Disk, extents: map<(nat, nat), nat>, slot: nat, i: nat): byte {
    if (slot, i / CHUNK_SIZE) in extents then RawByte(d, extents[(slot, i / CHUNK_SIZE)], i % CHUNK_SIZE) else 0
  }

  /** The bytes of a file as stored on the disk. */
  function Stored(d: Disk, extents: map<(nat, nat), nat>, o: Object): (bytes: seq<byte>)
    ensures |bytes| == o.size
  {
    seq(o.size, i requires 0 <= i < o.size => ByteAt(d, extents, o.dataSlot, i))
  }

  /** The bytes a client reads: the dirty copy if there is one. */
  function Contents(d: Disk, view: View, dirty: map<nat, seq<byte>>, oid: nat): seq<byte>
    requires oid in view.objects
  {
    if view.objects[oid].kind != FILE then []
    else if oid in dirty then dirty[oid]
    else Stored(d, view.extents, view.objects[oid])
  }

  function FileSystemOf(d: Disk, view: View, dirty: map<nat, seq<byte>>): FileSystem {
    FileSystem(
      map oid | oid in view.objects ::
          Entity(view.objects[oid].kind, view.objects[oid].oidHigh, Contents(d, view, dirty, oid)),
      multiset(view.names),
      multiset(view.attributes))
  }

  /** The file system of a mounted volume, dirty data included. */
  function Live(d: Disk, v: Vol): FileSystem {
    FileSystemOf(d, v.view, v.dirty)
  }

  // ---- Views -----------------------------------------------------------------------------------

  predicate Apart(a: nat, b: nat) {
    a + NODE_SECTORS <= b || b + NODE_SECTORS <= a
  }

  /** Eight sectors of file data. */
  predicate BlockAt(d: Disk, e: nat) {
    RING_SLOTS <= e && e + NODE_SECTORS <= |d|
    && forall i | e <= i < e + NODE_SECTORS :: d[i].Data? && |d[i].bytes| == SECTOR_SIZE
  }

  predicate ObjectsOk(objects: map<nat, Object>) {
    ROOT_OID in objects && objects[ROOT_OID].kind == DIRECTORY
    && forall k | k in objects ::
      objects[k].oid == k && k != 0 && (objects[k].kind == FILE || objects[k].kind == DIRECTORY)
      && (objects[k].kind == FILE ==> objects[k].dataSlot == k)
  }

  /** Entries lead from directories to objects other than the root; no name is used twice in one
      directory, and no object has two entries. */
  ghost predicate NamesOk(names: seq<DirEntry>, objects: map<nat, Object>) {
    (forall e | e in names ::
       Readable(e.name) && e.parent in objects && objects[e.parent].kind == DIRECTORY
       && e.child in objects && e.child != ROOT_OID)
    && (forall e | e in names :: multiset(names)[e] == 1)
    && (forall a, b | a in names && b in names && a.parent == b.parent && a.name == b.name :: a == b)
    && (forall a, b | a in names && b in names && a.child == b.child :: a == b)
  }

  /** Every chunk of every clean file has an extent. */
  ghost predicate Covered(view: View, dirty: set<nat>) {
    forall k, c: nat {:trigger (k, c) in view.extents} ::
      k in view.objects && view.objects[k].kind == FILE && k !in dirty && c < Chunks(view.objects[k].size)
      ==> (k, c) in view.extents
  }

  /** Extents are pairwise disjoint eight-sector runs of data inside `core`. */
  ghost predicate ExtentsOk(extents: map<(nat, nat), nat>, core: Disk) {
    (forall a, b {:trigger Apart(extents[a], extents[b])} | a in extents && b in extents && a != b ::
        Apart(extents[a], extents[b]))
    && forall a {:trigger BlockAt(core, extents[a])} | a in extents :: BlockAt(core, extents[a])
  }

  ghost predicate ViewOk(view: View, dirty: set<nat>, core: Disk) {
    ObjectsOk(view.objects) && NamesOk(view.names, view.objects)
    && Covered(view, dirty) && ExtentsOk(view.extents, core)
  }

  /** A view that loaded and is sound: exactly one extent for each chunk of each file. */
  ghost predicate LoadedOk(d: Disk, record: CheckpointRecord, total: nat) {
    var r := LoadView(d, record, total);
    r.Ok? && ViewOk(r.value, {}, d) && ExtentsExact(r.value)
  }

  /** No extent is left over. */
  ghost predicate ExtentsExact(view: View) {
    forall k, c {:trigger (k, c) in view.extents} ::
      (k, c) in view.extents ==> k in view.objects && view.objects[k].kind == FILE && c < Chunks(view.objects[k].size)
  }

  // ---- Generations, snapshots, disks -----------------------------------------------------------

  /** Everything a snapshot refers to lies in `core`. */
  ghost predicate SnapshotOk(core: Disk, s: Snapshot, total: nat) {
    s.id != 0 && RING_SLOTS <= s.checkpointSector
    && ReadCheckpoint(core, s.checkpointSector).Ok?
    && LoadedOk(core, ReadCheckpoint(core, s.checkpointSector).value, total)
  }

  ghost predicate SnapshotsOk(core: Disk, snapshots: seq<Snapshot>, total: nat) {
    (forall i, j | 0 <= i < j < |snapshots| :: snapshots[i].id < snapshots[j].id)
    && forall i {:trigger SnapshotOk(core, snapshots[i], total)} | 0 <= i < |snapshots| ::
       SnapshotOk(core, snapshots[i], total)
  }

  /** A committed generation is self-contained: its checkpoint, its trees, its file data and those of
      its snapshots all lie outside the ring and below its own high-water mark. */
  ghost predicate GenerationOk(d: Disk, checkpointSector: nat, total: nat) {
    ReadCheckpoint(d, checkpointSector).Ok? &&
    var record := ReadCheckpoint(d, checkpointSector).value;
    record.generation != 0 && RING_SLOTS <= checkpointSector < record.highWater <= total <= |d| &&
    var core := Core(d, record.highWater);
    LoadedOk(core, record, total)
    && LoadSnapshots(core, record).Ok? && SnapshotsOk(core, LoadSnapshots(core, record).value, total)
  }

  /** A ring slot that leads to a checkpoint. */
  predicate Valid(d: Disk, slot: nat) {
    slot < RING_SLOTS && slot < |d| && SlotCheckpoint(d, slot).Some?
  }

  /** A valid slot leads to a sound generation. */
  ghost predicate SlotOk(d: Disk, slot: nat)
    requires Valid(d, slot)
  {
    GenerationOk(d, d[slot].super.checkpointSector, d[slot].super.total)
  }

  /** Two slots belong to one volume; a later generation never has a lower high-water mark, and one
      generation has one superblock. */
  predicate SlotsAgree(d: Disk, i: nat, j: nat)
    requires Valid(d, i) && Valid(d, j)
  {
    var a, b := SlotCheckpoint(d, i).value, SlotCheckpoint(d, j).value;
    d[i].super.total == d[j].super.total && d[i].super.volumeId == d[j].super.volumeId
    && (a.generation <= b.generation ==> a.highWater <= b.highWater)
    && (a.generation == b.generation ==> d[i].super == d[j].super)
  }

  /** Every ring sector is either no superblock or leads to a sound generation of this volume. */
  ghost predicate RingOk(d: Disk) {
    |d| >= RING_SLOTS
    && (forall i: nat {:trigger Valid(d, i)} | i < RING_SLOTS && d[i].Super? && RecognizedFlags(d[i].super.flags) ::
       Valid(d, i))
    && (forall i: nat {:trigger SlotOk(d, i)} | Valid(d, i) :: SlotOk(d, i))
    && (forall i: nat, j: nat {:trigger SlotsAgree(d, i, j)} | Valid(d, i) && Valid(d, j) :: SlotsAgree(d, i, j))
  }

  ghost predicate DiskOk(d: Disk) {
    RingOk(d) && exists i: nat :: Valid(d, i)
  }

  /** The in-memory side: the view, the dirty data and the snapshot list fit the committed part of
      the disk. */
  ghost predicate VolumeOk(d: Disk, v: Vol) {
    v.HighWater() <= |d| &&
    var core := Core(d, v.HighWater());
    ViewOk(v.view, v.dirty.Keys, core) && SnapshotsOk(core, v.snapshots, v.Total())
    && (forall k | k in v.dirty ::
       k in v.view.objects && v.view.objects[k].kind == FILE && |v.dirty[k]| <= v.view.objects[k].size)
    && (forall k | k in v.view.objects :: k < v.nextOid)
    && (forall s | s in v.snapshots :: s.id < v.nextSnapshot)
    && v.nextSnapshot >= 1 && v.nextOid >= 2
  }

  /** Mounting the disk yields this volume. */
  predicate Mounts(d: Disk, v: Vol) {
    Mount(d) == Ok(v)
  }

  /** The invariant of a mounted volume: the disk is sound, mounting it again selects the same
      checkpoint, the in-memory state fits, and a volume without pending changes is exactly what
      mounting yields. */
  ghost predicate Sound(d: Disk, v: Vol) {
    DiskOk(d) && Select(d) == Ok(v.super) && v.checkpoint.sector == v.super.record.checkpointSector
    && ReadCheckpoint(d, v.checkpoint.sector) == Ok(v.checkpoint.record)
    && VolumeOk(d, v)
    && (v.Clean() ==> forall w: Vol | Mounts(d, w) :: w == v)
  }

  // ---- Consequences ----------------------------------------------------------------------------

  lemma CoreKnows(d: Disk, highWater: nat)
    requires highWater <= |d|
    ensures Knows(Core(d, highWater), d)
  {
  }

  lemma BlockKnows(d: Disk, e: Disk, s: nat)
    requires Knows(d, e) && BlockAt(d, s)
    ensures BlockAt(e, s)
    ensures forall k: nat {:trigger RawByte(d, s, k)} | k < CHUNK_SIZE :: RawByte(d, s, k) == RawByte(e, s, k)
  {
    forall i | s <= i < s + NODE_SECTORS
      ensures e[i] == d[i]
    {
      assert d[i].Data?;
    }
  }

  /** File contents are kept by every disk that keeps the sectors they are read from. */
  lemma FileSystemKnows(d: Disk, e: Disk, view: View, dirty: map<nat, seq<byte>>)
    requires Knows(d, e) && forall a | a in view.extents :: BlockAt(d, view.extents[a])
    ensures FileSystemOf(d, view, dirty) == FileSystemOf(e, view, dirty)
  {
    forall oid | oid in view.objects
      ensures Stored(d, view.extents, view.objects[oid]) == Stored(e, view.extents, view.objects[oid])
    {
      var o := view.objects[oid];
      forall i | 0 <= i < o.size
        ensures ByteAt(d, view.extents, o.dataSlot, i) == ByteAt(e, view.extents, o.dataSlot, i)
      {
        var key := (o.dataSlot, i / CHUNK_SIZE);
        if key in view.extents {
          BlockKnows(d, e, view.extents[key]);
          assert RawByte(d, view.extents[key], i % CHUNK_SIZE) == RawByte(e, view.extents[key], i % CHUNK_SIZE);
        }
      }
    }
    var a, b := FileSystemOf(d, view, dirty).entities, FileSystemOf(e, view, dirty).entities;
    forall oid | oid in view.objects
      ensures a[oid] == b[oid]
    {
    }
    assert a == b;
  }

  lemma ViewKnows(d: Disk, e: Disk, view: View, dirty: set<nat>)
    requires Knows(d, e) && ViewOk(view, dirty, d)
    ensures ViewOk(view, dirty, e)
  {
    forall a | a in view.extents
      ensures BlockAt(e, view.extents[a])
    {
      BlockKnows(d, e, view.extents[a]);
    }
  }

  lemma LoadedKnows(d: Disk, e: Disk, record: CheckpointRecord, total: nat)
    requires Knows(d, e) && LoadedOk(d, record, total)
    ensures LoadedOk(e, record, total) && LoadView(e, record, total) == LoadView(d, record, total)
  {
    LoadKnows(d, e, record, total);
    ViewKnows(d, e, LoadView(d, record, total).value, {});
  }

  lemma SnapshotsKnow(d: Disk, e: Disk, snapshots: seq<Snapshot>, total: nat)
    requires Knows(d, e) && SnapshotsOk(d, snapshots, total)
    ensures SnapshotsOk(e, snapshots, total)
  {
    forall i | 0 <= i < |snapshots|
      ensures SnapshotOk(e, snapshots[i], total)
    {
      var s := snapshots[i];
      assert SnapshotOk(d, s, total);
      LoadedKnows(d, e, ReadCheckpoint(d, s.checkpointSector).value, total);
    }
  }

  /** A sound generation stays sound on every disk of the same size that agrees outside the ring
      and below its high-water mark. */
  lemma GenerationKeeps(d: Disk, e: Disk, checkpointSector: nat, total: nat)
    requires GenerationOk(d, checkpointSector, total) && |d| == |e|
    requires forall i | RING_SLOTS <= i < ReadCheckpoint(d, checkpointSector).value.highWater :: e[i] == d[i]
    ensures GenerationOk(e, checkpointSector, total)
    ensures ReadCheckpoint(e, checkpointSector) == ReadCheckpoint(d, checkpointSector)
  {
    var record := ReadCheckpoint(d, checkpointSector).value;
    assert Core(d, record.highWater) == Core(e, record.highWater);
  }

  /** A sound generation loads, from the whole disk as from its own part of it. */
  lemma GenerationLoads(d: Disk, checkpointSector: nat, total: nat)
    requires GenerationOk(d, checkpointSector, total)
    ensures var record := ReadCheckpoint(d, checkpointSector).value;
      var core := Core(d, record.highWater);
      LoadView(d, record, total) == LoadView(core, record, total)
      && LoadSnapshots(d, record) == LoadSnapshots(core, record)
  {
    var record := ReadCheckpoint(d, checkpointSector).value;
    CoreKnows(d, record.highWater);
    LoadKnows(Core(d, record.highWater), d, record, total);
  }

  lemma {:induction false} BestIsBest(d: Disk, n: nat, i: nat)
    requires i < n <= |d| && SlotCheckpoint(d, i).Some? && SlotCheckpoint(d, i).value.generation != 0
    ensures Best(d, n).Some?
    ensures SlotCheckpoint(d, i).value.generation <= SlotCheckpoint(d, Best(d, n).value).value.generation
    ensures SlotCheckpoint(d, Best(d, n).value).value.generation != 0
  {
    if i < n - 1 {
      BestIsBest(d, n - 1, i);
    }
  }

  /** What mounting a sound disk yields: the generation of the best slot, loaded from its own core. */
  lemma MountLoads(d: Disk)
    requires DiskOk(d)
    ensures Select(d).Ok? && Mount(d).Ok?
    ensures var slot := Select(d).value.slot;
      Valid(d, slot) && SlotOk(d, slot)
      && Mount(d).value.super == Superblock(slot, d[slot].super)
      && Mount(d).value.checkpoint == Checkpoint(d[slot].super.checkpointSector, SlotCheckpoint(d, slot).value)
  {
    var i: nat :| Valid(d, i);
    assert SlotOk(d, i);
    BestIsBest(d, RING_SLOTS, i);
    var slot := Best(d, RING_SLOTS).value;
    assert Valid(d, slot) && SlotOk(d, slot);
    GenerationLoads(d, d[slot].super.checkpointSector, d[slot].super.total);
  }

  /** A sound disk mounts, to a sound volume without pending changes. */
  lemma DiskMounts(d: Disk)
    requires DiskOk(d)
    ensures Mount(d).Ok? && Sound(d, Mount(d).value) && Mount(d).value.Clean()
  {
    MountLoads(d);
    var slot := Select(d).value.slot;
    GenerationLoads(d, d[slot].super.checkpointSector, d[slot].super.total);
    var v := Mount(d).value;
    SortedKeysAre(v.view.objects.Keys);
    NextAboveAll(SortedKeys(v.view.objects.Keys));
    NextIdAboveAll(v.snapshots);
    var core := Core(d, v.HighWater());
    assert ViewOk(v.view, {}, core) && SnapshotsOk(core, v.snapshots, v.Total());
    assert v.dirty.Keys == {};
  }

  /** A sound clean volume is what mounting yields. */
  lemma CleanMounts(d: Disk, v: Vol)
    requires Sound(d, v) && v.Clean()
    ensures Mount(d) == Ok(v)
  {
    MountLoads(d);
    assert Mounts(d, Mount(d).value);
  }
}
