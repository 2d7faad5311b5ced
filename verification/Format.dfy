/** A freshly formatted volume, and the start of every run. */
module Format {
  import opened ArcTypes
  import opened Reader
  import opened Writer
  import opened Soundness
  import opened CommitProofs
  import opened Commit
  import opened Space
  import opened CommitTheorems
  import opened Crash
  import opened Namespace
  import opened TreeRuns
  import opened BitmapProofs

  datatype Layout = Layout(bitmapCount: nat, checkpoint: nat, health: nat, root: nat, highWater: nat)

  function LayoutFor(total: nat): (l: Layout)
    ensures l.bitmapCount * BITMAP_SPAN >= total && l.highWater == l.bitmapCount + 14
  {
    var bitmapCount := (total + (BITMAP_SPAN - 1)) / BITMAP_SPAN;
    var checkpoint := RING_SLOTS + bitmapCount;
    Layout(bitmapCount, checkpoint, checkpoint + 1, checkpoint + 2, checkpoint + 2 + NODE_SECTORS)
  }

  const ROOT_DIRECTORY: Object := Object(ROOT_OID, 0, DIRECTORY, 0, 0)

  function FormatRecord(l: Layout): CheckpointRecord {
    CheckpointRecord(1, l.root, 1, 0, 0, 0, RING_SLOTS, l.highWater, 0, 0, 0, 0, 0, 0)
  }

  function FormatSuper(l: Layout, total: nat, volumeId: nat): SuperRecord {
    SuperRecord(volumeId, total, COMMIT_FLAGS, l.checkpoint)
  }

  /** The disk after `format_file`, its writes in order. */
  function FormatDisk(d: Disk, volumeId: nat): (e: Disk)
    requires LayoutFor(|d|).highWater <= |d|
    ensures |e| == |d|
  {
    var total, l := |d|, LayoutFor(|d|);
    var blank := d[0 := Junk][total - 1 := Junk];
    var mapped := Overwrite(blank, RING_SLOTS, BitmapSectors(l.highWater, total, l.bitmapCount));
    var checked := mapped[l.checkpoint := Check(FormatRecord(l))][l.health := Junk];
    var rooted := Overwrite(checked, l.root, NodeRun(Leaf([ObjectRow(ROOT_DIRECTORY)])));
    WriteRing(rooted, FormatSuper(l, total, volumeId))
  }

  function Formatted(d: Disk, volumeId: nat): Result<Disk> {
    if |d| < LayoutFor(|d|).highWater then Err(VolumeFull) else Ok(FormatDisk(d, volumeId))
  }

  /** The view of an empty volume. */
  const EMPTY_VIEW: View := View(map[ROOT_OID := ROOT_DIRECTORY], [], map[], [])

  /** What a formatted disk holds where it matters. */
  lemma FormatHolds(d: Disk, volumeId: nat)
    requires LayoutFor(|d|).highWater <= |d|
    ensures var e, l := FormatDisk(d, volumeId), LayoutFor(|d|);
      (forall i: nat | i < RING_SLOTS :: e[i] == Super(FormatSuper(l, |d|, volumeId)))
      && e[l.checkpoint] == Check(FormatRecord(l))
      && ReadNode(e, l.root) == Ok(Leaf([ObjectRow(ROOT_DIRECTORY)]))
  {
    var e, l := FormatDisk(d, volumeId), LayoutFor(|d|);
    var run := NodeRun(Leaf([ObjectRow(ROOT_DIRECTORY)]));
    assert e[l.root..l.root + NODE_SECTORS] == run;
    assert e[l.root] == run[0];
  }

  /** The formatted disk, sector by sector: the ring, the bitmap, the checkpoint with its fields, an
      empty sector, the root node, and the rest as it was but for the last sector. */
  lemma FormatShape(d: Disk, volumeId: nat)
    ensures var n, r := (|d| + 507) / 508, Formatted(d, volumeId);
      && (r.Ok? <==> n + 14 <= |d|) && (r.Err? ==> r.error == VolumeFull)
      && (r.Ok? ==>
        && |r.value| == |d|
        && (forall i: nat | i < 4 :: r.value[i] == Super(SuperRecord(volumeId, |d|, 0x3_0000, n + 4)))
        && (forall s: nat | s < 508 * n :: Marked(r.value, 4, s) <==> s < n + 14)
        && r.value[n + 4] == Check(CheckpointRecord(
             generation := 1, objectRoot := n + 6, objectCount := 1, nameRoot := 0, nameCount := 0, previous := 0,
             bitmapSector := 4, highWater := n + 14, attributeRoot := 0, attributeCount := 0, extentRoot := 0,
             extentCount := 0, snapshotRoot := 0, snapshotCount := 0))
        && r.value[n + 5] == Junk
        && (forall i: nat | i < 8 :: r.value[n + 6 + i] == NodePart(Leaf([ObjectRow(Object(1, 0, 2, 0, 0))]), i))
        && (forall s: nat | n + 14 <= s < |d| - 1 :: r.value[s] == d[s])
        && (n + 14 < |d| ==> r.value[|d| - 1] == Junk))
  {
    if Formatted(d, volumeId).Ok? {
      var e, l := FormatDisk(d, volumeId), LayoutFor(|d|);
      assert e[4..4 + l.bitmapCount] == BitmapSectors(l.highWater, |d|, l.bitmapCount);
      hide FormatDisk;
      forall s: nat | s < 508 * l.bitmapCount
        ensures Marked(e, 4, s) <==> s < l.highWater
      {
        MarksAre(e, 4, l.highWater, |d|, l.bitmapCount, s);
      }
    }
  }

  lemma EmptyObjects()
    ensures ObjectsOf([ObjectRow(ROOT_DIRECTORY)]) == Ok(map[ROOT_OID := ROOT_DIRECTORY])
    ensures NamesOf([], map[ROOT_OID := ROOT_DIRECTORY]) == Ok([])
    ensures AttributesOf([], map[ROOT_OID := ROOT_DIRECTORY]) == Ok([])
    ensures SnapshotsOf([]) == Ok([]) && forall total: nat :: ExtentsOf([], total) == Ok(map[])
  {
    var rows := [ObjectRow(ROOT_DIRECTORY)];
    assert rows[..0] == [];
    assert ObjectsOf(rows[..0]) == Ok(map[]);
  }

  /** A one-leaf generation loads as the empty volume. */
  lemma EmptyLoads(e: Disk, l: Layout, total: nat)
    requires l.root != 0 && |e| > 0 && ReadNode(e, l.root) == Ok(Leaf([ObjectRow(ROOT_DIRECTORY)]))
    ensures LoadView(e, FormatRecord(l), total) == Ok(EMPTY_VIEW) && LoadSnapshots(e, FormatRecord(l)) == Ok([])
  {
    EmptyObjects();
    var rows := [ObjectRow(ROOT_DIRECTORY)];
    assert CollectNode(e, l.root, MAX_OBJECTS, 0, |e|) == Ok(rows);
    assert Collect(e, l.root, 1, MAX_OBJECTS) == Ok(rows);
  }

  lemma EmptyViewOk(e: Disk)
    ensures ViewOk(EMPTY_VIEW, {}, e) && ExtentsExact(EMPTY_VIEW) && Rooted(EMPTY_VIEW)
  {
    assert Ranked(EMPTY_VIEW, map[ROOT_OID := 0]);
  }

  lemma FormatGeneration(d: Disk, volumeId: nat)
    requires LayoutFor(|d|).highWater <= |d|
    ensures GenerationOk(FormatDisk(d, volumeId), LayoutFor(|d|).checkpoint, |d|)
  {
    hide ViewOk, ExtentsExact, LoadView, LoadSnapshots;
    var e, l := FormatDisk(d, volumeId), LayoutFor(|d|);
    FormatHolds(d, volumeId);
    var core := Core(e, l.highWater);
    assert core[l.root..l.root + NODE_SECTORS] == e[l.root..l.root + NODE_SECTORS];
    EmptyLoads(core, l, |d|);
    EmptyViewOk(core);
  }

  lemma FormatSlot(d: Disk, volumeId: nat, i: nat)
    requires LayoutFor(|d|).highWater <= |d| && i < RING_SLOTS
    ensures var e, l := FormatDisk(d, volumeId), LayoutFor(|d|);
      e[i] == Super(FormatSuper(l, |d|, volumeId)) && Valid(e, i) && SlotCheckpoint(e, i) == Some(FormatRecord(l))
          && SlotOk(e, i)
  {
    hide GenerationOk, FormatDisk;
    FormatHolds(d, volumeId);
    FormatGeneration(d, volumeId);
    assert RecognizedFlags(COMMIT_FLAGS);
  }

  /** Formatting gives a sound disk. It mounts as the empty tree, with nothing pending and no
      snapshots, and every ring slot carries its superblock. */
  lemma FormatSound(d: Disk, volumeId: nat)
    requires Formatted(d, volumeId).Ok?
    ensures var e := Formatted(d, volumeId).value;
      DiskOk(e) && Mount(e).Ok? &&
      var v := Mount(e).value;
      Sound(e, v) && v.Clean() && v.snapshots == [] && v.Total() == |d| && Backed(e, v) && AllRooted(e, v)
      && Live(e, v) == FileSystem(map[ROOT_OID := Entity(DIRECTORY, 0, [])], multiset{}, multiset{})
      && v.view == EMPTY_VIEW && v.checkpoint.record == FormatRecord(LayoutFor(|d|))
  {
    hide Sound, GenerationOk, FormatDisk, LoadView, LoadSnapshots, Rooted;
    var e, l := FormatDisk(d, volumeId), LayoutFor(|d|);
    forall i: nat | i < RING_SLOTS
      ensures e[i] == Super(FormatSuper(l, |d|, volumeId)) && Valid(e, i)
      ensures SlotCheckpoint(e, i) == Some(FormatRecord(l)) && SlotOk(e, i)
    {
      FormatSlot(d, volumeId, i);
    }
    assert RingOk(e);
    assert Valid(e, 0);
    DiskMounts(e);
    MountLoads(e);
    FormatHolds(d, volumeId);
    EmptyLoads(e, l, |d|);
    EmptyViewOk(e);
    var v := Mount(e).value;
    assert v.view == EMPTY_VIEW && v.snapshots == [];
    assert e[1] == Super(v.super.record);
    assert RingRooted(e);
    assert Live(e, v).entities == map[ROOT_OID := Entity(DIRECTORY, 0, [])];
  }

  /** A finished commit puts its superblock in every slot, so the next commit is crash-atomic. */
  lemma CommitBacks(d: Disk, v: Vol)
    requires Sound(d, v) && !v.Clean() && RoomFor(v) && Remountable(v)
    ensures RING_SLOTS <= v.HighWater() <= v.Total() <= |d|
    ensures CommitEnding(d, v).Done? && Backed(CommitDisk(d, v), CommitEnding(d, v).vol)
  {
    hide Sound, Prepare, Mount, RoomFor;
    SoundBounds(d, v);
    RoomIff(d, v);
    CommitRefines(d, v);
    PrepareCloses(v);
    PublishHolds(d, v, Prepare(v));
    var e, w := CommitDisk(d, v), CommitEnding(d, v).vol;
    SoundBounds(e, w);
    assert e[1] == e[w.super.slot] == Super(w.super.record);
  }
}
