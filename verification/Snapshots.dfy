/** Snapshots: what taking one pins, that nothing changes what it pins, and that rolling back to it
    restores exactly that. */
module Snapshots {
  import opened ArcTypes
  import opened Keys
  import opened Reader
  import opened Writer
  import opened Soundness
  import opened RowProofs
  import opened CommitProofs
  import opened Commit
  import opened Space
  import opened CommitTheorems
  import opened Operations
  import opened OperationProofs

  /** The parts of the invariant about snapshots. */
  lemma SoundSnapshots(d: Disk, v: Vol)
    requires Sound(d, v)
    ensures v.HighWater() <= |d| && SnapshotsOk(Core(d, v.HighWater()), v.snapshots, v.Total())
    ensures v.nextSnapshot >= 1 && forall s | s in v.snapshots :: s.id < v.nextSnapshot
    ensures v.Clean() ==> Mount(d) == Ok(v)
  {
    hide DiskOk, Mount, SnapshotsOk, ViewOk;
    if v.Clean() {
      CleanMounts(d, v);
    }
  }

  /** A change of the snapshot list alone. */
  lemma ListSound(d: Disk, v: Vol, w: Vol)
    requires Sound(d, v) && w.metadataDirty
    requires w == v.(snapshots := w.snapshots, nextSnapshot := w.nextSnapshot, metadataDirty := true)
    requires v.HighWater() <= |d| && SnapshotsOk(Core(d, v.HighWater()), w.snapshots, v.Total())
    requires w.nextSnapshot >= 1 && forall s | s in w.snapshots :: s.id < w.nextSnapshot
    ensures Sound(d, w) && Live(d, w) == Live(d, v)
  {
    hide DiskOk, Mount, Sound, SnapshotsOk, ObjectsOk, NamesOk, Covered, ExtentsOk;
    SoundVolume(d, v);
    PendingSound(d, v, w);
  }

  /** What a snapshot pins reads the same from any disk that knows the core it lies in. */
  lemma SnapshotReads(core: Disk, e: Disk, s: Snapshot, total: nat)
    requires Knows(core, e) && SnapshotOk(core, s, total)
    ensures SnapshotView(core, s, total).Ok? && SnapshotView(e, s, total) == SnapshotView(core, s, total)
    ensures SnapshotFileSystem(core, s, total).Some?
    ensures SnapshotFileSystem(e, s, total) == SnapshotFileSystem(core, s, total)
    ensures ViewOk(SnapshotView(core, s, total).value, {}, core)
  {
    hide LoadView;
    var record := ReadCheckpoint(core, s.checkpointSector).value;
    LoadKnows(core, e, record, total);
    FileSystemKnows(core, e, LoadView(core, record, total).value, map[]);
  }

  // ---- Taking -------------------------------------------------------------------------------------

  /** The current generation of a clean volume, as a snapshot of it will find it. */
  lemma CurrentGeneration(d: Disk, v: Vol)
    requires Sound(d, v) && v.Clean()
    ensures v.HighWater() <= |d|
    ensures var core := Core(d, v.HighWater());
      RING_SLOTS <= v.checkpoint.sector && ReadCheckpoint(core, v.checkpoint.sector) == Ok(v.checkpoint.record)
      && LoadedOk(core, v.checkpoint.record, v.Total())
    ensures ReadCheckpoint(d, v.checkpoint.sector) == Ok(v.checkpoint.record)
    ensures LoadView(d, v.checkpoint.record, v.Total()) == Ok(v.view)
  {
    hide LoadedOk, SnapshotsOk;
    SoundBounds(d, v);
    assert SlotOk(d, v.super.slot);
    CleanMounts(d, v);
  }

  /** Taking a snapshot records the current generation under a fresh identifier; it pins the file
      system the volume holds at that moment. */
  lemma TakePins(d: Disk, v: Vol, labelText: seq<byte>, now: nat)
    requires Sound(d, v) && TakeSnapshot(v, labelText, now).Ok?
    ensures var w := TakeSnapshot(v, labelText, now).value;
      Sound(d, w) && Live(d, w) == Live(d, v)
      && w.snapshots[..|w.snapshots| - 1] == v.snapshots
      && var s := w.snapshots[|w.snapshots| - 1];
        s == Snapshot(v.nextSnapshot, v.checkpoint.record.generation, v.checkpoint.sector, now, 0, labelText)
        && |labelText| <= 56 && (forall x | x in v.snapshots :: x.id < s.id)
        && w == v.(snapshots := w.snapshots, nextSnapshot := s.id + 1, metadataDirty := true)
        && SnapshotFileSystem(d, s, v.Total()) == Some(Live(d, v))
  {
    hide Sound, LoadedOk;
    var w := TakeSnapshot(v, labelText, now).value;
    var s := w.snapshots[|w.snapshots| - 1];
    SoundSnapshots(d, v);
    var core := Core(d, v.HighWater());
    CurrentGeneration(d, v);
    assert SnapshotOk(core, s, v.Total());
    assert SnapshotsOk(core, w.snapshots, v.Total());
    ListSound(d, v, w);
  }

  /** The snapshot `create_snapshot` appends. */
  function Taken(v: Vol, labelText: seq<byte>, now: nat): Snapshot
    requires TakeSnapshot(v, labelText, now).Ok?
  {
    var l := TakeSnapshot(v, labelText, now).value.snapshots;
    l[|l| - 1]
  }

  /** What becomes of the record: once durable, it is the one that was made if and only if its label
      has no NUL. The label is accepted all the same; the re-mount of its own commit cuts it. */
  lemma LabelSurvivesIff(d: Disk, v: Vol, labelText: seq<byte>, now: nat)
    requires Sound(d, v) && TakeSnapshot(v, labelText, now).Ok?
    requires RoomFor(TakeSnapshot(v, labelText, now).value) && Remountable(TakeSnapshot(v, labelText, now).value)
    ensures RING_SLOTS <= v.HighWater() <= v.Total() <= |d|
    ensures var ending, s := CommitEnding(d, TakeSnapshot(v, labelText, now).value), Taken(v, labelText, now);
      && ending.Done? && ending.vol.snapshots == v.snapshots + [AsRead(s)]
      && (s in ending.vol.snapshots <==> 0 !in labelText)
  {
    hide Sound, RoomFor, Remountable, CommitEnding, CommitDisk, SnapshotFileSystem, Live, NewHighWater;
    hide AsRead, ReadBack;
    SoundBounds(d, v);
    TakePins(d, v, labelText, now);
    CommitRefines(d, TakeSnapshot(v, labelText, now).value);
    CleanAsRead(d, v);
    TakenReadsBack(v, labelText, now);
  }

  lemma TakenReadsBack(v: Vol, labelText: seq<byte>, now: nat)
    requires TakeSnapshot(v, labelText, now).Ok? && ReadBack(v.snapshots) == v.snapshots
    requires Taken(v, labelText, now) !in v.snapshots
    ensures var l, s := ReadBack(TakeSnapshot(v, labelText, now).value.snapshots), Taken(v, labelText, now);
      l == v.snapshots + [AsRead(s)] && (s in l <==> 0 !in labelText)
  {
    hide AsRead;
    var s := Taken(v, labelText, now);
    AsReadIff(s);
    assert ReadBack(v.snapshots + [s]) == ReadBack(v.snapshots) + [AsRead(s)];
  }

  // ---- Dropping -----------------------------------------------------------------------------------

  lemma SnapshotsRise(core: Disk, l: seq<Snapshot>, total: nat)
    requires SnapshotsOk(core, l, total)
    ensures forall i, j | 0 <= i < j < |l| :: l[i].id < l[j].id
  {
  }

  lemma ThinnedOk(core: Disk, l: seq<Snapshot>, m: seq<Snapshot>, i: nat, total: nat)
    requires SnapshotsOk(core, l, total) && i < |l| && m == Without(l, i)
    ensures SnapshotsOk(core, m, total)
  {
    hide SnapshotOk;
    SnapshotsRise(core, l, total);
    forall j | 0 <= j < |m|
      ensures SnapshotOk(core, m[j], total)
    {
      SnapshotIsOk(core, l, if j < i then j else j + 1, total);
    }
  }

  lemma ThinnedHolds(l: seq<Snapshot>, m: seq<Snapshot>, i: nat)
    requires i < |l| && m == Without(l, i)
    requires forall a, b | 0 <= a < b < |l| :: l[a].id < l[b].id
    ensures forall s :: s in m <==> s in l && s.id != l[i].id
  {
    forall s | s in l && s.id != l[i].id
      ensures s in m
    {
      var j :| 0 <= j < |l| && l[j] == s;
      assert m[if j < i then j else j - 1] == s;
    }
    forall s | s in m
      ensures s in l && s.id != l[i].id
    {
      var j :| 0 <= j < |m| && m[j] == s;
    }
  }

  lemma WithoutOne(core: Disk, l: seq<Snapshot>, i: nat, total: nat)
    requires SnapshotsOk(core, l, total) && i < |l|
    ensures SnapshotsOk(core, Without(l, i), total)
    ensures forall s :: s in Without(l, i) <==> s in l && s.id != l[i].id
  {
    ThinnedOk(core, l, Without(l, i), i, total);
    SnapshotsRise(core, l, total);
    ThinnedHolds(l, Without(l, i), i);
    hide Without, SnapshotsOk;
  }

  /** Deleting a snapshot takes that one row away and leaves the file system alone. */
  lemma DropTakes(d: Disk, v: Vol, id: nat)
    requires Sound(d, v) && DropSnapshot(v, id).Ok?
    ensures var w := DropSnapshot(v, id).value;
      Sound(d, w) && Live(d, w) == Live(d, v)
      && (forall s :: s in w.snapshots <==> s in v.snapshots && s.id != id)
      && (forall i, j | 0 <= i < j < |w.snapshots| :: w.snapshots[i].id < w.snapshots[j].id)
      && w == v.(snapshots := w.snapshots, metadataDirty := true)
  {
    hide Sound, SnapshotsOk, FileSystemOf;
    SoundSnapshots(d, v);
    var l, i := v.snapshots, FindSnapshot(v.snapshots, id).value;
    WithoutOne(Core(d, v.HighWater()), l, i, v.Total());
    SnapshotsRise(Core(d, v.HighWater()), Without(l, i), v.Total());
    hide Without;
    ListSound(d, v, DropSnapshot(v, id).value);
  }

  // ---- Rolling back -------------------------------------------------------------------------------

  lemma {:induction false} ObjectCount(rows: seq<Row>)
    requires ObjectsOf(rows).Ok?
    ensures |ObjectsOf(rows).value| <= |rows|
  {
    if |rows| != 0 {
      ObjectCount(rows[..|rows| - 1]);
      var m, o := ObjectsOf(rows[..|rows| - 1]).value, rows[|rows| - 1].obj;
      assert m[o.oid := o].Keys == m.Keys + {o.oid};
    }
  }

  lemma {:induction false} NameCount(rows: seq<Row>, objects: map<nat, Object>)
    requires NamesOf(rows, objects).Ok?
    ensures |NamesOf(rows, objects).value| == |rows|
  {
    if |rows| != 0 {
      NameCount(rows[..|rows| - 1], objects);
    }
  }

  lemma {:induction false} AttributeCount(rows: seq<Row>, objects: map<nat, Object>)
    requires AttributesOf(rows, objects).Ok?
    ensures |AttributesOf(rows, objects).value| == |rows|
    ensures forall a | a in AttributesOf(rows, objects).value :: a.oid in objects
  {
    if |rows| != 0 {
      AttributeCount(rows[..|rows| - 1], objects);
    }
  }

  lemma {:induction false} SnapshotCount(rows: seq<Row>)
    requires SnapshotsOf(rows).Ok?
    ensures |SnapshotsOf(rows).value| == |rows|
  {
    if |rows| != 0 {
      SnapshotCount(rows[..|rows| - 1]);
    }
  }

  /** What a reader accepted can be written and read again: its counts are within the limits, and its
      attributes are attached. */
  lemma LoadedWithinLimits(d: Disk, sector: nat, total: nat)
    requires ReadCheckpoint(d, sector).Ok? && LoadView(d, ReadCheckpoint(d, sector).value, total).Ok?
    ensures var view := LoadView(d, ReadCheckpoint(d, sector).value, total).value;
      |view.objects| <= MAX_OBJECTS && |view.names| <= MAX_NAMES && |view.attributes| <= MAX_ATTRIBUTES
      && forall a | a in view.attributes :: a.oid in view.objects
  {
    var record := ReadCheckpoint(d, sector).value;
    var objectRows := Collect(d, record.objectRoot, record.objectCount, MAX_OBJECTS).value;
    var objects := ObjectsOf(objectRows).value;
    ObjectCount(objectRows);
    NameCount(Collect(d, record.nameRoot, record.nameCount, MAX_NAMES).value, objects);
    AttributeCount(Collect(d, record.attributeRoot, record.attributeCount, MAX_ATTRIBUTES).value, objects);
  }

  lemma SnapshotsWithinLimits(d: Disk, v: Vol)
    requires Mount(d) == Ok(v)
    ensures |v.snapshots| <= MAX_SNAPSHOTS
  {
    hide LoadView;
    var record := v.checkpoint.record;
    SnapshotCount(Collect(d, record.snapshotRoot, record.snapshotCount, MAX_SNAPSHOTS).value);
  }

  /** The in-memory half of a rollback: it never fails to read the snapshot, and what it loads is what
      the snapshot pins; the result can be committed within the limits. */
  lemma RollBackLoads(d: Disk, v: Vol, id: nat)
    requires Sound(d, v) && v.Clean() && FindSnapshot(v.snapshots, id).Some?
    ensures RollBack(d, v, id).Ok?
    ensures var w, s := RollBack(d, v, id).value, v.snapshots[FindSnapshot(v.snapshots, id).value];
      Sound(d, w) && Remountable(w) && !w.Clean() && w.snapshots == v.snapshots && w.checkpoint == v.checkpoint
      && SnapshotFileSystem(d, s, v.Total()) == Some(Live(d, w))
  {
    hide Sound, SnapshotsOk, Mount, LoadView;
    SoundSnapshots(d, v);
    var s, core := v.snapshots[FindSnapshot(v.snapshots, id).value], Core(d, v.HighWater());
    SnapshotIsOk(core, v.snapshots, FindSnapshot(v.snapshots, id).value, v.Total());
    CoreKnows(d, v.HighWater());
    SnapshotReads(core, d, s, v.Total());
    var w := RollBack(d, v, id).value;
    LoadedWithinLimits(d, s.checkpointSector, v.Total());
    SnapshotsWithinLimits(d, v);
    RolledBackSound(d, v, w);
  }

  /** A rollback replaces the view and nothing else; the next identifier is the least above its objects. */
  lemma RollBackSets(d: Disk, v: Vol, id: nat)
    requires RollBack(d, v, id).Ok?
    ensures var w := RollBack(d, v, id).value;
      && w == v.(view := w.view, nextOid := w.nextOid, metadataDirty := true)
      && w.nextOid >= 2 && (forall k | k in w.view.objects :: k < w.nextOid)
      && (w.nextOid == 2 || w.nextOid - 1 in w.view.objects)
  {
    hide SnapshotView;
    var w := RollBack(d, v, id).value;
    SortedKeysAre(w.view.objects.Keys);
    NextAboveAll(SortedKeys(w.view.objects.Keys));
  }

  lemma SnapshotIsOk(core: Disk, l: seq<Snapshot>, i: nat, total: nat)
    requires SnapshotsOk(core, l, total) && i < |l|
    ensures SnapshotOk(core, l[i], total)
  {
  }

  lemma RolledBackSound(d: Disk, v: Vol, w: Vol)
    requires Sound(d, v) && v.Clean() && v.HighWater() <= |d|
    requires w == v.(view := w.view, nextOid := NextOid(w.view.objects), metadataDirty := true)
    requires ViewOk(w.view, {}, Core(d, v.HighWater()))
    ensures Sound(d, w)
  {
    hide DiskOk, Mount, Sound, SnapshotsOk, ViewOk;
    SoundVolume(d, v);
    assert w.dirty.Keys == {};
    SortedKeysAre(w.view.objects.Keys);
    NextAboveAll(SortedKeys(w.view.objects.Keys));
    PendingSound(d, v, w);
  }

  /** Rollback is exact. When it fits, the committed volume holds precisely what the snapshot pinned,
      the snapshot list is unchanged, the generation is one higher, and allocation went on from the
      current high-water mark. Only lack of space can make it fail. */
  lemma RollbackExact(d: Disk, v: Vol, id: nat)
    requires Sound(d, v) && v.Clean() && FindSnapshot(v.snapshots, id).Some?
    ensures RollBack(d, v, id).Ok? && RING_SLOTS <= v.HighWater() <= v.Total() <= |d|
    ensures var w, s := RollBack(d, v, id).value, v.snapshots[FindSnapshot(v.snapshots, id).value];
      if !RoomFor(w) then
        CommitEnding(d, w).Refused? && CommitEnding(d, w).error == VolumeFull
      else
        CommitEnding(d, w).Done? &&
        var e, x := CommitDisk(d, w), CommitEnding(d, w).vol;
        Sound(e, x) && x.Clean() && SnapshotFileSystem(d, s, v.Total()) == Some(Live(e, x))
        && x.snapshots == v.snapshots
        && x.checkpoint.record.generation == v.checkpoint.record.generation + 1 && x.HighWater() > v.HighWater()
  {
    hide Sound, Prepare, Mount, SnapshotFileSystem, RollBack, Remountable;
    SoundBounds(d, v);
    RollBackLoads(d, v, id);
    RollBackSameSuper(d, v, id);
    var w := RollBack(d, v, id).value;
    if !RoomFor(w) {
      FullCommitHarmless(d, w);
    } else {
      CommitRefines(d, w);
      CleanAsRead(d, v);
    }
  }

  lemma RollBackSameSuper(d: Disk, v: Vol, id: nat)
    requires RollBack(d, v, id).Ok?
    ensures RollBack(d, v, id).value.super == v.super && RollBack(d, v, id).value.checkpoint == v.checkpoint
  {
  }

  /** Reading a file in a snapshot returns the stretch asked for of what the snapshot pins. */
  lemma SnapshotReadReturns(d: Disk, v: Vol, id: nat, oid: nat, offset: nat, size: nat)
    requires Sound(d, v) && FindSnapshot(v.snapshots, id).Some?
    ensures var s := v.snapshots[FindSnapshot(v.snapshots, id).value];
      SnapshotFileSystem(d, s, v.Total()).Some? &&
      var fs := SnapshotFileSystem(d, s, v.Total()).value;
      ReadInSnapshot(d, v, id, oid, offset, size) ==
        if oid in fs.entities && fs.entities[oid].kind == FILE
        then Ok(Cut(fs.entities[oid].bytes, offset, size)) else Err(NotAFile)
    ensures ReadsAs(ReadInSnapshot(d, v, id, oid, offset, size),
        SnapshotFileSystem(d, v.snapshots[FindSnapshot(v.snapshots, id).value], v.Total()).value, oid, offset, size)
  {
    hide Sound, SnapshotsOk, SnapshotView, SnapshotOk, ReadFile, FileSystemOf;
    SoundSnapshots(d, v);
    var s, core := v.snapshots[FindSnapshot(v.snapshots, id).value], Core(d, v.HighWater());
    SnapshotIsOk(core, v.snapshots, FindSnapshot(v.snapshots, id).value, v.Total());
    CoreKnows(d, v.HighWater());
    SnapshotReads(core, d, s, v.Total());
    CleanRead(d, v.(view := SnapshotView(d, s, v.Total()).value, dirty := map[]), oid, offset, size);
    var fs := SnapshotFileSystem(d, s, v.Total()).value;
    if oid in fs.entities {
      CutIs(fs.entities[oid].bytes, offset, size);
    }
    hide StretchOf, Cut;
  }

  /** Reading from a view with nothing pending. */
  lemma CleanRead(d: Disk, w: Vol, oid: nat, offset: nat, size: nat)
    requires w.dirty == map[] && w.HighWater() <= |d| && ExtentsOk(w.view.extents, Core(d, w.HighWater()))
    ensures var fs := FileSystemOf(d, w.view, map[]);
      ReadFile(d, w, oid, offset, size) ==
        if oid in fs.entities && fs.entities[oid].kind == FILE
        then Ok(Cut(fs.entities[oid].bytes, offset, size)) else Err(NotAFile)
  {
    hide BeyondEnd, ExtentsOk;
    if IsFile(w, oid) {
      var obj := w.view.objects[oid];
      if offset < obj.size {
        NothingBeyondEnd(d, w, obj.dataSlot, offset, offset + Min(obj.size - offset, size));
      }
    }
  }

  /** In every state after a mount or a commit, each file has exactly one extent for each chunk of its
      size, and the extents are pairwise disjoint runs of data below the high-water mark, at most an
      eighth of the volume. */
  lemma ExtentsSound(d: Disk, v: Vol)
    requires Sound(d, v) && v.Clean()
    ensures forall k, c: nat {:trigger (k, c) in v.view.extents} ::
      (k, c) in v.view.extents
      <==> k in v.view.objects && v.view.objects[k].kind == FILE && c < Chunks(v.view.objects[k].size)
    ensures forall a, b | a in v.view.extents && b in v.view.extents && a != b ::
        Apart(v.view.extents[a], v.view.extents[b])
    ensures forall a | a in v.view.extents ::
        RING_SLOTS <= v.view.extents[a] && v.view.extents[a] + NODE_SECTORS <= v.HighWater()
    ensures v.HighWater() <= v.Total()
  {
    hide Sound, LoadView, SnapshotOk;
    SoundBounds(d, v);
    CurrentGeneration(d, v);
    var core := Core(d, v.HighWater());
    CoreKnows(d, v.HighWater());
    LoadKnows(core, d, v.checkpoint.record, v.Total());
    assert LoadView(core, v.checkpoint.record, v.Total()) == Ok(v.view);
    forall a | a in v.view.extents
      ensures RING_SLOTS <= v.view.extents[a] && v.view.extents[a] + NODE_SECTORS <= v.HighWater()
    {
      assert BlockAt(core, v.view.extents[a]);
    }
  }

  /** Disjoint eight-sector runs below a bound: the extents of a volume are at most an eighth of it. */
  lemma ExtentsAtMostEighth(d: Disk, v: Vol)
    requires Sound(d, v) && v.Clean()
    ensures NODE_SECTORS * |v.view.extents| <= v.HighWater()
  {
    hide Sound;
    ExtentsSound(d, v);
    DisjointExtentsFit(v.view.extents, v.HighWater());
  }

  lemma DisjointExtentsFit(m: map<(nat, nat), nat>, bound: nat)
    requires forall a | a in m :: m[a] + NODE_SECTORS <= bound
    requires forall a, b | a in m && b in m && a != b :: Apart(m[a], m[b])
    ensures NODE_SECTORS * |m| <= bound
  {
    SectorsDiffer(m);
    Pigeonhole(m.Values, bound);
  }

  /** Disjoint extents start at different sectors. */
  lemma {:induction false} SectorsDiffer(m: map<(nat, nat), nat>)
    requires forall a, b | a in m && b in m && a != b :: Apart(m[a], m[b])
    ensures |m.Values| == |m|
    decreases |m|
  {
    if m != map[] {
      var a :| a in m;
      WithoutExtent(m, a);
      SectorsDiffer(m - {a});
    }
  }

  lemma WithoutExtent(m: map<(nat, nat), nat>, a: (nat, nat))
    requires a in m && forall b | b in m && b != a :: m[b] != m[a]
    ensures |m| == |m - {a}| + 1 && |m.Values| == |(m - {a}).Values| + 1
  {
    var rest := m - {a};
    assert m.Keys == rest.Keys + {a};
    assert m.Values == rest.Values + {m[a]};
  }
}
