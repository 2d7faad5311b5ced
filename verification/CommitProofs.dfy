/** What a commit writes loads back as the volume it was made from. */
module CommitProofs {
  import opened ArcTypes
  import opened Keys
  import opened Reader
  import opened Writer
  import opened TreeProofs
  import opened Soundness
  import opened StageProofs
  import opened RowProofs

  /** The counts the reader accepts; `commit` does not check them. */
  predicate WithinLimits(v: Vol) {
    |v.view.objects| <= MAX_OBJECTS && |v.view.names| <= MAX_NAMES
    && |v.view.attributes| <= MAX_ATTRIBUTES && |v.snapshots| <= MAX_SNAPSHOTS
  }

  /** No attribute belongs to an object that is gone; `remove_child` does not look. */
  predicate AttributesAttached(v: Vol) {
    forall a | a in v.view.attributes :: a.oid in v.view.objects
  }

  /** What this reader will mount again. */
  predicate Remountable(v: Vol) {
    WithinLimits(v) && AttributesAttached(v)
  }

  function AllKeys(v: Vol): (keys: seq<nat>)
    ensures forall k | k in keys :: k in v.view.objects
  {
    SortedKeys(v.view.objects.Keys)
  }

  /** The state after the file loop. */
  function FinalStage(v: Vol): (s: Stage)
    ensures s.objects.Keys == v.view.objects.Keys && s.flow.start == v.HighWater() && s.flow.total == v.Total()
  {
    WriteObjects(v, AllKeys(v), |AllKeys(v)|)
  }

  function SortedObjects(v: Vol, s: Stage): seq<Object>
    requires s.objects.Keys == v.view.objects.Keys
  {
    SortBy(ObjectsInOrder(s.objects, AllKeys(v)), ObjectKey)
  }

  // ---- The shape of a prepared commit ----------------------------------------------------------

  /** The checkpoint record names the roots and the counts of the five trees. */
  predicate Records(v: Vol, s: Stage, t: Forest, record: CheckpointRecord) {
    record.generation == v.checkpoint.record.generation + 1 && record.previous == v.checkpoint.sector
    && record.objectRoot == t.objects.root && record.objectCount == |v.view.objects|
    && record.nameRoot == t.names.root && record.nameCount == |v.view.names|
    && record.attributeRoot == t.attributes.root && record.attributeCount == |v.view.attributes|
    && record.extentRoot == t.extents.root && record.extentCount == |s.extents|
    && record.snapshotRoot == t.snapshots.root && record.snapshotCount == |v.snapshots|
  }

  /** What a successful `Prepare` has written: the forest, then the bitmap, and last the checkpoint. */
  predicate Shape(v: Vol, t: Forest, p: Prepared) {
    !p.flow.Failed() && p.flow.start == v.HighWater() && p.flow.total == v.Total()
    && t.snapshots.flow.out <= p.flow.out
    && p.record.highWater == p.flow.Cursor() <= v.Total()
    && p.checkpointSector + 1 == p.record.highWater && p.checkpointSector >= v.HighWater() + 1
    && p.flow.out[|p.flow.out| - 1] == Check(p.record)
  }

  lemma PrepareShape(v: Vol)
    requires !Prepare(v).flow.Failed()
    ensures var s, t, p := FinalStage(v), WriteForest(v, FinalStage(v)), Prepare(v);
      !t.snapshots.flow.Failed() && p.objects == s.objects && Shape(v, t, p) && Records(v, s, t, p.record)
      && p.record.bitmapSector == t.snapshots.flow.Cursor()
      && var count := BitmapCount(t.snapshots.flow.Cursor(), 1);
        p.flow.out == t.snapshots.flow.out + BitmapSectors(p.record.highWater, v.Total(), count) + [Check(p.record)]
  {
    var s := FinalStage(v);
    var f := WriteForest(v, s).snapshots.flow;
    assert !f.Failed();
    var count := BitmapCount(f.Cursor(), 1);
    var p := Prepare(v);
    assert p.flow.out == f.out + BitmapSectors(p.record.highWater, f.total, count) + [Check(p.record)];
    assert |s.objects| == |s.objects.Keys| == |v.view.objects.Keys|;
  }

  /** Each flow extends the one before it, and none of them failed unless the last did. */
  lemma ForestGrows(v: Vol, s: Stage)
    requires s.objects.Keys == v.view.objects.Keys
    ensures var t := WriteForest(v, s);
      s.flow.out <= t.extents.flow.out <= t.objects.flow.out <= t.names.flow.out
      && t.names.flow.out <= t.attributes.flow.out <= t.snapshots.flow.out
      && t.extents.flow.start == t.objects.flow.start == t.names.flow.start == s.flow.start
      && t.attributes.flow.start == t.snapshots.flow.start == s.flow.start
      && t.snapshots.flow.total == s.flow.total
    ensures var t := WriteForest(v, s);
      !t.snapshots.flow.Failed() ==>
        !s.flow.Failed() && !t.extents.flow.Failed() && !t.objects.flow.Failed()
        && !t.names.flow.Failed() && !t.attributes.flow.Failed()
  {
  }

  // ---- The finished file loop ------------------------------------------------------------------

  lemma CountStep(objects: map<nat, Object>, keys: seq<nat>, n: nat)
    requires 0 < n <= |keys| && forall k | k in keys :: k in objects
    ensures ChunksNeeded(objects, keys[..n]) == ChunksNeeded(objects, keys[..n - 1])
      + if objects[keys[n - 1]].kind == FILE then Chunks(objects[keys[n - 1]].size) else 0
  {
    assert keys[..n][..n - 1] == keys[..n - 1];
  }

  /** The file loop makes exactly as many extents as the files need chunks. */
  lemma {:induction false} StageCount(v: Vol, core: Disk, keys: seq<nat>, n: nat, objects: map<nat, Object>)
    requires Ready(v, core, keys) && n <= |keys| && !WriteObjects(v, keys, n).flow.Failed()
    requires forall k | k in keys :: k in objects && objects[k] == Moved(v, k)
    ensures |WriteObjects(v, keys, n).extents| == ChunksNeeded(objects, keys[..n])
  {
    hide WriteObjects, Ready, Moved, ChunksNeeded;
    KeysInside(v, core, keys);
    if n != 0 {
      StageGrows(v, core, keys, n);
      StageCount(v, core, keys, n - 1, objects);
      CountStep(objects, keys, n);
      assert objects[keys[n - 1]] == Moved(v, keys[n - 1]);
    } else {
      NoCount(v, objects, keys);
    }
  }

  lemma NoCount(v: Vol, objects: map<nat, Object>, keys: seq<nat>)
    requires forall k | k in keys :: k in v.view.objects && k in objects
    ensures |WriteObjects(v, keys, 0).extents| == 0 == ChunksNeeded(objects, keys[..0])
  {
    assert keys[..0] == [];
  }

  lemma FailureStays(s: Stage, v: Vol, oid: nat)
    requires oid in s.objects
    ensures s.flow.Failed() ==> WriteObject(s, v, oid) == s
  {
  }

  lemma MovedKind(v: Vol, oid: nat)
    requires oid in v.view.objects
    ensures Moved(v, oid).kind == v.view.objects[oid].kind
  {
  }

  lemma StageGrows(v: Vol, core: Disk, keys: seq<nat>, n: nat)
    requires Ready(v, core, keys) && 0 < n <= |keys| && !WriteObjects(v, keys, n).flow.Failed()
    ensures !WriteObjects(v, keys, n - 1).flow.Failed()
    ensures var o := Moved(v, keys[n - 1]);
      |WriteObjects(v, keys, n).extents|
      == |WriteObjects(v, keys, n - 1).extents| + if o.kind == FILE then Chunks(o.size) else 0
  {
    hide *;
    KeysInside(v, core, keys);
    StageHolds(v, core, keys, n - 1);
    WriteStep(v, keys, n);
    FailureStays(WriteObjects(v, keys, n - 1), v, keys[n - 1]);
    MovedKind(v, keys[n - 1]);
    ExtentStep(v, core, keys, n, WriteObjects(v, keys, n - 1));
  }

  function ExtentSectors(l: seq<Extent>): (s: seq<nat>)
    ensures |s| == |l| && forall i | 0 <= i < |l| :: s[i] == l[i].sector
  {
    seq(|l|, i requires 0 <= i < |l| => l[i].sector)
  }

  /** Disjoint eight-sector runs below the total are at most an eighth of it. */
  lemma ExtentsFit(l: seq<Extent>, total: nat)
    requires Distinct(l) && forall x | x in l :: x.sector + NODE_SECTORS <= total
    ensures |l| <= total / NODE_SECTORS
  {
    var s := ExtentSectors(l);
    DistinctCount(s);
    forall a, b | a in Values(s) && b in Values(s) && a < b
      ensures a + NODE_SECTORS <= b
    {
      var i :| 0 <= i < |s| && s[i] == a;
      var j :| 0 <= j < |s| && s[j] == b;
      if i < j {
        assert Apart(l[i].sector, l[j].sector);
      } else {
        assert Apart(l[j].sector, l[i].sector);
      }
    }
    forall a | a in Values(s)
      ensures a + NODE_SECTORS <= total
    {
      var i :| 0 <= i < |s| && s[i] == a;
      assert l[i] in l;
    }
    Pigeonhole(Values(s), total);
  }

  /** The file loop ran to the end of `keys`, all the objects of the volume, within the volume. */
  ghost predicate StageDone(v: Vol, core: Disk, keys: seq<nat>, s: Stage) {
    Ready(v, core, keys) && v.HighWater() >= RING_SLOTS
    && (forall k | k in v.view.objects :: k in keys)
    && s.flow.start == v.HighWater() && !s.flow.Failed() && s.flow.Cursor() <= v.Total()
    && s.objects.Keys == v.view.objects.Keys
    && (forall k | k in v.view.objects :: s.objects[k] == Moved(v, k))
    && ExtentsPlaced(v, keys, |keys|, s)
  }

  lemma StageFinishes(v: Vol, core: Disk, keys: seq<nat>)
    requires Ready(v, core, keys) && v.HighWater() >= RING_SLOTS && forall k | k in v.view.objects :: k in keys
    requires var s := WriteObjects(v, keys, |keys|); !s.flow.Failed() && s.flow.Cursor() <= v.Total()
    ensures var s := WriteObjects(v, keys, |keys|);
      StageDone(v, core, keys, s) && |s.extents| == ChunksNeeded(s.objects, keys)
  {
    var s := WriteObjects(v, keys, |keys|);
    StageHolds(v, core, keys, |keys|);
    assert keys[..|keys|] == keys;
    StageCount(v, core, keys, |keys|, s.objects);
  }

  /** Each extent of the loop: where it lies, and that there is room for all of them. */
  lemma StageExtents(v: Vol, core: Disk, keys: seq<nat>, s: Stage)
    requires StageDone(v, core, keys, s)
    ensures forall x | x in s.extents :: 0 < x.sector && x.sector + NODE_SECTORS <= s.flow.Cursor()
    ensures |s.extents| <= v.Total() / NODE_SECTORS
  {
    forall x | x in s.extents
      ensures 0 < x.sector && x.sector + NODE_SECTORS <= s.flow.Cursor()
    {
      FromBelow(v, core, keys, s, x);
      if x.slot !in v.dirty {
        assert BlockAt(core, v.view.extents[(x.slot, x.chunk)]);
      }
    }
    ExtentsFit(s.extents, v.Total());
  }

  // ---- The new view ----------------------------------------------------------------------------

  /** The extents a reader will find. */
  function NewExtents(s: Stage, total: nat): map<(nat, nat), nat> {
    var r := ExtentsOf(ExtentRows(SortBy(s.extents, ExtentKey)), total);
    if r.Ok? then r.value else map[]
  }

  function NewView(v: Vol, s: Stage): View {
    View(s.objects, SortBy(v.view.names, NameKey), NewExtents(s, v.Total()), SortBy(v.view.attributes, AttributeKey))
  }

  lemma ExtentsLoad(s: Stage, total: nat)
    requires Distinct(s.extents) && forall x | x in s.extents :: 0 < x.sector && x.sector + NODE_SECTORS <= total
    ensures ExtentsOf(ExtentRows(SortBy(s.extents, ExtentKey)), total) == Ok(NewExtents(s, total))
    ensures var m := NewExtents(s, total);
      (forall x | x in s.extents :: (x.slot, x.chunk) in m && m[(x.slot, x.chunk)] == x.sector)
      && forall k | k in m :: Extent(k.0, k.1, m[k]) in s.extents
  {
    var l := s.extents;
    SortMembers(l, ExtentKey);
    ExtentsDecode(SortBy(l, ExtentKey), total);
  }

  lemma InOrderMembers(objects: map<nat, Object>, keys: seq<nat>)
    requires forall k :: k in keys <==> k in objects
    ensures forall o :: o in ObjectsInOrder(objects, keys) <==> exists k :: k in objects && objects[k] == o
  {
    var l := ObjectsInOrder(objects, keys);
    forall k | k in objects
      ensures objects[k] in l
    {
      var i :| 0 <= i < |keys| && keys[i] == k;
      assert l[i] == objects[k];
    }
    forall o | o in l
      ensures exists k :: k in objects && objects[k] == o
    {
      var i :| 0 <= i < |l| && l[i] == o;
      assert keys[i] in objects && objects[keys[i]] == o;
    }
  }

  lemma ObjectsLoad(objects: map<nat, Object>, keys: seq<nat>)
    requires ObjectsOk(objects) && forall k :: k in keys <==> k in objects
    ensures ObjectsOf(ObjectRows(SortBy(ObjectsInOrder(objects, keys), ObjectKey))) == Ok(objects)
  {
    var l := SortBy(ObjectsInOrder(objects, keys), ObjectKey);
    InOrderMembers(objects, keys);
    SortMembers(ObjectsInOrder(objects, keys), ObjectKey);
    ObjectsDecode(l);
    var m := ObjectsOf(ObjectRows(l)).value;
    forall k
      ensures k in m <==> k in objects
    {
      if k in objects {
        assert objects[k] in l;
      }
    }
    forall k | k in m
      ensures m[k] == objects[k]
    {
      assert m[k] in l;
    }
    assert m == objects;
  }

  /** The five trees, as a reader of disk `e` collects them. */
  ghost predicate Collected(v: Vol, s: Stage, record: CheckpointRecord, e: Disk)
    requires s.objects.Keys == v.view.objects.Keys
  {
    Collect(e, record.objectRoot, record.objectCount, MAX_OBJECTS) == Ok(ObjectRows(SortedObjects(v, s)))
    && Collect(e, record.nameRoot, record.nameCount, MAX_NAMES) == Ok(NameRows(SortBy(v.view.names, NameKey)))
    && Collect(e, record.extentRoot, record.extentCount, MaxExtents(s.objects))
       == Ok(ExtentRows(SortBy(s.extents, ExtentKey)))
    && Collect(e, record.attributeRoot, record.attributeCount, MAX_ATTRIBUTES)
       == Ok(AttributeRows(SortBy(v.view.attributes, AttributeKey)))
    && Collect(e, record.snapshotRoot, record.snapshotCount, MAX_SNAPSHOTS)
       == Ok(SnapshotRows(SortBy(v.snapshots, SnapshotKey)))
  }

  lemma ForestCollects(v: Vol, s: Stage, record: CheckpointRecord, e: Disk)
    requires s.objects.Keys == v.view.objects.Keys && s.flow.start > 0 && |s.extents| == MaxExtents(s.objects)
    requires var t := WriteForest(v, s);
      !t.snapshots.flow.Failed() && Written(e, t.snapshots.flow) && Records(v, s, t, record)
    requires WithinLimits(v)
    ensures Collected(v, s, record, e)
  {
    var t := WriteForest(v, s);
    ForestGrows(v, s);
    SortedKeysAre(v.view.objects.Keys);
    SortKeeps(ObjectsInOrder(s.objects, AllKeys(v)), ObjectKey);
    SortKeeps(s.extents, ExtentKey);
    SortKeeps(v.view.names, NameKey);
    SortKeeps(v.view.attributes, AttributeKey);
    SortKeeps(v.snapshots, SnapshotKey);
    WrittenBefore(e, t.attributes.flow, t.snapshots.flow);
    WrittenBefore(e, t.names.flow, t.attributes.flow);
    WrittenBefore(e, t.objects.flow, t.names.flow);
    WrittenBefore(e, t.extents.flow, t.objects.flow);
    TreeRoundTrip(e, s.flow, ExtentRows(SortBy(s.extents, ExtentKey)), MaxExtents(s.objects));
    TreeRoundTrip(e, t.extents.flow, ObjectRows(SortedObjects(v, s)), MAX_OBJECTS);
    TreeRoundTrip(e, t.objects.flow, NameRows(SortBy(v.view.names, NameKey)), MAX_NAMES);
    TreeRoundTrip(e, t.names.flow, AttributeRows(SortBy(v.view.attributes, AttributeKey)), MAX_ATTRIBUTES);
    TreeRoundTrip(e, t.attributes.flow, SnapshotRows(SortBy(v.snapshots, SnapshotKey)), MAX_SNAPSHOTS);
  }

  /** The committed view loads back exactly when no attribute is dangling. */
  lemma ViewLoads(v: Vol, s: Stage, record: CheckpointRecord, e: Disk)
    requires s.objects.Keys == v.view.objects.Keys && Collected(v, s, record, e) && record.extentCount == |s.extents|
    requires ObjectsOk(s.objects) && NamesOk(v.view.names, s.objects)
    requires Distinct(s.extents) && forall x | x in s.extents :: 0 < x.sector && x.sector + NODE_SECTORS <= v.Total()
    requires |s.extents| == MaxExtents(s.objects) && |s.extents| <= v.Total() / NODE_SECTORS
    ensures LoadView(e, record, v.Total()).Ok? <==> AttributesAttached(v)
    ensures AttributesAttached(v) ==> LoadView(e, record, v.Total()) == Ok(NewView(v, s))
  {
    SortedKeysAre(v.view.objects.Keys);
    ObjectsLoad(s.objects, AllKeys(v));
    ExtentsLoad(s, v.Total());
    NamesLoad(v.view.names, s.objects);
    SortMembers(v.view.attributes, AttributeKey);
    AttributesDecode(SortBy(v.view.attributes, AttributeKey), s.objects);
  }

  lemma NamesLoad(names: seq<DirEntry>, objects: map<nat, Object>)
    requires NamesOk(names, objects)
    ensures NamesOf(NameRows(SortBy(names, NameKey)), objects) == Ok(SortBy(names, NameKey))
    ensures NamesOk(SortBy(names, NameKey), objects)
  {
    SortMembers(names, NameKey);
    SortKeeps(names, NameKey);
    NamesDecode(SortBy(names, NameKey), objects);
  }

  /** The snapshot list loads back in order, with the labels as the reader cuts them. */
  lemma SnapshotsLoad(l: seq<Snapshot>, core: Disk, total: nat)
    requires SnapshotsOk(core, l, total)
    ensures SnapshotsOf(SnapshotRows(SortBy(l, SnapshotKey))) == Ok(ReadBack(l))
    ensures SnapshotsOk(core, ReadBack(l), total)
  {
    SnapshotsInOrder(l);
    forall x | x in l
      ensures x.id != 0 && x.checkpointSector != 0
    {
      var i :| 0 <= i < |l| && l[i] == x;
      assert SnapshotOk(core, l[i], total);
    }
    SnapshotsDecode(l);
    ReadBackOk(l, core, total);
  }

  lemma ReadBackOk(l: seq<Snapshot>, core: Disk, total: nat)
    requires SnapshotsOk(core, l, total)
    ensures SnapshotsOk(core, ReadBack(l), total)
  {
    hide LoadedOk, ReadCheckpoint, FixedLabel;
    var r := ReadBack(l);
    forall i | 0 <= i < |r|
      ensures SnapshotOk(core, r[i], total)
    {
      assert SnapshotOk(core, l[i], total);
    }
  }

  lemma SnapshotsInOrder(l: seq<Snapshot>)
    requires forall i, j | 0 <= i < j < |l| :: l[i].id < l[j].id
    ensures SortBy(l, SnapshotKey) == l
  {
    forall i | 0 < i < |l|
      ensures !LexLess(SnapshotKey(l[i]), SnapshotKey(l[i - 1]))
    {
      assert l[i - 1].id < l[i].id;
    }
    SortInOrder(l, SnapshotKey);
  }

  // ---- The new view is sound and stands for the same file system -------------------------------

  /** A chunk written by the commit is on the disk. */
  lemma ChunkStored(e: Disk, f: Flow, sector: nat, data: seq<byte>, c: nat)
    requires Written(e, f) && sector >= f.start && HoldsChunk(f.out, sector - f.start, data, c)
    ensures sector >= RING_SLOTS ==> BlockAt(e, sector)
    ensures forall k: nat {:trigger RawByte(e, sector, k)} | k < CHUNK_SIZE ::
        RawByte(e, sector, k) == Block(data, c)[k]
  {
    var run := BlockRun(Block(data, c));
    forall i: nat | i < NODE_SECTORS
      ensures e[sector + i] == run[i]
    {
      assert e[sector + i] == e[f.start..f.Cursor()][sector - f.start + i];
      assert f.out[sector - f.start..sector - f.start + NODE_SECTORS][i] == run[i];
    }
    forall i | sector <= i < sector + NODE_SECTORS
      ensures e[i].Data? && |e[i].bytes| == SECTOR_SIZE
    {
      assert e[sector + (i - sector)] == run[i - sector];
    }
    forall k: nat | k < CHUNK_SIZE
      ensures RawByte(e, sector, k) == Block(data, c)[k]
    {
      var i := k / SECTOR_SIZE;
      assert e[sector + i] == run[i];
      assert SECTOR_SIZE * i + k % SECTOR_SIZE == k;
    }
  }

  /** A disk that holds the file chunks of the commit, and all the volume knew before. */
  ghost predicate HoldsFiles(v: Vol, core: Disk, keys: seq<nat>, s: Stage, e: Disk) {
    StageDone(v, core, keys, s) && Knows(core, e) && Written(e, s.flow)
  }

  /** Each extent of the new view holds its chunk. */
  lemma ExtentHolds(v: Vol, core: Disk, keys: seq<nat>, s: Stage, e: Disk, x: Extent)
    requires HoldsFiles(v, core, keys, s, e) && x in s.extents
    ensures BlockAt(e, x.sector)
    ensures x.slot in v.dirty ==>
      forall k: nat {:trigger RawByte(e, x.sector, k)} | k < CHUNK_SIZE ::
          RawByte(e, x.sector, k) == Block(v.dirty[x.slot], x.chunk)[k]
    ensures x.slot !in v.dirty ==>
      (x.slot, x.chunk) in v.view.extents && v.view.extents[(x.slot, x.chunk)] == x.sector
      && forall k: nat {:trigger RawByte(e, x.sector, k)} | k < CHUNK_SIZE ::
         RawByte(e, x.sector, k) == RawByte(core, x.sector, k)
  {
    assert ExtentFrom(v, s, x);
    if x.slot in v.dirty {
      ChunkStored(e, s.flow, x.sector, v.dirty[x.slot], x.chunk);
    } else {
      BlockKnows(core, e, x.sector);
    }
  }

  lemma NewExtentsOk(v: Vol, core: Disk, keys: seq<nat>, s: Stage, e: Disk)
    requires HoldsFiles(v, core, keys, s, e)
    ensures ExtentsOk(NewExtents(s, v.Total()), e)
  {
    StageExtents(v, core, keys, s);
    ExtentsLoad(s, v.Total());
    forall x | x in s.extents
      ensures BlockAt(e, x.sector)
    {
      ExtentHolds(v, core, keys, s, e, x);
    }
    ExtentsOkFrom(s.extents, NewExtents(s, v.Total()), e);
  }

  lemma ExtentsOkFrom(l: seq<Extent>, m: map<(nat, nat), nat>, e: Disk)
    requires Distinct(l) && (forall x | x in l :: BlockAt(e, x.sector))
    requires forall k | k in m :: Extent(k.0, k.1, m[k]) in l
    ensures ExtentsOk(m, e)
  {
    forall a | a in m
      ensures BlockAt(e, m[a])
    {
      assert Extent(a.0, a.1, m[a]) in l;
    }
    forall a, b | a in m && b in m && a != b
      ensures Apart(m[a], m[b])
    {
      var i :| 0 <= i < |l| && l[i] == Extent(a.0, a.1, m[a]);
      var j :| 0 <= j < |l| && l[j] == Extent(b.0, b.1, m[b]);
      assert i < j || j < i;
    }
  }

  /** The new view has exactly one extent for each chunk of each file. */
  lemma NewExtentsExact(v: Vol, core: Disk, keys: seq<nat>, s: Stage)
    requires StageDone(v, core, keys, s)
    ensures Covered(NewView(v, s), {}) && ExtentsExact(NewView(v, s))
  {
    var m := NewExtents(s, v.Total());
    StageExtents(v, core, keys, s);
    ExtentsLoad(s, v.Total());
    forall k, c: nat | k in s.objects && s.objects[k].kind == FILE && c < Chunks(s.objects[k].size)
      ensures (k, c) in m
    {
      assert k in keys[..|keys|];
      assert HasChunk(s.extents, k, c);
      var i :| 0 <= i < |s.extents| && s.extents[i].slot == k && s.extents[i].chunk == c;
      assert s.extents[i] in s.extents;
    }
    forall k, c | (k, c) in m
      ensures k in s.objects && s.objects[k].kind == FILE && c < Chunks(s.objects[k].size)
    {
      var x := Extent(k, c, m[(k, c)]);
      assert x in s.extents;
      assert ExtentFrom(v, s, x);
    }
  }

  lemma NewViewSound(v: Vol, core: Disk, keys: seq<nat>, s: Stage, e: Disk)
    requires HoldsFiles(v, core, keys, s, e)
    ensures ViewOk(NewView(v, s), {}, e) && ExtentsExact(NewView(v, s))
  {
    NewExtentsOk(v, core, keys, s, e);
    NewExtentsExact(v, core, keys, s);
    assert NamesOk(v.view.names, s.objects);
    NamesLoad(v.view.names, s.objects);
  }

  /** The bytes of one file are the same after the commit. */
  lemma FileKept(v: Vol, core: Disk, keys: seq<nat>, s: Stage, e: Disk, oid: nat)
    requires HoldsFiles(v, core, keys, s, e) && oid in v.view.objects && v.view.objects[oid].kind == FILE
    ensures Stored(e, NewExtents(s, v.Total()), s.objects[oid]) == Contents(core, v.view, v.dirty, oid)
  {
    var extents := NewExtents(s, v.Total());
    var o, before := s.objects[oid], Contents(core, v.view, v.dirty, oid);
    forall i | 0 <= i < o.size
      ensures ByteAt(e, extents, oid, i) == before[i]
    {
      ByteKept(v, core, keys, s, e, oid, i);
    }
  }

  /** Every chunk of a file has its extent in the new view, from the file loop. */
  lemma NewExtentOf(v: Vol, core: Disk, keys: seq<nat>, s: Stage, oid: nat, c: nat)
    requires StageDone(v, core, keys, s) && oid in v.view.objects && v.view.objects[oid].kind == FILE
    requires c < Chunks(Moved(v, oid).size)
    ensures var m := NewExtents(s, v.Total()); (oid, c) in m && Extent(oid, c, m[(oid, c)]) in s.extents
  {
    hide ViewOk, ExtentFrom, HasChunk;
    StageExtents(v, core, keys, s);
    ExtentsLoad(s, v.Total());
    NewExtentsExact(v, core, keys, s);
    assert (oid, c) in NewView(v, s).extents;
  }

  lemma ByteKept(v: Vol, core: Disk, keys: seq<nat>, s: Stage, e: Disk, oid: nat, i: nat)
    requires HoldsFiles(v, core, keys, s, e) && oid in v.view.objects && v.view.objects[oid].kind == FILE
    requires i < Moved(v, oid).size
    ensures ByteAt(e, NewExtents(s, v.Total()), oid, i) == Contents(core, v.view, v.dirty, oid)[i]
  {
    hide ViewOk, ExtentFrom, HasChunk, StageDone, Written, Knows, RawByte;
    var extents := NewExtents(s, v.Total());
    var c, k := i / CHUNK_SIZE, i % CHUNK_SIZE;
    assert CHUNK_SIZE * c + k == i && c < Chunks(Moved(v, oid).size);
    DoneFile(v, core, keys, s, oid);
    NewExtentOf(v, core, keys, s, oid, c);
    var x := Extent(oid, c, extents[(oid, c)]);
    ExtentHolds(v, core, keys, s, e, x);
    if oid in v.dirty {
      assert RawByte(e, x.sector, k) == Block(v.dirty[oid], c)[k];
    } else {
      assert RawByte(core, x.sector, k) == RawByte(e, x.sector, k);
    }
  }

  lemma DoneFile(v: Vol, core: Disk, keys: seq<nat>, s: Stage, oid: nat)
    requires StageDone(v, core, keys, s) && oid in v.view.objects && v.view.objects[oid].kind == FILE
    ensures v.view.objects[oid].dataSlot == oid
  {
  }

  /** The committed view stands for the same file system. */
  lemma FileSystemKept(v: Vol, core: Disk, keys: seq<nat>, s: Stage, e: Disk)
    requires HoldsFiles(v, core, keys, s, e)
    ensures FileSystemOf(e, NewView(v, s), map[]) == FileSystemOf(core, v.view, v.dirty)
  {
    var a, b := FileSystemOf(e, NewView(v, s), map[]).entities, FileSystemOf(core, v.view, v.dirty).entities;
    forall oid | oid in v.view.objects
      ensures a[oid] == b[oid]
    {
      if v.view.objects[oid].kind == FILE {
        FileKept(v, core, keys, s, e, oid);
      }
    }
    assert a == b;
    SortKeeps(v.view.names, NameKey);
    SortKeeps(v.view.attributes, AttributeKey);
  }
}
