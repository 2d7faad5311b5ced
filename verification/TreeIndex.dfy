/** What a commit leaves on the disk beside its rows: the separator keys of the trees, and the records. */
module TreeIndex {
  import opened ArcTypes
  import opened Keys
  import opened Reader
  import opened Writer
  import opened TreeProofs
  import opened Soundness
  import opened CommitProofs
  import opened Commit
  import opened Space

  /** The leading field of a row is `key`. */
  predicate Leads(row: Row, key: nat) {
    && (row.ObjectRow? ==> key == row.obj.oid)
    && (row.NameRow? ==> key == row.entry.parent)
    && (row.ExtentRow? ==> key == row.extent.slot)
    && (row.AttributeRow? ==> key == row.attr.oid)
    && (row.SnapshotRow? ==> key == row.snap.id)
  }

  /** The node at `s` and all below it: one key for each child, the leading field of the first row below
      that child; `key` is that of the node itself. */
  predicate Indexed(d: Disk, s: nat, key: nat)
    decreases s
  {
    ReadNode(d, s).Ok? &&
    match ReadNode(d, s).value
    case Leaf(rows) => |rows| > 0 && Leads(rows[0], key)
    case Inner(keys, children) =>
      && |keys| == |children| > 0 && keys[0] == key
      && forall i | 0 <= i < |children| :: children[i] < s && Indexed(d, children[i], keys[i])
  }

  predicate AllIndexed(d: Disk, nodes: seq<Placed>, limit: nat) {
    forall i | 0 <= i < |nodes| :: nodes[i].sector < limit && Indexed(d, nodes[i].sector, nodes[i].key)
  }

  lemma OneMoreIndexed(d: Disk, nodes: seq<Placed>, limit: nat, x: Placed, above: nat)
    requires AllIndexed(d, nodes, limit) && limit <= above && x.sector < above && Indexed(d, x.sector, x.key)
    ensures AllIndexed(d, nodes + [x], above)
  {
    hide Indexed;
  }

  lemma LeafIndexed(d: Disk, s: nat, rows: seq<Row>)
    requires ReadNode(d, s) == Ok(Leaf(rows)) && |rows| > 0
    ensures Indexed(d, s, RowKey(rows[0]))
  {
    hide ReadNode;
  }

  lemma InnerIndexed(d: Disk, s: nat, nodes: seq<Placed>)
    requires ReadNode(d, s) == Ok(Inner(SeparatorKeys(nodes), Sectors(nodes))) && |nodes| > 0 && AllIndexed(d, nodes, s)
    ensures Indexed(d, s, nodes[0].key)
  {
    hide ReadNode;
  }

  lemma {:induction false} LeavesIndexed(d: Disk, f: Flow, rows: seq<Row>, n: nat)
    requires n <= Groups(|rows|) && !f.Failed()
    requires !Leaves(f, rows, n).flow.Failed() && Written(d, Leaves(f, rows, n).flow)
    ensures AllIndexed(d, Leaves(f, rows, n).nodes, Leaves(f, rows, n).flow.Cursor())
  {
    hide Indexed, ReadNode, Written, RowKey, NodeRun, Place;
    if n != 0 {
      var before, group := Leaves(f, rows, n - 1), Group(rows, n - 1);
      PlaceReads(d, before, Leaf(group), RowKey(group[0]));
      LeavesIndexed(d, f, rows, n - 1);
      LeafIndexed(d, before.flow.Cursor(), group);
      hide AllIndexed;
      OneMoreIndexed(d, before.nodes, before.flow.Cursor(), Placed(RowKey(group[0]), before.flow.Cursor()),
                     Leaves(f, rows, n).flow.Cursor());
    }
  }

  lemma GroupIndexed(d: Disk, nodes: seq<Placed>, limit: nat, i: nat, above: nat)
    requires AllIndexed(d, nodes, limit) && limit <= above && i < Groups(|nodes|)
    ensures AllIndexed(d, Group(nodes, i), above)
  {
    hide Indexed;
  }

  lemma {:induction false} ParentsIndexed(d: Disk, f: Flow, below: seq<Placed>, n: nat)
    requires n <= Groups(|below|) && !f.Failed() && AllIndexed(d, below, f.Cursor())
    requires !Parents(f, below, n).flow.Failed() && Written(d, Parents(f, below, n).flow)
    ensures AllIndexed(d, Parents(f, below, n).nodes, Parents(f, below, n).flow.Cursor())
  {
    hide Indexed, ReadNode, Written, SeparatorKeys, NodeRun, Place;
    if n != 0 {
      var before, group := Parents(f, below, n - 1), Group(below, n - 1);
      PlaceReads(d, before, Inner(SeparatorKeys(group), Sectors(group)), group[0].key);
      ParentsIndexed(d, f, below, n - 1);
      hide AllIndexed;
      GroupIndexed(d, below, f.Cursor(), n - 1, before.flow.Cursor());
      InnerIndexed(d, before.flow.Cursor(), group);
      OneMoreIndexed(d, before.nodes, before.flow.Cursor(), Placed(group[0].key, before.flow.Cursor()),
                     Parents(f, below, n).flow.Cursor());
    }
  }

  lemma {:induction false} AscendIndexed(d: Disk, l: Level)
    requires !Ascend(l).flow.Failed() && Written(d, Ascend(l).flow) && AllIndexed(d, l.nodes, l.flow.Cursor())
    ensures AllIndexed(d, Ascend(l).nodes, Ascend(l).flow.Cursor())
    decreases |l.nodes|
  {
    hide Written, AllIndexed;
    if |l.nodes| > 1 && !l.flow.Failed() {
      var next := Parents(l.flow, l.nodes, Groups(|l.nodes|));
      WrittenBefore(d, next.flow, Ascend(l).flow);
      ParentsIndexed(d, l.flow, l.nodes, Groups(|l.nodes|));
      AscendIndexed(d, next);
    }
  }

  /** A written tree is indexed from its root down. */
  lemma TreeIndexed(d: Disk, f: Flow, rows: seq<Row>)
    requires f.start > 0 && |rows| > 0 && !WriteTree(f, rows).flow.Failed() && Written(d, WriteTree(f, rows).flow)
    ensures exists key :: Indexed(d, WriteTree(f, rows).root, key)
  {
    hide Leaves, Written, Indexed, Yields;
    var n := Groups(|rows|);
    var leaves := Leaves(f, rows, n);
    var top := Ascend(leaves);
    WrittenBefore(d, leaves.flow, top.flow);
    LeavesIndexed(d, f, rows, n);
    AscendIndexed(d, leaves);
    LeavesCarry(d, f, rows, n);
    AscendYields(d, leaves, GroupsOf(rows, n));
    assert Indexed(d, top.nodes[0].sector, top.nodes[0].key);
  }

  // ---- The trees of a commit ------------------------------------------------------------------------

  ghost predicate RootIndexed(e: Disk, root: nat, count: nat) {
    count > 0 ==> exists key :: Indexed(e, root, key)
  }

  /** Every tree a commit leaves on the disk is indexed by the leading fields of its rows. */
  lemma CommitIndexes(d: Disk, v: Vol)
    requires Sound(d, v) && !v.Clean() && RoomFor(v)
    ensures RING_SLOTS <= v.HighWater() <= v.Total() <= |d|
    ensures var e, record := CommitDisk(d, v), Prepare(v).record;
      && e[0] == Super(CommitSuper(v, Prepare(v))) && Prepare(v).checkpointSector < |e|
      && e[Prepare(v).checkpointSector] == Check(record)
      && RootIndexed(e, record.objectRoot, record.objectCount) && RootIndexed(e, record.nameRoot, record.nameCount)
      && RootIndexed(e, record.extentRoot, record.extentCount)
      && RootIndexed(e, record.attributeRoot, record.attributeCount)
      && RootIndexed(e, record.snapshotRoot, record.snapshotCount)
  {
    hide Sound, Prepare, RoomFor, FinalStage, Publish, RootIndexed, WriteForest;
    SoundBounds(d, v);
    RoomIff(d, v);
    PrepareCloses(v);
    PublishHolds(d, v, Prepare(v));
    PrepareShape(v);
    var e, p := CommitDisk(d, v), Prepare(v);
    CheckWritten(e, v, p);
    ForestGrows(v, FinalStage(v));
    WrittenBefore(e, WriteForest(v, FinalStage(v)).snapshots.flow, p.flow);
    ForestIndexed(v, FinalStage(v), p.record, e);
  }

  lemma CheckWritten(e: Disk, v: Vol, p: Prepared)
    requires Closed(v, p) && Written(e, p.flow)
    ensures p.checkpointSector < |e| && e[p.checkpointSector] == Check(p.record)
  {
    assert e[p.checkpointSector] == e[p.flow.start..p.flow.Cursor()][|p.flow.out| - 1];
  }

  lemma ForestIndexed(v: Vol, s: Stage, record: CheckpointRecord, e: Disk)
    requires s.objects.Keys == v.view.objects.Keys && s.flow.start > 0
    requires var t := WriteForest(v, s);
      !t.snapshots.flow.Failed() && Written(e, t.snapshots.flow) && Records(v, s, t, record)
    ensures RootIndexed(e, record.objectRoot, record.objectCount) && RootIndexed(e, record.nameRoot, record.nameCount)
    ensures RootIndexed(e, record.extentRoot, record.extentCount)
    ensures RootIndexed(e, record.attributeRoot, record.attributeCount)
    ensures RootIndexed(e, record.snapshotRoot, record.snapshotCount)
  {
    hide Indexed, Written, WriteTree, SortBy;
    var t := WriteForest(v, s);
    ForestGrows(v, s);
    ForestIs(v, s);
    RowCounts(v, s);
    hide WriteForest, RootIndexed;
    WrittenBefore(e, t.attributes.flow, t.snapshots.flow);
    WrittenBefore(e, t.names.flow, t.attributes.flow);
    WrittenBefore(e, t.objects.flow, t.names.flow);
    WrittenBefore(e, t.extents.flow, t.objects.flow);
    RootOf(e, s.flow, ExtentRows(SortBy(s.extents, ExtentKey)));
    RootOf(e, t.extents.flow, ObjectRows(SortedObjects(v, s)));
    RootOf(e, t.objects.flow, NameRows(SortBy(v.view.names, NameKey)));
    RootOf(e, t.names.flow, AttributeRows(SortBy(v.view.attributes, AttributeKey)));
    RootOf(e, t.attributes.flow, SnapshotRows(SortBy(v.snapshots, SnapshotKey)));
  }

  lemma RootOf(e: Disk, f: Flow, rows: seq<Row>)
    requires f.start > 0 && !WriteTree(f, rows).flow.Failed() && Written(e, WriteTree(f, rows).flow)
    ensures RootIndexed(e, WriteTree(f, rows).root, |rows|)
  {
    hide WriteTree, Written, Indexed;
    if |rows| > 0 {
      TreeIndexed(e, f, rows);
    }
  }

  // ---- The records of a commit ----------------------------------------------------------------------

  /** The four ring slots name one new checkpoint, right below the new high-water mark; it continues the
      generations, counts the rows and leads back to the checkpoint before it. */
  lemma CommitRecords(d: Disk, v: Vol)
    requires Sound(d, v) && !v.Clean() && RoomFor(v)
    ensures RING_SLOTS <= v.HighWater() <= v.Total() <= |d|
    ensures var e, c, prior := CommitDisk(d, v), Prepare(v).checkpointSector, v.checkpoint;
      && (forall i: nat | i < 4 :: e[i] == Super(SuperRecord(v.super.record.volumeId, v.Total(), 0x3_0000, c)))
      && v.HighWater() < c < v.Total() && e[c].Check? && var next := e[c].record;
        && next.generation == prior.record.generation + 1 && next.previous == prior.sector
        && next.highWater == c + 1 && v.HighWater() <= next.bitmapSector < c
        && next.objectCount == |v.view.objects| && next.nameCount == |v.view.names|
        && next.extentCount == |FinalStage(v).extents|
        && next.attributeCount == |v.view.attributes| && next.snapshotCount == |v.snapshots|
        && (forall s | next.bitmapSector <= s < c :: e[s].Bitmap?)
        && (forall s | 4 <= s < v.HighWater() :: e[s] == d[s]) && (forall s | c < s < |d| :: e[s] == d[s])
  {
    hide Sound, Prepare, RoomFor, FinalStage, WriteForest;
    SoundBounds(d, v);
    RoomIff(d, v);
    PrepareCloses(v);
    PublishHolds(d, v, Prepare(v));
    PrepareShape(v);
    ForestGrows(v, FinalStage(v));
    var e, p := CommitDisk(d, v), Prepare(v);
    CheckWritten(e, v, p);
    var f := WriteForest(v, FinalStage(v)).snapshots.flow;
    BitmapLies(e, p, f, BitmapCount(f.Cursor(), 1));
  }

  lemma BitmapLies(e: Disk, p: Prepared, f: Flow, count: nat)
    requires Written(e, p.flow) && p.flow.start == f.start && count > 0
    requires p.flow.out == f.out + BitmapSectors(p.record.highWater, p.flow.total, count) + [Check(p.record)]
    ensures forall s | f.Cursor() <= s < p.flow.Cursor() - 1 :: e[s].Bitmap?
    ensures f.Cursor() < p.flow.Cursor() - 1
  {
    forall s | f.Cursor() <= s < p.flow.Cursor() - 1
      ensures e[s].Bitmap?
    {
      assert e[s] == e[p.flow.start..p.flow.Cursor()][s - p.flow.start];
      assert p.flow.out[s - f.start] == BitmapSectors(p.record.highWater, p.flow.total, count)[s - f.Cursor()];
    }
  }
}
