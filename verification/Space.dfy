/** The space a commit takes, in sectors, counted from the volume before the commit. */
module Space {
  import opened ArcTypes
  import opened Keys
  import opened Reader
  import opened Writer
  import opened Soundness
  import opened StageProofs
  import opened CommitProofs
  import opened Commit

  // ---- Files --------------------------------------------------------------------------------------

  /** The object table a commit writes. */
  function NewObjects(v: Vol): map<nat, Object> {
    map k | k in v.view.objects :: Moved(v, k)
  }

  /** The chunks of a file after the commit. */
  function NewChunks(v: Vol, oid: nat): nat
    requires oid in v.view.objects
  {
    var obj := v.view.objects[oid];
    if obj.kind != FILE then 0 else Chunks(if oid in v.dirty then |v.dirty[oid]| else obj.size)
  }

  /** Chunks with an extent after the commit, over the objects in `keys`. */
  function AllChunks(v: Vol, keys: seq<nat>): nat
    requires forall k | k in keys :: k in v.view.objects
  {
    if |keys| == 0 then 0
    else AllChunks(v, keys[..|keys| - 1]) + NewChunks(v, keys[|keys| - 1])
  }

  /** Chunks the commit writes, over the objects in `keys`. */
  function FreshChunks(v: Vol, keys: seq<nat>): nat
    requires forall k | k in keys :: k in v.view.objects
  {
    if |keys| == 0 then 0
    else FreshChunks(v, keys[..|keys| - 1]) + if keys[|keys| - 1] in v.dirty then NewChunks(v, keys[|keys| - 1]) else 0
  }

  lemma {:induction false} AllChunksAre(v: Vol, keys: seq<nat>)
    requires forall k | k in keys :: k in v.view.objects
    ensures AllChunks(v, keys) == ChunksNeeded(NewObjects(v), keys)
  {
    if |keys| != 0 {
      AllChunksAre(v, keys[..|keys| - 1]);
    }
  }

  lemma NoneFresh(v: Vol)
    ensures FreshChunks(v, []) == 0
  {
  }

  lemma FreshStep(v: Vol, keys: seq<nat>, n: nat)
    requires 0 < n <= |keys| && forall k | k in keys :: k in v.view.objects
    ensures FreshChunks(v, keys[..n]) ==
            FreshChunks(v, keys[..n - 1]) + if keys[n - 1] in v.dirty then NewChunks(v, keys[n - 1]) else 0
  {
    assert keys[..n][..n - 1] == keys[..n - 1];
  }

  lemma {:induction false} ChunksRoom(s: Stage, oid: nat, data: seq<byte>, n: nat)
    requires !s.flow.Failed() && s.flow.Fits()
    ensures var f := WriteChunks(s, oid, data, n).flow;
      && (f.Failed() <==> s.flow.Cursor() + NODE_SECTORS * n > s.flow.total)
      && (!f.Failed() ==> f.Cursor() == s.flow.Cursor() + NODE_SECTORS * n)
  {
    if n != 0 {
      ChunksRoom(s, oid, data, n - 1);
    }
  }

  lemma {:induction false} KeepFails(s: Stage, oid: nat, slot: nat, extents: map<(nat, nat), nat>, n: nat)
    requires !s.flow.Failed()
    ensures var f := KeepChunks(s, oid, slot, extents, n).flow; f.error == None || f.error == Some(MissingExtent)
  {
    if n != 0 {
      KeepFails(s, oid, slot, extents, n - 1);
    }
  }

  /** One file of the loop takes eight sectors for each chunk it rewrites. */
  lemma ObjectRoom(s: Stage, v: Vol, oid: nat)
    requires oid in s.objects && oid in v.view.objects && s.objects[oid] == v.view.objects[oid]
    requires !s.flow.Failed() && s.flow.Fits() && WriteObject(s, v, oid).flow.SpaceOnly()
    ensures var f, room := WriteObject(s, v, oid).flow, NODE_SECTORS * if oid in v.dirty then NewChunks(v, oid) else 0;
      && (f.Failed() <==> s.flow.Cursor() + room > s.flow.total)
      && (!f.Failed() ==> f.Cursor() == s.flow.Cursor() + room)
  {
    hide WriteChunks, KeepChunks;
    var obj := s.objects[oid];
    if obj.kind == FILE {
      if oid in v.dirty {
        ChunksRoom(s.(objects := s.objects[oid := obj.(dataSlot := oid, size := |v.dirty[oid]|)]), oid, v.dirty[oid],
            Chunks(|v.dirty[oid]|));
      } else {
        KeepFails(s.(objects := s.objects[oid := obj.(dataSlot := oid)]), oid, obj.dataSlot, v.view.extents,
            Chunks(obj.size));
      }
    }
  }

  lemma NotMovedYet(v: Vol, core: Disk, keys: seq<nat>, n: nat)
    requires Ready(v, core, keys) && 0 < n <= |keys|
    ensures var s, oid := WriteObjects(v, keys, n - 1), keys[n - 1];
      oid in s.objects && oid in v.view.objects && s.objects[oid] == v.view.objects[oid]
    ensures WriteObjects(v, keys, n).flow.SpaceOnly()
  {
    hide *;
    KeysInside(v, core, keys);
    StageHolds(v, core, keys, n - 1);
    StageHolds(v, core, keys, n);
    StillOld(v, keys, n, WriteObjects(v, keys, n - 1));
  }

  /** One iteration, after one that did not fail. */
  lemma StageStep(v: Vol, core: Disk, keys: seq<nat>, n: nat)
    requires Ready(v, core, keys) && 0 < n <= |keys| && v.HighWater() <= v.Total()
    requires !WriteObjects(v, keys, n - 1).flow.Failed()
    ensures var s, f := WriteObjects(v, keys, n - 1), WriteObjects(v, keys, n).flow;
      var room := NODE_SECTORS * if keys[n - 1] in v.dirty then NewChunks(v, keys[n - 1]) else 0;
      && (f.Failed() <==> s.flow.Cursor() + room > v.Total())
      && (!f.Failed() ==> f.Cursor() == s.flow.Cursor() + room)
  {
    hide ViewOk, WriteObject, NewChunks, ObjectsMoved;
    NotMovedYet(v, core, keys, n);
    ObjectRoom(WriteObjects(v, keys, n - 1), v, keys[n - 1]);
  }

  lemma {:induction false} StageRoom(v: Vol, core: Disk, keys: seq<nat>, n: nat)
    requires Ready(v, core, keys) && n <= |keys| && v.HighWater() <= v.Total()
    ensures var f, room := WriteObjects(v, keys, n).flow, NODE_SECTORS * FreshChunks(v, keys[..n]);
      && (f.Failed() <==> v.HighWater() + room > v.Total())
      && (!f.Failed() ==> f.Cursor() == v.HighWater() + room)
  {
    hide ViewOk, WriteObject, FreshChunks, NewChunks;
    if n == 0 {
      assert keys[..0] == [];
      NoneFresh(v);
    } else {
      StageRoom(v, core, keys, n - 1);
      FreshStep(v, keys, n);
      var s := WriteObjects(v, keys, n - 1);
      if !s.flow.Failed() {
        StageStep(v, core, keys, n);
      } else {
        StaysFailed(s, v, keys[n - 1]);
      }
    }
  }

  lemma StaysFailed(s: Stage, v: Vol, oid: nat)
    requires oid in s.objects && s.flow.Failed()
    ensures WriteObject(s, v, oid) == s
  {
  }

  // ---- Trees --------------------------------------------------------------------------------------

  /** Nodes above a level of `m` nodes. */
  function NodesAbove(m: nat): nat {
    if m <= 1 then 0 else Groups(m) + NodesAbove(Groups(m))
  }

  /** Nodes of a tree over `n` rows. */
  function TreeNodes(n: nat): nat {
    if n == 0 then 0 else Groups(n) + NodesAbove(Groups(n))
  }

  /** Sectors of a tree over `n` rows. */
  function TreeSectors(n: nat): nat {
    NODE_SECTORS * TreeNodes(n)
  }

  lemma {:induction false} LeavesRoom(f: Flow, rows: seq<Row>, n: nat)
    requires n <= Groups(|rows|) && !f.Failed() && f.Fits()
    ensures var l := Leaves(f, rows, n);
      && (l.flow.Failed() <==> f.Cursor() + NODE_SECTORS * n > f.total)
      && (!l.flow.Failed() ==> l.flow.Cursor() == f.Cursor() + NODE_SECTORS * n && |l.nodes| == n)
  {
    hide Group, RowKey, NodeRun;
    if n != 0 {
      LeavesRoom(f, rows, n - 1);
    }
  }

  lemma {:induction false} ParentsRoom(f: Flow, below: seq<Placed>, n: nat)
    requires n <= Groups(|below|) && !f.Failed() && f.Fits()
    ensures var l := Parents(f, below, n);
      && (l.flow.Failed() <==> f.Cursor() + NODE_SECTORS * n > f.total)
      && (!l.flow.Failed() ==> l.flow.Cursor() == f.Cursor() + NODE_SECTORS * n && |l.nodes| == n)
  {
    hide Group, NodeRun, SeparatorKeys, Sectors;
    if n != 0 {
      ParentsRoom(f, below, n - 1);
    }
  }

  lemma {:induction false} AscendRoom(l: Level)
    requires !l.flow.Failed() && l.flow.Fits()
    ensures var r := Ascend(l).flow;
      && (r.Failed() <==> l.flow.Cursor() + NODE_SECTORS * NodesAbove(|l.nodes|) > l.flow.total)
      && (!r.Failed() ==> r.Cursor() == l.flow.Cursor() + NODE_SECTORS * NodesAbove(|l.nodes|))
    decreases |l.nodes|
  {
    if |l.nodes| > 1 {
      var n := Groups(|l.nodes|);
      var next := Parents(l.flow, l.nodes, n);
      ParentsRoom(l.flow, l.nodes, n);
      if !next.flow.Failed() {
        AscendRoom(next);
      }
    }
  }

  /** A tree takes eight sectors for each node, or does not fit. */
  lemma TreeRoom(f: Flow, rows: seq<Row>)
    requires !f.Failed() && f.Fits()
    ensures var r := WriteTree(f, rows).flow;
      && (r.Failed() <==> f.Cursor() + TreeSectors(|rows|) > f.total)
      && (!r.Failed() ==> r.Cursor() == f.Cursor() + TreeSectors(|rows|))
  {
    if |rows| != 0 {
      var n := Groups(|rows|);
      LeavesRoom(f, rows, n);
      var leaves := Leaves(f, rows, n);
      if !leaves.flow.Failed() {
        AscendRoom(leaves);
      }
    }
  }

  lemma TreeStaysFailed(f: Flow, rows: seq<Row>)
    requires f.Failed()
    ensures WriteTree(f, rows).flow == f
  {
  }

  /** A tree over sorted rows of known number, whether or not what comes before it failed. */
  lemma NextTree(f: Flow, rows: seq<Row>, n: nat, start: nat, before: nat)
    requires |rows| == n && f.total >= start
    requires f.Failed() <==> start + before > f.total
    requires !f.Failed() ==> f.Cursor() == start + before
    ensures var r, after := WriteTree(f, rows).flow, before + TreeSectors(n);
      && r.total == f.total
      && (r.Failed() <==> start + after > f.total)
      && (!r.Failed() ==> r.Cursor() == start + after)
  {
    hide WriteTree, TreeSectors;
    if f.Failed() {
      TreeStaysFailed(f, rows);
    } else {
      TreeRoom(f, rows);
    }
  }

  /** Sectors of trees with these numbers of rows. */
  function AllSectors(counts: seq<nat>): nat {
    if |counts| == 0 then 0 else AllSectors(counts[..|counts| - 1]) + TreeSectors(counts[|counts| - 1])
  }

  /** The rows of the five trees. */
  function RowNumbers(v: Vol): seq<nat> {
    [AllChunks(v, AllKeys(v)), |v.view.objects|, |v.view.names|, |v.view.attributes|, |v.snapshots|]
  }

  /** Sectors of the five trees. */
  function ForestSectors(v: Vol): nat {
    AllSectors(RowNumbers(v))
  }

  lemma FiveTrees(a: nat, b: nat, c: nat, d: nat, e: nat)
    ensures AllSectors([a, b, c, d, e])
        == TreeSectors(a) + TreeSectors(b) + TreeSectors(c) + TreeSectors(d) + TreeSectors(e)
  {
    hide TreeSectors, AllSectors;
    OneMoreTree([], a);
    OneMoreTree([a], b);
    OneMoreTree([a, b], c);
    OneMoreTree([a, b, c], d);
    OneMoreTree([a, b, c, d], e);
    assert [] + [a] == [a] && [a] + [b] == [a, b] && [a, b] + [c] == [a, b, c];
    assert [a, b, c] + [d] == [a, b, c, d] && [a, b, c, d] + [e] == [a, b, c, d, e];
  }

  lemma OneMoreTree(counts: seq<nat>, n: nat)
    ensures AllSectors([]) == 0 && AllSectors(counts + [n]) == AllSectors(counts) + TreeSectors(n)
  {
    hide TreeSectors;
    assert (counts + [n])[..|counts|] == counts;
  }

  /** Where the bitmap of the new generation begins. */
  function BitmapStart(v: Vol): nat {
    v.HighWater() + NODE_SECTORS * FreshChunks(v, AllKeys(v)) + ForestSectors(v)
  }

  /** The new high-water mark: past the chunks, the trees, the bitmap and the checkpoint. */
  function NewHighWater(v: Vol): nat {
    BitmapStart(v) + BitmapCount(BitmapStart(v), 1) + 1
  }

  /** There is room for a commit: it would end inside the volume. */
  predicate RoomFor(v: Vol) {
    NewHighWater(v) <= v.Total()
  }

  /** Sorting keeps the number of rows of each tree. */
  lemma RowCounts(v: Vol, s: Stage)
    requires s.objects.Keys == v.view.objects.Keys
    ensures |ExtentRows(SortBy(s.extents, ExtentKey))| == |s.extents|
    ensures |ObjectRows(SortedObjects(v, s))| == |v.view.objects|
    ensures |NameRows(SortBy(v.view.names, NameKey))| == |v.view.names|
    ensures |AttributeRows(SortBy(v.view.attributes, AttributeKey))| == |v.view.attributes|
    ensures |SnapshotRows(SortBy(v.snapshots, SnapshotKey))| == |v.snapshots|
  {
    SortedKeysAre(v.view.objects.Keys);
    SortKeeps(ObjectsInOrder(s.objects, AllKeys(v)), ObjectKey);
    SortKeeps(s.extents, ExtentKey);
    SortKeeps(v.view.names, NameKey);
    SortKeeps(v.view.attributes, AttributeKey);
    SortKeeps(v.snapshots, SnapshotKey);
  }

  lemma ForestIs(v: Vol, s: Stage)
    requires s.objects.Keys == v.view.objects.Keys
    ensures var t := WriteForest(v, s);
      && t.extents == WriteTree(s.flow, ExtentRows(SortBy(s.extents, ExtentKey)))
      && t.objects == WriteTree(t.extents.flow, ObjectRows(SortedObjects(v, s)))
      && t.names == WriteTree(t.objects.flow, NameRows(SortBy(v.view.names, NameKey)))
      && t.attributes == WriteTree(t.names.flow, AttributeRows(SortBy(v.view.attributes, AttributeKey)))
      && t.snapshots == WriteTree(t.attributes.flow, SnapshotRows(SortBy(v.snapshots, SnapshotKey)))
  {
    hide WriteTree, SortBy;
  }

  lemma BitmapStartIs(v: Vol)
    ensures BitmapStart(v) ==
      v.HighWater() + NODE_SECTORS * FreshChunks(v, AllKeys(v))
      + TreeSectors(AllChunks(v, AllKeys(v))) + TreeSectors(|v.view.objects|)
      + TreeSectors(|v.view.names|) + TreeSectors(|v.view.attributes|) + TreeSectors(|v.snapshots|)
  {
    hide FreshChunks, AllChunks, TreeSectors, AllSectors;
    FiveTrees(AllChunks(v, AllKeys(v)), |v.view.objects|, |v.view.names|, |v.view.attributes|, |v.snapshots|);
  }

  lemma ForestRoom(v: Vol, s: Stage)
    requires s.objects.Keys == v.view.objects.Keys && s.flow.start == v.HighWater() <= v.Total() == s.flow.total
    requires var room := NODE_SECTORS * FreshChunks(v, AllKeys(v));
      && (s.flow.Failed() <==> v.HighWater() + room > v.Total())
      && (!s.flow.Failed() ==> s.flow.Cursor() == v.HighWater() + room && |s.extents| == AllChunks(v, AllKeys(v)))
    ensures var f := WriteForest(v, s).snapshots.flow;
      && (f.Failed() <==> BitmapStart(v) > v.Total())
      && (!f.Failed() ==> f.Cursor() == BitmapStart(v))
  {
    hide *;
    RowCounts(v, s);
    ForestIs(v, s);
    BitmapStartIs(v);
    var t := WriteForest(v, s);
    if s.flow.Failed() {
      ForestStaysFailed(v, s);
    } else {
      var a := NODE_SECTORS * FreshChunks(v, AllKeys(v));
      NextTree(s.flow, ExtentRows(SortBy(s.extents, ExtentKey)), AllChunks(v, AllKeys(v)), v.HighWater(), a);
      var b := a + TreeSectors(AllChunks(v, AllKeys(v)));
      NextTree(t.extents.flow, ObjectRows(SortedObjects(v, s)), |v.view.objects|, v.HighWater(), b);
      var c := b + TreeSectors(|v.view.objects|);
      NextTree(t.objects.flow, NameRows(SortBy(v.view.names, NameKey)), |v.view.names|, v.HighWater(), c);
      var e := c + TreeSectors(|v.view.names|);
      NextTree(t.names.flow, AttributeRows(SortBy(v.view.attributes, AttributeKey)), |v.view.attributes|,
          v.HighWater(), e);
      var g := e + TreeSectors(|v.view.attributes|);
      NextTree(t.attributes.flow, SnapshotRows(SortBy(v.snapshots, SnapshotKey)), |v.snapshots|, v.HighWater(), g);
    }
  }

  lemma ForestStaysFailed(v: Vol, s: Stage)
    requires s.objects.Keys == v.view.objects.Keys && s.flow.Failed()
    ensures WriteForest(v, s).snapshots.flow == s.flow
  {
  }

  lemma StageRoomAll(d: Disk, v: Vol)
    requires Sound(d, v)
    ensures var s, room := FinalStage(v), NODE_SECTORS * FreshChunks(v, AllKeys(v));
      && v.HighWater() <= v.Total()
      && (s.flow.Failed() <==> v.HighWater() + room > v.Total())
      && (!s.flow.Failed() ==> s.flow.Cursor() == v.HighWater() + room && |s.extents| == AllChunks(v, AllKeys(v)))
  {
    SoundBounds(d, v);
    SoundReady(d, v);
    hide Sound, Ready, WriteObjects, ChunksNeeded;
    var keys, core := AllKeys(v), Core(d, v.HighWater());
    assert keys[..|keys|] == keys;
    StageRoom(v, core, keys, |keys|);
    if !FinalStage(v).flow.Failed() {
      StageCount(v, core, keys, |keys|, NewObjects(v));
      AllChunksAre(v, keys);
    }
  }

  /** Exactly when a commit fits, and exactly what it takes. */
  lemma RoomIff(d: Disk, v: Vol)
    requires Sound(d, v)
    ensures RoomFor(v) <==> !Prepare(v).flow.Failed()
    ensures RoomFor(v) ==> Prepare(v).record.highWater == NewHighWater(v)
  {
    StageRoomAll(d, v);
    ForestRoom(v, FinalStage(v));
    PrepareRoom(v);
  }

  lemma PrepareRoom(v: Vol)
    requires var f := WriteForest(v, FinalStage(v)).snapshots.flow;
      && f.start + |f.out| == f.Cursor() && f.total == v.Total()
      && (f.Failed() <==> BitmapStart(v) > v.Total())
      && (!f.Failed() ==> f.Cursor() == BitmapStart(v))
    ensures RoomFor(v) <==> !Prepare(v).flow.Failed()
    ensures RoomFor(v) ==> Prepare(v).record.highWater == NewHighWater(v)
  {
    hide WriteForest, BitmapStart, BitmapSectors;
  }

  // ---- A bound on the space -----------------------------------------------------------------------

  lemma {:induction false} NodesAboveBound(m: nat)
    ensures NodesAbove(m) <= m
    decreases m
  {
    if m > 1 {
      NodesAboveBound(Groups(m));
      if Groups(m) == 1 {
        assert NodesAbove(1) == 0;
      }
    }
  }

  /** A tree takes no more nodes than it has rows. */
  lemma TreeBound(n: nat)
    ensures TreeSectors(n) <= NODE_SECTORS * n
  {
    NodesAboveBound(Groups(n));
    if n > 4 {
      assert 2 * Groups(n) <= n;
    }
  }

  lemma BitmapBound(cursor: nat)
    ensures (BITMAP_SPAN - 1) * BitmapCount(cursor, 1) <= cursor + BITMAP_SPAN
  {
    var n := BitmapCount(cursor, 1);
    assert BitmapNeeded(cursor, n) == n;
  }

  /** The rows of the five trees, and the chunks written. */
  function Rows(v: Vol): nat {
    FreshChunks(v, AllKeys(v)) + AllChunks(v, AllKeys(v))
    + |v.view.objects| + |v.view.names| + |v.view.attributes| + |v.snapshots|
  }

  /** Where a commit ends at the latest: eight sectors for each chunk and each row, and a bitmap. */
  function MarkBound(mark: nat, rows: nat): nat {
    var s := mark + NODE_SECTORS * rows;
    s + s / (BITMAP_SPAN - 1) + 3
  }

  lemma RoomBound(v: Vol)
    ensures NewHighWater(v) <= MarkBound(v.HighWater(), Rows(v))
  {
    hide TreeSectors, FreshChunks, AllChunks, AllKeys, BitmapCount, BitmapStart;
    BitmapStartIs(v);
    TreeBound(AllChunks(v, AllKeys(v)));
    TreeBound(|v.view.objects|);
    TreeBound(|v.view.names|);
    TreeBound(|v.view.attributes|);
    TreeBound(|v.snapshots|);
    BitmapBound(BitmapStart(v));
  }
}
