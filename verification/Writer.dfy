/** What one commit writes. All of it goes to consecutive sectors from the old high-water mark up
    (file chunks, then the five trees, then the bitmap, then the checkpoint), and only then to the
    ring. A `Flow` is that growing run of sectors. */
module Writer {
  import opened ArcTypes
  import opened Keys
  import opened Reader

  datatype Flow = Flow(start: nat, total: nat, out: seq<Sector>, error: Option<Error>) {
    function Cursor(): nat {
      start + |out|
    }

    predicate Failed() {
      error.Some?
    }

    /** The only failure so far, if any, is lack of space. */
    predicate SpaceOnly() {
      error == None || error == Some(VolumeFull)
    }

    /** Everything written so far lies within the volume. */
    predicate Fits() {
      Cursor() <= total
    }
  }

  /** Allocate and write one run of sectors, or fail because it does not fit. */
  function Append(f: Flow, run: seq<Sector>): (g: Flow)
    ensures f.out <= g.out && g.start == f.start && g.total == f.total
    ensures f.Failed() ==> g == f
    ensures f.Fits() ==> g.Fits()
    ensures f.SpaceOnly() ==> g.SpaceOnly()
  {
    if f.Failed() then f
    else if f.Cursor() + |run| > f.total then f.(error := Some(VolumeFull))
    else f.(out := f.out + run)
  }

  // ---- File contents --------------------------------------------------------------------------

  /** Chunk number `chunk` of `data`, padded with zeros. */
  function Block(data: seq<byte>, chunk: nat): (block: seq<byte>)
    ensures |block| == CHUNK_SIZE
  {
    seq(CHUNK_SIZE, k requires 0 <= k < CHUNK_SIZE =>
      if CHUNK_SIZE * chunk + k < |data| then data[CHUNK_SIZE * chunk + k] else 0)
  }

  /** The eight sectors of a chunk. */
  function BlockRun(block: seq<byte>): (run: seq<Sector>)
    requires |block| == CHUNK_SIZE
    ensures |run| == NODE_SECTORS
  {
    seq(NODE_SECTORS, i requires 0 <= i < NODE_SECTORS => Data(block[SECTOR_SIZE * i..SECTOR_SIZE * i + SECTOR_SIZE]))
  }

  /** The state of the loop over the files of the volume. */
  datatype Stage = Stage(flow: Flow, objects: map<nat, Object>, extents: seq<Extent>)

  /** Write the first `n` chunks of a dirty file. */
  function WriteChunks(s: Stage, oid: nat, data: seq<byte>, n: nat): (r: Stage)
    ensures s.flow.out <= r.flow.out && r.flow.start == s.flow.start && r.flow.total == s.flow.total
    ensures s.flow.Fits() ==> r.flow.Fits()
    ensures r.objects == s.objects
    ensures s.flow.SpaceOnly() ==> r.flow.SpaceOnly()
  {
    if n == 0 then s else
    var p := WriteChunks(s, oid, data, n - 1);
    if p.flow.Failed() then p else
    var g := Append(p.flow, BlockRun(Block(data, n - 1)));
    if g.Failed() then p.(flow := g)
    else p.(flow := g, extents := p.extents + [Extent(oid, n - 1, p.flow.Cursor())])
  }

  /** Keep the first `n` chunks of a clean file where they are. */
  function KeepChunks(s: Stage, oid: nat, oldSlot: nat, extents: map<(nat, nat), nat>, n: nat): (r: Stage)
    ensures s.flow.out == r.flow.out && r.flow.start == s.flow.start && r.flow.total == s.flow.total
    ensures r.objects == s.objects
  {
    if n == 0 then s else
    var p := KeepChunks(s, oid, oldSlot, extents, n - 1);
    if p.flow.Failed() then p
    else if (oldSlot, n - 1) !in extents then p.(flow := p.flow.(error := Some(MissingExtent)))
    else p.(extents := p.extents + [Extent(oid, n - 1, extents[(oldSlot, n - 1)])])
  }

  function WriteObject(s: Stage, v: Vol, oid: nat): (r: Stage)
    requires oid in s.objects
    ensures s.flow.out <= r.flow.out && r.flow.start == s.flow.start && r.flow.total == s.flow.total
    ensures s.flow.Fits() ==> r.flow.Fits()
    ensures r.objects.Keys == s.objects.Keys
  {
    var obj := s.objects[oid];
    if s.flow.Failed() || obj.kind != FILE then s
    else if oid !in v.dirty then
      var moved := s.(objects := s.objects[oid := obj.(dataSlot := oid)]);
      KeepChunks(moved, oid, obj.dataSlot, v.view.extents, Chunks(obj.size))
    else
      var data := v.dirty[oid];
      var moved := s.(objects := s.objects[oid := obj.(dataSlot := oid, size := |data|)]);
      WriteChunks(moved, oid, data, Chunks(|data|))
  }

  /** The state after the first `n` objects in key order. */
  function WriteObjects(v: Vol, keys: seq<nat>, n: nat): (r: Stage)
    requires n <= |keys| && forall k | k in keys :: k in v.view.objects
    ensures r.flow.start == v.HighWater() && r.flow.total == v.Total()
    ensures v.HighWater() <= v.Total() ==> r.flow.Fits()
    ensures r.objects.Keys == v.view.objects.Keys
  {
    if n == 0 then Stage(Flow(v.HighWater(), v.Total(), [], None), v.view.objects, [])
    else WriteObject(WriteObjects(v, keys, n - 1), v, keys[n - 1])
  }

  // ---- Trees ----------------------------------------------------------------------------------

  /** A node already written: its separator key and its sector. */
  datatype Placed = Placed(key: nat, sector: nat)

  datatype Level = Level(flow: Flow, nodes: seq<Placed>)

  /** The leading 64-bit field of a row, used as separator. */
  function RowKey(row: Row): nat {
    match row
    case ObjectRow(o) => o.oid
    case NameRow(e) => e.parent
    case ExtentRow(e) => e.slot
    case AttributeRow(a) => a.oid
    case SnapshotRow(s) => s.id
  }

  /** The number of nodes that hold `n` entries. */
  function Groups(n: nat): nat {
    (n + FANOUT - 1) / FANOUT
  }

  /** Entries `FANOUT * i` up to `FANOUT * (i + 1)`, or to the end. */
  function Group<T>(s: seq<T>, i: nat): (g: seq<T>)
    requires i < Groups(|s|)
    ensures 0 < |g| <= FANOUT && g[0] == s[FANOUT * i]
  {
    s[FANOUT * i..FANOUT * i + Min(FANOUT, |s| - FANOUT * i)]
  }

  function Sectors(nodes: seq<Placed>): (sectors: seq<nat>)
    ensures |sectors| == |nodes| && forall i | 0 <= i < |nodes| :: sectors[i] == nodes[i].sector
  {
    seq(|nodes|, i requires 0 <= i < |nodes| => nodes[i].sector)
  }

  function SeparatorKeys(nodes: seq<Placed>): (keys: seq<nat>)
    ensures |keys| == |nodes|
  {
    seq(|nodes|, i requires 0 <= i < |nodes| => nodes[i].key)
  }

  /** Write one node and remember where it went. */
  function Place(l: Level, node: Node, key: nat): (r: Level)
    ensures l.flow.out <= r.flow.out && r.flow.start == l.flow.start && r.flow.total == l.flow.total
    ensures l.flow.Fits() ==> r.flow.Fits()
    ensures l.flow.SpaceOnly() ==> r.flow.SpaceOnly()
    ensures |r.nodes| <= |l.nodes| + 1
  {
    if l.flow.Failed() then l else
    var g := Append(l.flow, NodeRun(node));
    if g.Failed() then l.(flow := g) else Level(g, l.nodes + [Placed(key, l.flow.Cursor())])
  }

  /** Write the first `n` leaves. */
  function Leaves(f: Flow, rows: seq<Row>, n: nat): (l: Level)
    requires n <= Groups(|rows|)
    ensures f.out <= l.flow.out && l.flow.start == f.start && l.flow.total == f.total
    ensures f.Fits() ==> l.flow.Fits()
    ensures f.SpaceOnly() ==> l.flow.SpaceOnly()
    ensures |l.nodes| <= n
  {
    if n == 0 then Level(f, []) else
    var group := Group(rows, n - 1);
    Place(Leaves(f, rows, n - 1), Leaf(group), RowKey(group[0]))
  }

  /** Write the first `n` nodes of the level above `below`. */
  function Parents(f: Flow, below: seq<Placed>, n: nat): (l: Level)
    requires n <= Groups(|below|)
    ensures f.out <= l.flow.out && l.flow.start == f.start && l.flow.total == f.total
    ensures f.Fits() ==> l.flow.Fits()
    ensures f.SpaceOnly() ==> l.flow.SpaceOnly()
    ensures |l.nodes| <= n
  {
    if n == 0 then Level(f, []) else
    var group := Group(below, n - 1);
    Place(Parents(f, below, n - 1), Inner(SeparatorKeys(group), Sectors(group)), group[0].key)
  }

  /** Build levels until one node is left. */
  function Ascend(l: Level): (r: Level)
    ensures l.flow.out <= r.flow.out && r.flow.start == l.flow.start && r.flow.total == l.flow.total
    ensures l.flow.Fits() ==> r.flow.Fits()
    ensures l.flow.SpaceOnly() ==> r.flow.SpaceOnly()
    decreases |l.nodes|
  {
    if l.flow.Failed() || |l.nodes| <= 1 then l
    else Ascend(Parents(l.flow, l.nodes, Groups(|l.nodes|)))
  }

  datatype Tree = Tree(flow: Flow, root: nat)

  /** Write a tree over `rows`; an empty tree has root 0 and takes no space. */
  function WriteTree(f: Flow, rows: seq<Row>): (t: Tree)
    ensures f.out <= t.flow.out && t.flow.start == f.start && t.flow.total == f.total
    ensures f.Fits() ==> t.flow.Fits()
    ensures f.SpaceOnly() ==> t.flow.SpaceOnly()
  {
    if |rows| == 0 || f.Failed() then Tree(f, 0) else
    var top := Ascend(Leaves(f, rows, Groups(|rows|)));
    Tree(top.flow, if |top.nodes| == 0 then 0 else top.nodes[0].sector)
  }

  // ---- Rows, in the order the source sorts them ------------------------------------------------

  function Padded(name: Name): seq<nat> {
    seq(MAX_NAME, i requires 0 <= i < MAX_NAME => if i < |name| then name[i] as nat else 0)
  }

  function ObjectKey(o: Object): seq<nat> { [o.oid] }
  function NameKey(e: DirEntry): seq<nat> { [e.parent] + Padded(e.name) }
  function ExtentKey(e: Extent): seq<nat> { [e.slot, e.chunk] }
  function AttributeKey(a: Attribute): seq<nat> { [a.oid, a.id] }
  function SnapshotKey(s: Snapshot): seq<nat> { [s.id] }

  function ObjectRows(l: seq<Object>): seq<Row> { seq(|l|, i requires 0 <= i < |l| => ObjectRow(l[i])) }
  function NameRows(l: seq<DirEntry>): seq<Row> { seq(|l|, i requires 0 <= i < |l| => NameRow(l[i])) }
  function ExtentRows(l: seq<Extent>): seq<Row> { seq(|l|, i requires 0 <= i < |l| => ExtentRow(l[i])) }
  function AttributeRows(l: seq<Attribute>): seq<Row> { seq(|l|, i requires 0 <= i < |l| => AttributeRow(l[i])) }
  function SnapshotRows(l: seq<Snapshot>): seq<Row> { seq(|l|, i requires 0 <= i < |l| => SnapshotRow(l[i])) }

  function ObjectsInOrder(objects: map<nat, Object>, keys: seq<nat>): (l: seq<Object>)
    requires forall k | k in keys :: k in objects
    ensures |l| == |keys|
  {
    seq(|keys|, i requires 0 <= i < |keys| => objects[keys[i]])
  }

  // ---- Bitmap ---------------------------------------------------------------------------------

  /** The bitmap sectors needed when the bitmap has `count` sectors and starts at `cursor`. */
  function BitmapNeeded(cursor: nat, count: nat): nat {
    (cursor + count + 1 + (BITMAP_SPAN - 1)) / BITMAP_SPAN
  }

  /** The retry loop of the source, from `count` on. */
  function BitmapCount(cursor: nat, count: nat): (n: nat)
    requires count <= BitmapNeeded(cursor, count)
    ensures count <= n && BitmapNeeded(cursor, n) == n
    decreases cursor + 2 - count
  {
    var needed := BitmapNeeded(cursor, count);
    if needed == count then count else BitmapCount(cursor, needed)
  }

  function BitmapSector(highWater: nat, total: nat, index: nat): Sector {
    Bitmap(seq(BITMAP_SPAN, j requires 0 <= j < BITMAP_SPAN =>
      BITMAP_SPAN * index + j < highWater && BITMAP_SPAN * index + j < total))
  }

  function BitmapSectors(highWater: nat, total: nat, n: nat): (s: seq<Sector>)
    ensures |s| == n
  {
    seq(n, i requires 0 <= i < n => BitmapSector(highWater, total, i))
  }

  // ---- The whole body of a commit --------------------------------------------------------------

  /** The flags every commit writes. */
  const COMMIT_FLAGS: nat := 0x3_0000

  /** Everything a commit computes before it touches the ring. */
  datatype Prepared = Prepared(flow: Flow, objects: map<nat, Object>, record: CheckpointRecord, checkpointSector: nat)

  const NO_RECORD: CheckpointRecord := CheckpointRecord(0, 0, 0, 0, 0, 0, 0, 0, 0, 0, 0, 0, 0, 0)

  /** The five trees of a generation. */
  datatype Forest = Forest(extents: Tree, objects: Tree, names: Tree, attributes: Tree, snapshots: Tree)

  function WriteForest(v: Vol, s: Stage): Forest
    requires s.objects.Keys == v.view.objects.Keys
  {
    var extents := WriteTree(s.flow, ExtentRows(SortBy(s.extents, ExtentKey)));
    var objects := WriteTree(extents.flow,
        ObjectRows(SortBy(ObjectsInOrder(s.objects, SortedKeys(s.objects.Keys)), ObjectKey)));
    var names := WriteTree(objects.flow, NameRows(SortBy(v.view.names, NameKey)));
    var attributes := WriteTree(names.flow, AttributeRows(SortBy(v.view.attributes, AttributeKey)));
    var snapshots := WriteTree(attributes.flow, SnapshotRows(SortBy(v.snapshots, SnapshotKey)));
    Forest(extents, objects, names, attributes, snapshots)
  }

  function Prepare(v: Vol): (p: Prepared)
    ensures p.flow.start == v.HighWater() && p.flow.total == v.Total()
    ensures v.HighWater() <= v.Total() ==> p.flow.Fits()
    ensures p.objects.Keys == v.view.objects.Keys
  {
    var keys := SortedKeys(v.view.objects.Keys);
    var s := WriteObjects(v, keys, |keys|);
    var t := WriteForest(v, s);
    var f := t.snapshots.flow;
    if f.Failed() then Prepared(f, s.objects, NO_RECORD, 0) else
    var count := BitmapCount(f.Cursor(), 1);
    if f.Cursor() + count >= f.total then Prepared(f.(error := Some(VolumeFull)), s.objects, NO_RECORD, 0) else
    var highWater := f.Cursor() + count + 1;
    var record := CheckpointRecord(
      v.checkpoint.record.generation + 1,
      t.objects.root, |s.objects|,
      t.names.root, |v.view.names|,
      v.checkpoint.sector, f.Cursor(), highWater,
      t.attributes.root, |v.view.attributes|,
      t.extents.root, |s.extents|,
      t.snapshots.root, |v.snapshots|);
    Prepared(f.(out := f.out + BitmapSectors(highWater, f.total, count) + [Check(record)]), s.objects, record,
        highWater - 1)
  }

  // ---- Effects on the disk ---------------------------------------------------------------------

  datatype Write = Write(sector: nat, content: Sector)

  /** Put `run` at `start`. */
  function Overwrite(d: Disk, start: nat, run: seq<Sector>): (e: Disk)
    requires start + |run| <= |d|
    ensures |e| == |d|
    ensures forall i | 0 <= i < |d| :: e[i] == if start <= i < start + |run| then run[i - start] else d[i]
  {
    d[..start] + run + d[start + |run|..]
  }

  /** Put the same superblock in all four ring slots. */
  function WriteRing(d: Disk, super: SuperRecord): (e: Disk)
    requires |d| >= RING_SLOTS
    ensures |e| == |d|
    ensures forall i | 0 <= i < |d| :: e[i] == if i < RING_SLOTS then Super(super) else d[i]
  {
    Overwrite(d, 0, seq(RING_SLOTS, _ => Super(super)))
  }

  function RunLog(start: nat, run: seq<Sector>): (log: seq<Write>)
    ensures |log| == |run| && forall i | 0 <= i < |run| :: log[i] == Write(start + i, run[i])
  {
    seq(|run|, i requires 0 <= i < |run| => Write(start + i, run[i]))
  }

  function RingLog(super: SuperRecord): (log: seq<Write>)
    ensures |log| == RING_SLOTS
  {
    seq(RING_SLOTS, i requires 0 <= i < RING_SLOTS => Write(i, Super(super)))
  }

  function CommitSuper(v: Vol, p: Prepared): SuperRecord {
    SuperRecord(v.super.record.volumeId, v.Total(), COMMIT_FLAGS, p.checkpointSector)
  }

  /** The sector writes one commit issues, in order. */
  function CommitLog(v: Vol): seq<Write> {
    if v.Clean() then [] else
    var p := Prepare(v);
    RunLog(v.HighWater(), p.flow.out) + if p.flow.Failed() then [] else RingLog(CommitSuper(v, p))
  }
}
