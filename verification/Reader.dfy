/** Reading a disk: tree nodes, trees, checkpoints, whole generations, and mounting.
    Everything here is a function of the disk, so that what a change to the disk can and cannot
    affect is a lemma: `LoadKnows` and its parts. */
module Reader {
  import opened ArcTypes
  import opened Keys

  /** The eight sectors of a tree node. */
  function NodeRun(node: Node): (run: seq<Sector>)
    ensures |run| == NODE_SECTORS
  {
    seq(NODE_SECTORS, i requires 0 <= i < NODE_SECTORS => NodePart(node, i))
  }

  /** All eight sectors of a node are in place. */
  predicate NodeAt(d: Disk, s: nat, node: Node)
    requires s + NODE_SECTORS <= |d|
  {
    forall i {:trigger NodePart(node, i)} | 0 <= i < NODE_SECTORS :: d[s + i] == NodePart(node, i)
  }

  /** A node is readable exactly where all eight of its sectors are in place. */
  function ReadNode(d: Disk, s: nat): Result<Node> {
    if s + NODE_SECTORS > |d| then Err(ShortRead)
    else if d[s].NodePart? && NodeAt(d, s, d[s].node) then Ok(d[s].node)
    else Err(BadChecksum)
  }

  /** The rows below the node at sector `s`, when `have` rows were collected before it. A chain of
      more than |d| nodes visits some sector twice, so the unbounded recursion would not return. */
  function CollectNode(d: Disk, s: nat, max: nat, have: nat, fuel: nat): Result<seq<Row>>
    decreases fuel, 0
  {
    if fuel == 0 then Err(TooDeep) else
    var node :- ReadNode(d, s);
    match node
    case Leaf(rows) =>
      if |rows| > FANOUT then Err(BadNode)
      else if have + |rows| > max then Err(TooMany)
      else Ok(rows)
    case Inner(_, children) =>
      if |children| > FANOUT then Err(BadNode)
      else CollectChildren(d, children, max, have, fuel - 1)
  }

  function CollectChildren(d: Disk, children: seq<nat>, max: nat, have: nat, fuel: nat): Result<seq<Row>>
    decreases fuel, |children| + 1
  {
    if |children| == 0 then Ok([])
    else if children[0] == 0 then Err(BadNode)
    else
      var first :- CollectNode(d, children[0], max, have, fuel);
      var rest :- CollectChildren(d, children[1..], max, have + |first|, fuel);
      Ok(first + rest)
  }

  function Collect(d: Disk, root: nat, count: nat, max: nat): Result<seq<Row>> {
    if count == 0 then
      if root == 0 then Ok([]) else Err(BadTree)
    else if root == 0 then Err(BadTree)
    else
      var rows :- CollectNode(d, root, max, 0, |d|);
      if |rows| == count then Ok(rows) else Err(BadTree)
  }

  // ---- What the depth limit means ---------------------------------------------------------------

  /** A path down the tree: readable nodes, each a child of the one before. */
  predicate Chain(d: Disk, c: seq<nat>) {
    && (forall i: nat | i < |c| :: ReadNode(d, c[i]).Ok?)
    && (forall i: nat | i < |c| - 1 :: ReadNode(d, c[i]).value.Inner? && c[i + 1] in ReadNode(d, c[i]).value.children)
  }

  lemma {:induction false} TooDeepChain(d: Disk, s: nat, max: nat, have: nat, fuel: nat) returns (c: seq<nat>)
    requires CollectNode(d, s, max, have, fuel) == Err(TooDeep)
    ensures |c| == fuel && Chain(d, c) && (fuel > 0 ==> c[0] == s)
    decreases fuel, 0
  {
    if fuel == 0 {
      c := [];
    } else {
      var children := ReadNode(d, s).value.children;
      var x, rest := ChildTooDeep(d, children, max, have, fuel - 1);
      hide ReadNode;
      c := [s] + rest;
    }
  }

  lemma {:induction false} ChildTooDeep(d: Disk, children: seq<nat>, max: nat, have: nat, fuel: nat)
    returns (x: nat, c: seq<nat>)
    requires CollectChildren(d, children, max, have, fuel) == Err(TooDeep)
    ensures x in children && |c| == fuel && Chain(d, c) && (fuel > 0 ==> c[0] == x)
    decreases fuel, |children| + 1
  {
    var first := CollectNode(d, children[0], max, have, fuel);
    if first.Err? {
      x := children[0];
      c := TooDeepChain(d, x, max, have, fuel);
    } else {
      x, c := ChildTooDeep(d, children[1..], max, have + |first.value|, fuel);
    }
  }

  lemma RangeCount(values: set<nat>, n: nat)
    requires forall x | x in values :: x < n
    ensures |values| <= n
  {
    if n == 0 {
      assert values == {};
    } else {
      RangeCount(values - {n - 1}, n - 1);
    }
  }

  /** The limit is met only where the source's recursion would not return: some node is below itself. */
  lemma TooDeepIsCycle(d: Disk, s: nat, max: nat, have: nat) returns (c: seq<nat>, i: nat, j: nat)
    requires |d| > 0 && CollectNode(d, s, max, have, |d|) == Err(TooDeep)
    ensures Chain(d, c) && |c| > 0 && c[0] == s && i < j < |c| && c[i] == c[j]
  {
    c := TooDeepChain(d, s, max, have, |d|);
    forall k: nat | k < |c|
      ensures c[k] + NODE_SECTORS <= |d|
    {
      assert ReadNode(d, c[k]).Ok?;
    }
    hide Chain, ReadNode, CollectNode;
    if forall a, b | 0 <= a < b < |c| :: c[a] != c[b] {
      DistinctCount(c);
      RangeCount(Values(c), |d| - 1);
      assert false;
    }
    i, j :| i < j < |c| && c[i] == c[j];
  }

  // ---- Decoding rows --------------------------------------------------------------------------

  function ObjectsOf(rows: seq<Row>): Result<map<nat, Object>> {
    if |rows| == 0 then Ok(map[]) else
    var m :- ObjectsOf(rows[..|rows| - 1]);
    var row := rows[|rows| - 1];
    if !row.ObjectRow? then Err(BadRow)
    else if row.obj.oid == 0 || !(row.obj.kind == FILE || row.obj.kind == DIRECTORY) then Err(BadRow)
    else Ok(m[row.obj.oid := row.obj])
  }

  function NamesOf(rows: seq<Row>, objects: map<nat, Object>): Result<seq<DirEntry>> {
    if |rows| == 0 then Ok([]) else
    var l :- NamesOf(rows[..|rows| - 1], objects);
    var row := rows[|rows| - 1];
    if !row.NameRow? || !Readable(row.entry.name) then Err(BadRow)
    else if row.entry.parent !in objects || row.entry.child !in objects then Err(MissingObject)
    else Ok(l + [row.entry])
  }

  function ExtentsOf(rows: seq<Row>, total: nat): Result<map<(nat, nat), nat>> {
    if |rows| == 0 then Ok(map[]) else
    var m :- ExtentsOf(rows[..|rows| - 1], total);
    var row := rows[|rows| - 1];
    if !row.ExtentRow? then Err(BadRow)
    else if row.extent.sector == 0 || row.extent.sector + NODE_SECTORS > total then Err(BadRow)
    else Ok(m[(row.extent.slot, row.extent.chunk) := row.extent.sector])
  }

  function AttributesOf(rows: seq<Row>, objects: map<nat, Object>): Result<seq<Attribute>> {
    if |rows| == 0 then Ok([]) else
    var l :- AttributesOf(rows[..|rows| - 1], objects);
    var row := rows[|rows| - 1];
    if !row.AttributeRow? then Err(BadRow)
    else if row.attr.oid !in objects then Err(MissingObject)
    else Ok(l + [row.attr])
  }

  /** The length of a label field: its bytes before the first NUL. */
  function LabelLength(field: seq<byte>): (n: nat)
    ensures n <= |field| && (forall i | 0 <= i < n :: field[i] != 0) && (n < |field| ==> field[n] == 0)
  {
    if |field| == 0 || field[0] == 0 then 0 else 1 + LabelLength(field[1..])
  }

  /** What `read_fixed_label` returns for a label that `write_fixed_label` stored: the field holds its
      first 56 bytes, and reading stops at the first NUL. */
  function FixedLabel(labelText: seq<byte>): (r: seq<byte>)
    ensures |r| <= MAX_LABEL && 0 !in r
  {
    var field := labelText[..Min(MAX_LABEL, |labelText|)];
    field[..LabelLength(field)]
  }

  /** A snapshot record as it is read back. */
  function AsRead(s: Snapshot): Snapshot {
    s.(labelText := FixedLabel(s.labelText))
  }

  function ReadBack(l: seq<Snapshot>): (r: seq<Snapshot>)
    ensures |r| == |l| && forall i | 0 <= i < |l| :: r[i] == AsRead(l[i])
  {
    seq(|l|, i requires 0 <= i < |l| => AsRead(l[i]))
  }

  /** A record survives exactly when its label fits the field and has no NUL. */
  lemma AsReadIff(s: Snapshot)
    ensures AsRead(s) == s <==> |s.labelText| <= MAX_LABEL && 0 !in s.labelText
    ensures AsRead(AsRead(s)) == AsRead(s)
  {
    LabelKeptIff(s.labelText);
    LabelKeptIff(FixedLabel(s.labelText));
  }

  lemma LabelKeptIff(t: seq<byte>)
    ensures FixedLabel(t) == t <==> |t| <= MAX_LABEL && 0 !in t
  {
    if |t| <= MAX_LABEL {
      assert t[..|t|] == t;
    }
  }

  lemma ReadBackIff(l: seq<Snapshot>)
    ensures ReadBack(l) == l <==> forall s | s in l :: |s.labelText| <= MAX_LABEL && 0 !in s.labelText
    ensures ReadBack(ReadBack(l)) == ReadBack(l)
  {
    hide FixedLabel;
    forall s | s in l || s in ReadBack(l)
      ensures AsRead(s) == s <==> |s.labelText| <= MAX_LABEL && 0 !in s.labelText
      ensures AsRead(AsRead(s)) == AsRead(s)
    {
      AsReadIff(s);
    }
    hide AsRead;
    if ReadBack(l) == l {
      forall s | s in l
        ensures AsRead(s) == s
      {
        var i :| 0 <= i < |l| && l[i] == s;
        assert ReadBack(l)[i] == s;
      }
    }
    forall i | 0 <= i < |l|
      ensures AsRead(AsRead(l[i])) == AsRead(l[i])
    {
      assert l[i] in l;
    }
  }

  function SnapshotsOf(rows: seq<Row>): Result<seq<Snapshot>> {
    if |rows| == 0 then Ok([]) else
    var l :- SnapshotsOf(rows[..|rows| - 1]);
    var row := rows[|rows| - 1];
    if !row.SnapshotRow? then Err(BadRow)
    else if row.snap.id == 0 || row.snap.checkpointSector == 0 then Err(BadRow)
    else Ok(l + [AsRead(row.snap)])
  }

  /** What was loaded is as read: loading cuts no label twice. */
  lemma {:induction false} SnapshotsAsRead(rows: seq<Row>)
    requires SnapshotsOf(rows).Ok?
    ensures ReadBack(SnapshotsOf(rows).value) == SnapshotsOf(rows).value
  {
    hide AsRead;
    if |rows| != 0 {
      SnapshotsAsRead(rows[..|rows| - 1]);
      AsReadIff(rows[|rows| - 1].snap);
    }
  }

  /** A mounted list is as read. */
  lemma MountedAsRead(d: Disk)
    requires Mount(d).Ok?
    ensures ReadBack(Mount(d).value.snapshots) == Mount(d).value.snapshots
    ensures Mount(d).value.nextSnapshot == NextSnapshotAfter(Mount(d).value.snapshots)
  {
    hide Select, LoadView, Collect, SnapshotsOf, ReadBack;
    var record := ReadCheckpoint(d, Select(d).value.record.checkpointSector).value;
    SnapshotsAsRead(Collect(d, record.snapshotRoot, record.snapshotCount, MAX_SNAPSHOTS).value);
  }

  /** The number of chunks the files among `keys` need. */
  function ChunksNeeded(objects: map<nat, Object>, keys: seq<nat>): nat
    requires forall k | k in keys :: k in objects
  {
    if |keys| == 0 then 0
    else
      var last := keys[|keys| - 1];
      ChunksNeeded(objects, keys[..|keys| - 1]) + if objects[last].kind == FILE then Chunks(objects[last].size) else 0
  }

  function MaxExtents(objects: map<nat, Object>): nat {
    ChunksNeeded(objects, SortedKeys(objects.Keys))
  }

  // ---- Checkpoints, generations, mounting -----------------------------------------------------

  function ReadCheckpoint(d: Disk, s: nat): Result<CheckpointRecord> {
    if s >= |d| then Err(ShortRead)
    else if !d[s].Check? then Err(BadChecksum)
    else
      var record := d[s].record;
      if record.objectCount > MAX_OBJECTS || record.nameCount > MAX_NAMES
         || record.attributeCount > MAX_ATTRIBUTES || record.snapshotCount > MAX_SNAPSHOTS then Err(TooMany)
      else Ok(record)
  }

  function LoadView(d: Disk, record: CheckpointRecord, total: nat): Result<View> {
    var objectRows :- Collect(d, record.objectRoot, record.objectCount, MAX_OBJECTS);
    var objects :- ObjectsOf(objectRows);
    if ROOT_OID !in objects || objects[ROOT_OID].kind != DIRECTORY then Err(NoRootDirectory) else
    var nameRows :- Collect(d, record.nameRoot, record.nameCount, MAX_NAMES);
    var names :- NamesOf(nameRows, objects);
    if record.extentCount > MaxExtents(objects) || record.extentCount > total / NODE_SECTORS then Err(TooMany) else
    var extentRows :- Collect(d, record.extentRoot, record.extentCount, MaxExtents(objects));
    var extents :- ExtentsOf(extentRows, total);
    var attributeRows :- Collect(d, record.attributeRoot, record.attributeCount, MAX_ATTRIBUTES);
    var attributes :- AttributesOf(attributeRows, objects);
    Ok(View(objects, names, extents, attributes))
  }

  function LoadSnapshots(d: Disk, record: CheckpointRecord): Result<seq<Snapshot>> {
    var rows :- Collect(d, record.snapshotRoot, record.snapshotCount, MAX_SNAPSHOTS);
    SnapshotsOf(rows)
  }

  /** The feature flags this reader accepts: bit 16 set, no incompatible bit other than 16 and 17,
      no read-only-compatible bit. */
  predicate RecognizedFlags(raw: nat) {
    var incompat := (raw / 0x1_0000) % 0x1_0000;
    var roCompat := (raw / 0x1_0000_0000) % 0x1_0000;
    incompat < 4 && roCompat == 0 && incompat % 2 == 1
  }

  /** The checkpoint a ring slot leads to, if the slot and its checkpoint are both readable. */
  function SlotCheckpoint(d: Disk, slot: nat): Option<CheckpointRecord>
    requires slot < |d|
  {
    if d[slot].Super? && RecognizedFlags(d[slot].super.flags) then
      var r := ReadCheckpoint(d, d[slot].super.checkpointSector);
      if r.Ok? then Some(r.value) else None
    else None
  }

  /** The first of the first `n` slots with the highest nonzero generation. */
  function Best(d: Disk, n: nat): (b: Option<nat>)
    requires n <= |d|
    ensures b.Some? ==> b.value < n && SlotCheckpoint(d, b.value).Some?
  {
    if n == 0 then None else
    var b := Best(d, n - 1);
    var c := SlotCheckpoint(d, n - 1);
    var best := if b.Some? then SlotCheckpoint(d, b.value).value.generation else 0;
    if c.Some? && c.value.generation > best then Some(n - 1) else b
  }

  function Select(d: Disk): Result<Superblock> {
    if |d| < RING_SLOTS then Err(ShortRead) else
    match Best(d, RING_SLOTS)
    case None => Err(NoSuperblock)
    case Some(slot) => Ok(Superblock(slot, d[slot].super))
  }

  function NextAfter(keys: seq<nat>): (next: nat)
    ensures next >= 2
  {
    if |keys| == 0 then 2 else
    var next := NextAfter(keys[..|keys| - 1]);
    var last := keys[|keys| - 1];
    if last >= next then last + 1 else next
  }

  lemma {:induction false} NextAboveAll(keys: seq<nat>)
    ensures forall k | k in keys :: k < NextAfter(keys)
    ensures NextAfter(keys) == 2 || NextAfter(keys) - 1 in keys
  {
    if |keys| != 0 {
      NextAboveAll(keys[..|keys| - 1]);
      assert keys == keys[..|keys| - 1] + [keys[|keys| - 1]];
    }
  }

  function NextSnapshotAfter(snapshots: seq<Snapshot>): (next: nat)
    ensures next >= 1
  {
    if |snapshots| == 0 then 1 else
    var next := NextSnapshotAfter(snapshots[..|snapshots| - 1]);
    var last := snapshots[|snapshots| - 1];
    if last.id >= next then last.id + 1 else next
  }

  lemma {:induction false} NextReadBack(l: seq<Snapshot>)
    ensures NextSnapshotAfter(ReadBack(l)) == NextSnapshotAfter(l)
  {
    if |l| != 0 {
      assert ReadBack(l)[..|l| - 1] == ReadBack(l[..|l| - 1]);
      NextReadBack(l[..|l| - 1]);
    }
  }

  lemma {:induction false} NextIdAboveAll(snapshots: seq<Snapshot>)
    ensures forall s | s in snapshots :: s.id < NextSnapshotAfter(snapshots)
    ensures NextSnapshotAfter(snapshots) == 1 || exists s :: s in snapshots && s.id == NextSnapshotAfter(snapshots) - 1
  {
    if |snapshots| != 0 {
      NextIdAboveAll(snapshots[..|snapshots| - 1]);
      assert snapshots == snapshots[..|snapshots| - 1] + [snapshots[|snapshots| - 1]];
    }
  }

  /** Mounting: select a ring slot, load its generation and its snapshots. */
  function Mount(d: Disk): Result<Vol> {
    var super :- Select(d);
    var record :- ReadCheckpoint(d, super.record.checkpointSector);
    var view :- LoadView(d, record, super.record.total);
    var snapshots :- LoadSnapshots(d, record);
    Ok(Vol(super, Checkpoint(super.record.checkpointSector, record), view, map[], snapshots,
           NextAfter(SortedKeys(view.objects.Keys)), NextSnapshotAfter(snapshots), false))
  }

  /** The parts of a mount, put together. */
  lemma MountIs(d: Disk, super: Superblock, record: CheckpointRecord, view: View, snapshots: seq<Snapshot>)
    requires Select(d) == Ok(super) && ReadCheckpoint(d, super.record.checkpointSector) == Ok(record)
    requires LoadView(d, record, super.record.total) == Ok(view) && LoadSnapshots(d, record) == Ok(snapshots)
    ensures Mount(d) == Ok(Vol(super, Checkpoint(super.record.checkpointSector, record), view, map[], snapshots,
                               NextAfter(SortedKeys(view.objects.Keys)), NextSnapshotAfter(snapshots), false))
  {
  }

  // ---- The fields a mount leaves, also when it fails ------------------------------------------------

  /** A row that decodes to a snapshot. */
  predicate Listable(row: Row)
    ensures Listable(row) ==> row.SnapshotRow?
  {
    row.SnapshotRow? && row.snap.id != 0 && row.snap.checkpointSector != 0
  }

  /** The snapshots decoded before the first row that cannot be. */
  function Listed(rows: seq<Row>): (l: seq<Snapshot>)
    ensures |l| <= |rows|
  {
    if |rows| == 0 then [] else
    var l := Listed(rows[..|rows| - 1]);
    var row := rows[|rows| - 1];
    if |l| == |rows| - 1 && Listable(row) then l + [AsRead(row.snap)] else l
  }

  function ListedSnapshots(d: Disk, record: CheckpointRecord): seq<Snapshot> {
    match Collect(d, record.snapshotRoot, record.snapshotCount, MAX_SNAPSHOTS)
    case Ok(rows) => Listed(rows)
    case Err(_) => []
  }

  lemma {:induction false} ListedAll(rows: seq<Row>)
    ensures SnapshotsOf(rows).Ok? <==> |Listed(rows)| == |rows|
    ensures SnapshotsOf(rows).Ok? ==> SnapshotsOf(rows).value == Listed(rows)
    ensures SnapshotsOf(rows).Err? ==> SnapshotsOf(rows).error == BadRow
  {
    if |rows| != 0 {
      ListedAll(rows[..|rows| - 1]);
    }
  }

  /** Loading the snapshot table: what its tree and its rows decide. */
  lemma TableDecides(d: Disk, record: CheckpointRecord)
    ensures Listed([]) == [] && NextSnapshotAfter([]) == 1
    ensures match Collect(d, record.snapshotRoot, record.snapshotCount, MAX_SNAPSHOTS)
      case Err(e) => LoadSnapshots(d, record) == Err(e) && ListedSnapshots(d, record) == []
      case Ok(rows) =>
        ListedSnapshots(d, record) == Listed(rows)
        && LoadSnapshots(d, record) == if |Listed(rows)| == |rows| then Ok(Listed(rows)) else Err(BadRow)
  {
    hide Collect, SnapshotsOf;
    var c := Collect(d, record.snapshotRoot, record.snapshotCount, MAX_SNAPSHOTS);
    if c.Ok? {
      ListedAll(c.value);
    }
  }

  /** The volume once the new superblock and checkpoint are in and the rest is reset. */
  function Cleared(v: Vol, super: Superblock, record: CheckpointRecord): Vol {
    v.(super := super, checkpoint := Checkpoint(super.record.checkpointSector, record),
       dirty := map[], snapshots := [], metadataDirty := false, nextSnapshot := 1)
  }

  function Viewed(v: Vol, view: View): Vol {
    v.(view := view, nextOid := NextAfter(SortedKeys(view.objects.Keys)))
  }

  function WithList(v: Vol, l: seq<Snapshot>): Vol {
    v.(snapshots := l, nextSnapshot := NextSnapshotAfter(l))
  }

  /** The fields after a mount: everything set before the first error, if there is one. */
  function MountLeaves(d: Disk, v: Vol): Vol {
    match Select(d)
    case Err(_) => v
    case Ok(super) =>
      match ReadCheckpoint(d, super.record.checkpointSector)
      case Err(_) => v.(super := super)
      case Ok(record) =>
        match LoadView(d, record, super.record.total)
        case Err(_) => Cleared(v, super, record)
        case Ok(view) => WithList(Viewed(Cleared(v, super, record), view), ListedSnapshots(d, record))
  }

  /** A mount that succeeds leaves what it returns. */
  lemma MountLeavesMounted(d: Disk, v: Vol)
    ensures Mount(d).Ok? ==> MountLeaves(d, v) == Mount(d).value
  {
    hide Collect, SnapshotsOf, Listed, LoadView, Select;
    if Mount(d).Ok? {
      var record := ReadCheckpoint(d, Select(d).value.record.checkpointSector).value;
      ListedAll(Collect(d, record.snapshotRoot, record.snapshotCount, MAX_SNAPSHOTS).value);
    }
  }

  /** Without a superblock, or with a checkpoint or trees that do not load, some of the old fields stay;
      the pending data is gone as soon as the checkpoint is read. */
  lemma FailedMountKeeps(d: Disk, v: Vol)
    ensures Select(d).Err? ==> MountLeaves(d, v) == v
    ensures Select(d).Ok? ==> var w, super := MountLeaves(d, v), Select(d).value;
      var c, at := ReadCheckpoint(d, super.record.checkpointSector), super.record.checkpointSector;
      && w.super == super && (c.Err? ==> w == v.(super := super))
      && (c.Ok? ==> var r := LoadView(d, c.value, super.record.total);
        && w.checkpoint == Checkpoint(at, c.value) && w.Clean()
        && (r.Err? ==> w.view == v.view && w.nextOid == v.nextOid && w.snapshots == [] && w.nextSnapshot == 1)
        && (r.Ok? ==> w.view == r.value && (forall k | k in w.view.objects :: k < w.nextOid)
                      && (forall s | s in w.snapshots :: s.id < w.nextSnapshot)))
  {
    hide Select, LoadView, Collect, Listed;
    if Select(d).Ok? {
      var w := MountLeaves(d, v);
      SortedKeysAre(w.view.objects.Keys);
      NextAboveAll(SortedKeys(w.view.objects.Keys));
      NextIdAboveAll(w.snapshots);
    }
  }

  lemma NoSuper(d: Disk, v: Vol)
    requires Select(d).Err?
    ensures Mount(d) == Err(Select(d).error) && MountLeaves(d, v) == v
  {
  }

  /** The second read of the selected checkpoint decides next. */
  lemma CheckpointDecides(d: Disk, v: Vol, super: Superblock)
    requires Select(d) == Ok(super)
    ensures ReadCheckpoint(d, super.record.checkpointSector).Err? ==>
              && Mount(d) == Err(ReadCheckpoint(d, super.record.checkpointSector).error)
              && MountLeaves(d, v) == v.(super := super)
  {
  }

  lemma NoView(d: Disk, v: Vol, super: Superblock, record: CheckpointRecord, e: Error)
    requires Select(d) == Ok(super) && ReadCheckpoint(d, super.record.checkpointSector) == Ok(record)
    requires LoadView(d, record, super.record.total) == Err(e)
    ensures Mount(d) == Err(e) && MountLeaves(d, v) == Cleared(v, super, record)
  {
  }

  /** The snapshot list decides last. */
  lemma ListDecides(d: Disk, v: Vol, super: Superblock, record: CheckpointRecord, view: View)
    requires Select(d) == Ok(super) && ReadCheckpoint(d, super.record.checkpointSector) == Ok(record)
    requires LoadView(d, record, super.record.total) == Ok(view)
    ensures Mount(d).Ok? <==> LoadSnapshots(d, record).Ok?
    ensures LoadSnapshots(d, record).Err? ==> Mount(d) == Err(LoadSnapshots(d, record).error)
    ensures MountLeaves(d, v) == WithList(Viewed(Cleared(v, super, record), view), ListedSnapshots(d, record))
  {
    hide Collect, SnapshotsOf, Listed, LoadView, Select;
  }

  // ---- What a reader knows is kept by every disk that keeps the sectors it read -----------------

  /** Every sector that holds anything in `d` holds the same in `e`. */
  ghost predicate Knows(d: Disk, e: Disk) {
    |d| <= |e| && forall i | 0 <= i < |d| && !d[i].Junk? :: e[i] == d[i]
  }

  /** The part of a disk a generation with this high-water mark may occupy: not the ring, and
      nothing at or above the mark. */
  function Core(d: Disk, highWater: nat): (core: Disk)
    requires highWater <= |d|
    ensures |core| == highWater
  {
    seq(highWater, i requires 0 <= i < highWater => if i < RING_SLOTS then Junk else d[i])
  }

  lemma ReadNodeKnows(d: Disk, e: Disk, s: nat)
    requires Knows(d, e) && ReadNode(d, s).Ok?
    ensures ReadNode(e, s) == ReadNode(d, s)
  {
    var run := NodeRun(d[s].node);
    forall i | 0 <= i < NODE_SECTORS
      ensures e[s + i] == run[i]
    {
      assert d[s..s + NODE_SECTORS][i] == run[i];
    }
    assert e[s..s + NODE_SECTORS] == run;
  }

  lemma {:induction false} CollectNodeKnows(d: Disk, e: Disk, s: nat, max: nat, have: nat, f: nat, g: nat)
    requires Knows(d, e) && f <= g && CollectNode(d, s, max, have, f).Ok?
    ensures CollectNode(e, s, max, have, g) == CollectNode(d, s, max, have, f)
    decreases f, 0
  {
    ReadNodeKnows(d, e, s);
    var node := ReadNode(d, s).value;
    if node.Inner? {
      CollectChildrenKnows(d, e, node.children, max, have, f - 1, g - 1);
    }
  }

  lemma {:induction false} CollectChildrenKnows(d: Disk, e: Disk, children: seq<nat>, max: nat, have: nat, f: nat,
                                                g: nat)
    requires Knows(d, e) && f <= g && CollectChildren(d, children, max, have, f).Ok?
    ensures CollectChildren(e, children, max, have, g) == CollectChildren(d, children, max, have, f)
    decreases f, |children| + 1
  {
    if |children| != 0 {
      CollectNodeKnows(d, e, children[0], max, have, f, g);
      var first := CollectNode(d, children[0], max, have, f).value;
      CollectChildrenKnows(d, e, children[1..], max, have + |first|, f, g);
    }
  }

  lemma CollectKnows(d: Disk, e: Disk, root: nat, count: nat, max: nat)
    requires Knows(d, e) && Collect(d, root, count, max).Ok?
    ensures Collect(e, root, count, max) == Collect(d, root, count, max)
  {
    if count != 0 {
      CollectNodeKnows(d, e, root, max, 0, |d|, |e|);
    }
  }

  /** A generation that loads from part of a disk loads the same from the whole of it. */
  lemma LoadKnows(d: Disk, e: Disk, record: CheckpointRecord, total: nat)
    requires Knows(d, e)
    ensures LoadView(d, record, total).Ok? ==> LoadView(e, record, total) == LoadView(d, record, total)
    ensures LoadSnapshots(d, record).Ok? ==> LoadSnapshots(e, record) == LoadSnapshots(d, record)
  {
    if LoadView(d, record, total).Ok? {
      CollectKnows(d, e, record.objectRoot, record.objectCount, MAX_OBJECTS);
      var objects := ObjectsOf(Collect(d, record.objectRoot, record.objectCount, MAX_OBJECTS).value).value;
      CollectKnows(d, e, record.nameRoot, record.nameCount, MAX_NAMES);
      CollectKnows(d, e, record.extentRoot, record.extentCount, MaxExtents(objects));
      CollectKnows(d, e, record.attributeRoot, record.attributeCount, MAX_ATTRIBUTES);
    }
    if LoadSnapshots(d, record).Ok? {
      CollectKnows(d, e, record.snapshotRoot, record.snapshotCount, MAX_SNAPSHOTS);
    }
  }

}
