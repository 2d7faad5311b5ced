/** What a mount accepts, field by field: feature flags, checkpoints, ring slots and rows. */
module Decoding {
  import opened Arithmetic
  import opened ArcTypes
  import opened Keys
  import opened Reader

  // ---- The ring -------------------------------------------------------------------------------------

  /** Bit 16 is required, bit 17 allowed; bits 18 to 31 are incompatible and bits 32 to 47
      incompatible for a writer. The bits outside these do not matter. */
  lemma FlagsIff(raw: nat)
    ensures RecognizedFlags(raw) <==> Bit(raw, 16) && forall k: nat | 18 <= k < 48 :: !Bit(raw, k)
  {
    PowersUsed();
    hide Power;
    var m := raw / 0x4_0000;
    LowBits(m, 30);
    forall k: nat | k < 30
      ensures Bit(raw, 18 + k) == Bit(m, k)
    {
      BitAbove(raw, 18, k, m);
    }
    forall k: nat | 18 <= k < 48
      ensures Bit(raw, k) == Bit(m, k - 18)
    {
      BitAbove(raw, 18, k - 18, m);
    }
    assert Bit(raw, 16) <==> raw / 0x1_0000 % 2 == 1;
    hide Bit;
    UpperFlags(raw);
  }

  lemma PowersUsed()
    ensures Power(16) == 0x1_0000 && Power(18) == 0x4_0000 && Power(30) == 0x4000_0000
  {
    assert Power(8) == 0x100;
    assert Power(12) == 0x1000;
  }

  lemma UpperFlags(raw: nat)
    ensures (raw / 0x1_0000 % 0x1_0000 < 4 && raw / 0x1_0000_0000 % 0x1_0000 == 0)
      <==> raw / 0x4_0000 % 0x4000_0000 == 0
    ensures raw / 0x1_0000 % 0x1_0000 % 2 == raw / 0x1_0000 % 2
  {
    var a := raw / 0x1_0000;
    var b, c := a / 0x1_0000, a % 0x1_0000;
    var u, l := b / 0x1_0000, b % 0x1_0000;
    assert raw / 0x4_0000 == a / 4;
    assert raw / 0x1_0000_0000 == b;
    DivisionUnique(a / 4, 0x4000_0000, u, l * 0x4000 + c / 4);
  }

  /** Sector `s` holds a checkpoint record that a reader accepts. */
  predicate HoldsCheckpoint(d: Disk, s: nat, record: CheckpointRecord) {
    && s < |d| && d[s] == Check(record)
    && record.objectCount <= 2048 && record.nameCount <= 4096
    && record.attributeCount <= 4096 && record.snapshotCount <= 4096
  }

  lemma CheckpointIff(d: Disk, s: nat, record: CheckpointRecord)
    ensures ReadCheckpoint(d, s) == Ok(record) <==> HoldsCheckpoint(d, s, record)
    ensures ReadCheckpoint(d, s) == Err(ShortRead) <==> s >= |d|
    ensures ReadCheckpoint(d, s) == Err(BadChecksum) <==> s < |d| && !d[s].Check?
  {
  }

  /** Ring slot `i` leads to generation `g`. */
  predicate Offers(d: Disk, i: nat, g: nat) {
    && i < 4 && i < |d| && d[i].Super? && RecognizedFlags(d[i].super.flags)
    && d[i].super.checkpointSector < |d| && d[d[i].super.checkpointSector].Check?
    && HoldsCheckpoint(d, d[i].super.checkpointSector, d[d[i].super.checkpointSector].record)
    && g == d[d[i].super.checkpointSector].record.generation
  }

  lemma OffersIff(d: Disk, i: nat)
    requires i < 4 && i < |d|
    ensures SlotCheckpoint(d, i).None? <==> !exists g: nat :: Offers(d, i, g)
    ensures SlotCheckpoint(d, i).Some? ==> Offers(d, i, SlotCheckpoint(d, i).value.generation)
  {
    hide RecognizedFlags;
    if SlotCheckpoint(d, i).Some? {
      assert Offers(d, i, SlotCheckpoint(d, i).value.generation);
    }
  }

  ghost predicate NoneLater(d: Disk, n: nat, slot: nat, h: nat) {
    forall i: nat, g: nat | i < n && Offers(d, i, g) :: g <= h && (g == h ==> slot <= i)
  }

  /** The slot `r` is the first with the highest generation that the first `n` slots offer; slots with
      generation zero are passed over. */
  ghost predicate Latest(d: Disk, n: nat, r: Option<nat>) {
    && (r.None? ==> forall i: nat, g: nat | i < n && Offers(d, i, g) :: g == 0)
    && (r.Some? ==> r.value < n && exists h: nat :: h > 0 && Offers(d, r.value, h) && NoneLater(d, n, r.value, h))
  }

  lemma {:induction false} BestIsLatest(d: Disk, n: nat)
    requires n <= 4 && n <= |d|
    ensures Latest(d, n, Best(d, n))
  {
    hide RecognizedFlags, HoldsCheckpoint;
    if n != 0 {
      BestIsLatest(d, n - 1);
      OffersIff(d, n - 1);
    }
  }

  /** Which superblock a mount selects. */
  lemma SelectIsLatest(d: Disk)
    ensures |d| < 4 ==> Select(d) == Err(ShortRead)
    ensures |d| >= 4 ==> match Select(d)
      case Ok(super) => Latest(d, 4, Some(super.slot)) && d[super.slot] == Super(super.record)
      case Err(e) => e == NoSuperblock && Latest(d, 4, None)
  {
    hide SlotCheckpoint;
    if |d| >= 4 {
      BestIsLatest(d, 4);
    }
  }

  // ---- Trees ----------------------------------------------------------------------------------------

  /** All eight sectors of `node` lie from `s` on. */
  predicate NodeLies(d: Disk, s: nat, node: Node) {
    s + 8 <= |d| && forall i: nat | i < 8 :: d[s + i] == NodePart(node, i)
  }

  lemma ReadNodeIff(d: Disk, s: nat, node: Node)
    ensures ReadNode(d, s) == Ok(node) <==> NodeLies(d, s, node)
    ensures ReadNode(d, s) == Err(ShortRead) <==> s + 8 > |d|
  {
    if NodeLies(d, s, node) {
      assert d[s + 0] == NodePart(node, 0);
    }
    if ReadNode(d, s) == Ok(node) {
      forall i: nat | i < 8
        ensures d[s + i] == NodePart(node, i)
      {
      }
    }
  }

  /** The rows in the leaves below the node at `s`, left to right, no chain longer than `depth`. */
  ghost predicate Below(d: Disk, s: nat, rows: seq<Row>, depth: nat)
    decreases depth, 0
  {
    depth > 0 && s + 8 <= |d| && d[s].NodePart? && NodeLies(d, s, d[s].node) &&
    match d[s].node
    case Leaf(l) => |l| <= 4 && rows == l
    case Inner(_, children) => |children| <= 4 && AllBelow(d, children, rows, depth - 1)
  }

  ghost predicate AllBelow(d: Disk, children: seq<nat>, rows: seq<Row>, depth: nat)
    decreases depth, |children| + 1
  {
    if |children| == 0 then rows == []
    else
      children[0] != 0
      && exists k | 0 <= k <= |rows| ::
           Below(d, children[0], rows[..k], depth) && AllBelow(d, children[1..], rows[k..], depth)
  }

  lemma {:induction false} NodeCollects(d: Disk, s: nat, rows: seq<Row>, max: nat, have: nat, depth: nat)
    requires have <= max
    ensures CollectNode(d, s, max, have, depth) == Ok(rows) <==> Below(d, s, rows, depth) && have + |rows| <= max
    decreases depth, 0
  {
    if depth > 0 && s + 8 <= |d| && d[s].NodePart? {
      ReadNodeIff(d, s, d[s].node);
      if NodeLies(d, s, d[s].node) && d[s].node.Inner? {
        ChildrenCollect(d, d[s].node.children, rows, max, have, depth - 1);
      }
    }
  }

  lemma {:induction false} ChildrenCollect(d: Disk, children: seq<nat>, rows: seq<Row>, max: nat, have: nat,
                                           depth: nat)
    requires have <= max
    ensures CollectChildren(d, children, max, have, depth) == Ok(rows)
      <==> AllBelow(d, children, rows, depth) && have + |rows| <= max
    decreases depth, |children| + 1
  {
    if |children| != 0 && children[0] != 0 {
      if CollectChildren(d, children, max, have, depth) == Ok(rows) {
        var first := CollectNode(d, children[0], max, have, depth).value;
        var rest := CollectChildren(d, children[1..], max, have + |first|, depth).value;
        NodeCollects(d, children[0], first, max, have, depth);
        ChildrenCollect(d, children[1..], rest, max, have + |first|, depth);
        assert rows[..|first|] == first && rows[|first|..] == rest;
      }
      if AllBelow(d, children, rows, depth) && have + |rows| <= max {
        var k :| 0 <= k <= |rows| && Below(d, children[0], rows[..k], depth)
                 && AllBelow(d, children[1..], rows[k..], depth);
        NodeCollects(d, children[0], rows[..k], max, have, depth);
        ChildrenCollect(d, children[1..], rows[k..], max, have + k, depth);
        assert rows[..k] + rows[k..] == rows;
      }
    }
  }

  /** A tree is read if and only if its root and its count go together, the leaves below it hold that
      many rows and no more than the limit, and no node on the way is misshapen. */
  lemma CollectIff(d: Disk, root: nat, count: nat, max: nat, rows: seq<Row>)
    ensures Collect(d, root, count, max) == Ok(rows) <==>
      && |rows| == count && (count == 0 <==> root == 0)
      && (count > 0 ==> count <= max && Below(d, root, rows, |d|))
  {
    if count != 0 && root != 0 {
      NodeCollects(d, root, rows, max, 0, |d|);
      if Collect(d, root, count, max).Ok? {
        NodeCollects(d, root, Collect(d, root, count, max).value, max, 0, |d|);
      }
    }
  }

  // ---- Rows -----------------------------------------------------------------------------------------

  /** The last of the objects called `k` among the rows. */
  predicate LastObject(rows: seq<Row>, k: nat, i: nat) {
    && i < |rows| && rows[i].ObjectRow? && rows[i].obj.oid == k
    && forall j | i < j < |rows| && rows[j].ObjectRow? :: rows[j].obj.oid != k
  }

  /** Object rows decode if and only if each is a file or a directory with a nonzero identifier; a later
      row replaces an earlier one of the same identifier. */
  lemma {:induction false} ObjectsIff(rows: seq<Row>)
    ensures ObjectsOf(rows).Ok? <==>
      forall row | row in rows :: row.ObjectRow? && row.obj.oid != 0 && (row.obj.kind == 1 || row.obj.kind == 2)
    ensures ObjectsOf(rows).Err? ==> ObjectsOf(rows).error == BadRow
    ensures ObjectsOf(rows).Ok? ==> var m := ObjectsOf(rows).value;
      && (forall i: nat | i < |rows| :: rows[i].ObjectRow? && rows[i].obj.oid in m)
      && (forall k | k in m :: exists i: nat :: LastObject(rows, k, i) && m[k] == rows[i].obj)
  {
    if |rows| != 0 {
      var t, last := rows[..|rows| - 1], rows[|rows| - 1];
      assert rows == t + [last];
      ObjectsIff(t);
      if ObjectsOf(rows).Ok? {
        var m := ObjectsOf(rows).value;
        forall k | k in m
          ensures exists i: nat :: LastObject(rows, k, i) && m[k] == rows[i].obj
        {
          if k == last.obj.oid {
            assert LastObject(rows, k, |rows| - 1);
          } else {
            var i: nat :| LastObject(t, k, i) && m[k] == t[i].obj;
            assert LastObject(rows, k, i);
          }
        }
      }
    }
  }

  predicate NameFits(row: Row) {
    row.NameRow? && |row.entry.name| <= 32 && 0 !in row.entry.name && 58 !in row.entry.name
  }

  predicate NameReads(row: Row, objects: map<nat, Object>) {
    NameFits(row) && row.entry.parent in objects && row.entry.child in objects
  }

  lemma NameDecides(row: Row, objects: map<nat, Object>)
    ensures NameFits(row) <==> row.NameRow? && Readable(row.entry.name)
    ensures NameReads(row, objects) <==>
      NameFits(row) && row.entry.parent in objects && row.entry.child in objects
  {
  }

  predicate FirstUnread(rows: seq<Row>, objects: map<nat, Object>, i: nat) {
    i < |rows| && !NameReads(rows[i], objects) && forall j: nat | j < i :: NameReads(rows[j], objects)
  }

  /** Name rows decode one by one, or the first that cannot be decoded gives the error. */
  lemma {:induction false} NamesIff(rows: seq<Row>, objects: map<nat, Object>)
    ensures match NamesOf(rows, objects)
      case Ok(l) => |l| == |rows| && forall i: nat | i < |rows| :: NameReads(rows[i], objects) && l[i] == rows[i].entry
      case Err(e) => exists i: nat :: FirstUnread(rows, objects, i)
                       && e == if NameFits(rows[i]) then MissingObject else BadRow
  {
    if |rows| != 0 {
      var n := |rows| - 1;
      NamesIff(rows[..n], objects);
      NameDecides(rows[n], objects);
      hide NameReads, NameFits, Readable;
      match NamesOf(rows[..n], objects)
      case Ok(l) =>
        if !NameReads(rows[n], objects) {
          assert FirstUnread(rows, objects, n);
        }
      case Err(e) =>
        var i: nat :| FirstUnread(rows[..n], objects, i)
                      && e == if NameFits(rows[..n][i]) then MissingObject else BadRow;
        assert FirstUnread(rows, objects, i);
    }
  }

  predicate ExtentReads(row: Row, total: nat) {
    row.ExtentRow? && 0 < row.extent.sector && row.extent.sector + 8 <= total
  }

  /** The last of the extents of a chunk among the rows. */
  predicate LastExtent(rows: seq<Row>, k: (nat, nat), i: nat) {
    && i < |rows| && rows[i].ExtentRow? && rows[i].extent.slot == k.0 && rows[i].extent.chunk == k.1
    && forall j | i < j < |rows| && rows[j].ExtentRow? :: !(rows[j].extent.slot == k.0 && rows[j].extent.chunk == k.1)
  }

  lemma {:induction false} ExtentsIff(rows: seq<Row>, total: nat)
    ensures ExtentsOf(rows, total).Ok? <==> forall i: nat | i < |rows| :: ExtentReads(rows[i], total)
    ensures ExtentsOf(rows, total).Err? ==> ExtentsOf(rows, total).error == BadRow
    ensures ExtentsOf(rows, total).Ok? ==> var m := ExtentsOf(rows, total).value;
      && (forall i: nat | i < |rows| :: rows[i].ExtentRow? && (rows[i].extent.slot, rows[i].extent.chunk) in m)
      && (forall k | k in m :: exists i: nat :: LastExtent(rows, k, i) && m[k] == rows[i].extent.sector)
  {
    if |rows| != 0 {
      var t, last := rows[..|rows| - 1], rows[|rows| - 1];
      assert rows == t + [last];
      ExtentsIff(t, total);
      if ExtentsOf(rows, total).Ok? {
        var m := ExtentsOf(rows, total).value;
        forall k | k in m
          ensures exists i: nat :: LastExtent(rows, k, i) && m[k] == rows[i].extent.sector
        {
          if k == (last.extent.slot, last.extent.chunk) {
            assert LastExtent(rows, k, |rows| - 1);
          } else {
            var i: nat :| LastExtent(t, k, i) && m[k] == t[i].extent.sector;
            assert LastExtent(rows, k, i);
          }
        }
      }
    }
  }

  predicate AttributeReads(row: Row, objects: map<nat, Object>) {
    row.AttributeRow? && row.attr.oid in objects
  }

  predicate FirstDangling(rows: seq<Row>, objects: map<nat, Object>, i: nat) {
    i < |rows| && !AttributeReads(rows[i], objects) && forall j: nat | j < i :: AttributeReads(rows[j], objects)
  }

  lemma {:induction false} AttributesIff(rows: seq<Row>, objects: map<nat, Object>)
    ensures match AttributesOf(rows, objects)
      case Ok(l) =>
        |l| == |rows| && forall i: nat | i < |rows| :: AttributeReads(rows[i], objects) && l[i] == rows[i].attr
      case Err(e) => exists i: nat :: FirstDangling(rows, objects, i)
                       && e == if rows[i].AttributeRow? then MissingObject else BadRow
  {
    if |rows| != 0 {
      var n := |rows| - 1;
      AttributesIff(rows[..n], objects);
      match AttributesOf(rows[..n], objects)
      case Ok(l) =>
        if !AttributeReads(rows[n], objects) {
          assert FirstDangling(rows, objects, n);
        }
      case Err(e) =>
        var i: nat :| FirstDangling(rows[..n], objects, i)
                      && e == if rows[..n][i].AttributeRow? then MissingObject else BadRow;
        assert FirstDangling(rows, objects, i);
    }
  }

  /** `t` is what a label field of 56 bytes gives back: the label up to the field's end or its first NUL. */
  predicate CutLabel(t: seq<byte>, labelText: seq<byte>) {
    && |t| <= 56 && t <= labelText && 0 !in t
    && (|t| < 56 && |t| < |labelText| ==> labelText[|t|] == 0)
  }

  lemma LabelIsCut(labelText: seq<byte>)
    ensures CutLabel(FixedLabel(labelText), labelText)
  {
  }

  predicate SnapshotReads(row: Row) {
    row.SnapshotRow? && row.snap.id != 0 && row.snap.checkpointSector != 0
  }

  /** Snapshot rows decode with all their fields, but for the labels, which are cut. */
  lemma {:induction false} SnapshotsIff(rows: seq<Row>)
    ensures SnapshotsOf(rows).Ok? <==> forall i: nat | i < |rows| :: SnapshotReads(rows[i])
    ensures SnapshotsOf(rows).Err? ==> SnapshotsOf(rows).error == BadRow
    ensures SnapshotsOf(rows).Ok? ==> var l := SnapshotsOf(rows).value;
      |l| == |rows| && forall i: nat | i < |rows| ::
        && rows[i].SnapshotRow? && CutLabel(l[i].labelText, rows[i].snap.labelText)
        && l[i] == rows[i].snap.(labelText := l[i].labelText)
  {
    if |rows| != 0 {
      assert rows == rows[..|rows| - 1] + [rows[|rows| - 1]];
      SnapshotsIff(rows[..|rows| - 1]);
      if rows[|rows| - 1].SnapshotRow? {
        LabelIsCut(rows[|rows| - 1].snap.labelText);
      }
    }
  }

  // ---- Generations ----------------------------------------------------------------------------------

  /** The chunks of the files in an object table. */
  ghost function ChunksOf(objects: map<nat, Object>): set<(nat, nat)> {
    set k, c | k in objects && 0 <= c < FileChunks(objects[k]) :: (k, c)
  }

  function FileChunks(o: Object): nat {
    if o.kind == 1 then (o.size + 4095) / 4096 else 0
  }

  ghost function ChunksAmong(objects: map<nat, Object>, keys: seq<nat>): set<(nat, nat)>
    requires forall k | k in keys :: k in objects
  {
    set k, c | k in keys && 0 <= c < FileChunks(objects[k]) :: (k, c)
  }

  ghost function FirstChunks(k: nat, n: nat): set<(nat, nat)> {
    set c: nat | c < n :: (k, c)
  }

  lemma {:induction false} OneFile(k: nat, n: nat)
    ensures |FirstChunks(k, n)| == n
  {
    if n != 0 {
      OneFile(k, n - 1);
      assert FirstChunks(k, n) == FirstChunks(k, n - 1) + {(k, n - 1)};
    }
  }

  lemma {:induction false} CountChunks(objects: map<nat, Object>, keys: seq<nat>)
    requires (forall k | k in keys :: k in objects) && forall i, j | 0 <= i < j < |keys| :: keys[i] != keys[j]
    ensures ChunksNeeded(objects, keys) == |ChunksAmong(objects, keys)|
  {
    if |keys| != 0 {
      var t, last := keys[..|keys| - 1], keys[|keys| - 1];
      CountChunks(objects, t);
      var one := FirstChunks(last, FileChunks(objects[last]));
      OneFile(last, FileChunks(objects[last]));
      OneMoreFile(objects, t, last);
      assert keys == t + [last];
      hide ChunksAmong, FirstChunks;
    }
  }

  lemma OneMoreFile(objects: map<nat, Object>, t: seq<nat>, last: nat)
    requires (forall k | k in t :: k in objects) && last in objects && last !in t
    ensures var one := FirstChunks(last, FileChunks(objects[last]));
      ChunksAmong(objects, t + [last]) == ChunksAmong(objects, t) + one && ChunksAmong(objects, t) !! one
  {
    hide FileChunks;
  }

  lemma LimitCounts(objects: map<nat, Object>)
    ensures MaxExtents(objects) == |ChunksOf(objects)|
  {
    SortedKeysAre(objects.Keys);
    CountChunks(objects, SortedKeys(objects.Keys));
    assert ChunksAmong(objects, SortedKeys(objects.Keys)) == ChunksOf(objects);
  }

  /** The four row lists decode to the parts of the view, and the table and the counts are as required. */
  ghost predicate Decodes(record: CheckpointRecord, total: nat, view: View, o: seq<Row>, n: seq<Row>, x: seq<Row>,
                          a: seq<Row>)
  {
    && ObjectsOf(o) == Ok(view.objects) && 1 in view.objects && view.objects[1].kind == 2
    && NamesOf(n, view.objects) == Ok(view.names)
    && record.extentCount <= |ChunksOf(view.objects)| && 8 * record.extentCount <= total
    && ExtentsOf(x, total) == Ok(view.extents) && AttributesOf(a, view.objects) == Ok(view.attributes)
  }

  /** The four trees hold these rows. */
  ghost predicate Collects(d: Disk, record: CheckpointRecord, extents: nat, o: seq<Row>, n: seq<Row>, x: seq<Row>,
                           a: seq<Row>)
  {
    && Collect(d, record.objectRoot, record.objectCount, 2048) == Ok(o)
    && Collect(d, record.nameRoot, record.nameCount, 4096) == Ok(n)
    && Collect(d, record.extentRoot, record.extentCount, extents) == Ok(x)
    && Collect(d, record.attributeRoot, record.attributeCount, 4096) == Ok(a)
  }

  lemma LoadsFrom(d: Disk, record: CheckpointRecord, total: nat, view: View, o: seq<Row>, n: seq<Row>, x: seq<Row>,
                  a: seq<Row>)
    requires Decodes(record, total, view, o, n, x, a)
    requires Collects(d, record, |ChunksOf(view.objects)|, o, n, x, a)
    ensures LoadView(d, record, total) == Ok(view)
  {
    hide Collect, ObjectsOf, NamesOf, ExtentsOf, AttributesOf, ChunksOf, MaxExtents;
    LimitCounts(view.objects);
  }

  lemma LoadedFrom(d: Disk, record: CheckpointRecord, total: nat)
    returns (o: seq<Row>, n: seq<Row>, x: seq<Row>, a: seq<Row>)
    requires LoadView(d, record, total).Ok?
    ensures var view := LoadView(d, record, total).value;
      Decodes(record, total, view, o, n, x, a) && Collects(d, record, |ChunksOf(view.objects)|, o, n, x, a)
  {
    hide Collect, ObjectsOf, NamesOf, ExtentsOf, AttributesOf, ChunksOf, MaxExtents;
    o := Collect(d, record.objectRoot, record.objectCount, MAX_OBJECTS).value;
    var objects := ObjectsOf(o).value;
    LimitCounts(objects);
    n := Collect(d, record.nameRoot, record.nameCount, MAX_NAMES).value;
    x := Collect(d, record.extentRoot, record.extentCount, MaxExtents(objects)).value;
    a := Collect(d, record.attributeRoot, record.attributeCount, MAX_ATTRIBUTES).value;
  }

  /** A generation loads as a view if and only if its four trees are read, their rows decode to the parts
      of the view, object 1 is a directory, and there are no more extents than chunks of files, nor more
      than an eighth of the sectors. */
  lemma ViewIff(d: Disk, record: CheckpointRecord, total: nat, view: View)
    ensures LoadView(d, record, total) == Ok(view) <==>
      exists o: seq<Row>, n: seq<Row>, x: seq<Row>, a: seq<Row> ::
        Decodes(record, total, view, o, n, x, a) && Collects(d, record, |ChunksOf(view.objects)|, o, n, x, a)
  {
    hide LoadView, Decodes, Collects, ChunksOf;
    if LoadView(d, record, total) == Ok(view) {
      var o, n, x, a := LoadedFrom(d, record, total);
    }
    forall o: seq<Row>, n: seq<Row>, x: seq<Row>, a: seq<Row> |
      Decodes(record, total, view, o, n, x, a) && Collects(d, record, |ChunksOf(view.objects)|, o, n, x, a)
      ensures LoadView(d, record, total) == Ok(view)
    {
      LoadsFrom(d, record, total, view, o, n, x, a);
    }
  }
}
