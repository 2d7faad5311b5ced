/** The block source, and the loops that select a superblock, collect trees and decode rows. Every
    method is proved against the function of the same purpose in `Reader`. */
module Loading {
  import opened ArcTypes
  import opened Keys
  import Reader
  import opened Writer
  import Operations

  /** A store of sectors. The ghost log records every sector write ever issued, in order. */
  class BlockSource {
    var sectors: seq<Sector>
    ghost var log: seq<Write>

    constructor (initial: seq<Sector>)
      ensures sectors == initial && log == []
    {
      sectors := initial;
      log := [];
    }

    method WriteAt(sector: nat, run: seq<Sector>)
      requires sector + |run| <= |sectors|
      modifies this
      ensures sectors == Overwrite(old(sectors), sector, run)
      ensures log == old(log) + RunLog(sector, run)
    {
      sectors := sectors[..sector] + run + sectors[sector + |run|..];
      log := log + RunLog(sector, run);
    }
  }

  // ---- Labels -------------------------------------------------------------------------------------

  /** `read_fixed_label`: the field up to its first NUL. */
  method ReadFixedLabel(labelText: seq<byte>) returns (r: seq<byte>)
    ensures r == Reader.FixedLabel(labelText)
  {
    var field := labelText[..Min(MAX_LABEL, |labelText|)];
    var length := 0;
    while length < |field| && field[length] != 0
      invariant length <= |field| && forall i | 0 <= i < length :: field[i] != 0
    {
      length := length + 1;
    }
    r := field[..length];
  }

  // ---- Decoding loops -----------------------------------------------------------------------------

  lemma {:induction false} ObjectsStop(rows: seq<Row>, i: nat)
    requires i <= |rows| && Reader.ObjectsOf(rows[..i]).Err?
    ensures Reader.ObjectsOf(rows) == Reader.ObjectsOf(rows[..i])
    decreases |rows|
  {
    if i == |rows| {
      assert rows[..i] == rows;
    } else {
      assert rows[..|rows| - 1][..i] == rows[..i];
      ObjectsStop(rows[..|rows| - 1], i);
    }
  }

  lemma {:induction false} NamesStop(rows: seq<Row>, objects: map<nat, Object>, i: nat)
    requires i <= |rows| && Reader.NamesOf(rows[..i], objects).Err?
    ensures Reader.NamesOf(rows, objects) == Reader.NamesOf(rows[..i], objects)
    decreases |rows|
  {
    if i == |rows| {
      assert rows[..i] == rows;
    } else {
      assert rows[..|rows| - 1][..i] == rows[..i];
      NamesStop(rows[..|rows| - 1], objects, i);
    }
  }

  lemma {:induction false} ExtentsStop(rows: seq<Row>, total: nat, i: nat)
    requires i <= |rows| && Reader.ExtentsOf(rows[..i], total).Err?
    ensures Reader.ExtentsOf(rows, total) == Reader.ExtentsOf(rows[..i], total)
    decreases |rows|
  {
    if i == |rows| {
      assert rows[..i] == rows;
    } else {
      assert rows[..|rows| - 1][..i] == rows[..i];
      ExtentsStop(rows[..|rows| - 1], total, i);
    }
  }

  lemma {:induction false} AttributesStop(rows: seq<Row>, objects: map<nat, Object>, i: nat)
    requires i <= |rows| && Reader.AttributesOf(rows[..i], objects).Err?
    ensures Reader.AttributesOf(rows, objects) == Reader.AttributesOf(rows[..i], objects)
    decreases |rows|
  {
    if i == |rows| {
      assert rows[..i] == rows;
    } else {
      assert rows[..|rows| - 1][..i] == rows[..i];
      AttributesStop(rows[..|rows| - 1], objects, i);
    }
  }

  method DecodeObjects(rows: seq<Row>) returns (r: Result<map<nat, Object>>)
    ensures r == Reader.ObjectsOf(rows)
  {
    var objects: map<nat, Object> := map[];
    for i := 0 to |rows|
      invariant Reader.ObjectsOf(rows[..i]) == Ok(objects)
    {
      var row := rows[i];
      assert rows[..i + 1][..i] == rows[..i];
      if !row.ObjectRow? || row.obj.oid == 0 || !(row.obj.kind == FILE || row.obj.kind == DIRECTORY) {
        ObjectsStop(rows, i + 1);
        return Err(BadRow);
      }
      objects := objects[row.obj.oid := row.obj];
    }
    assert rows[..|rows|] == rows;
    return Ok(objects);
  }

  method DecodeNames(rows: seq<Row>, objects: map<nat, Object>) returns (r: Result<seq<DirEntry>>)
    ensures r == Reader.NamesOf(rows, objects)
  {
    var names: seq<DirEntry> := [];
    for i := 0 to |rows|
      invariant Reader.NamesOf(rows[..i], objects) == Ok(names)
    {
      var row := rows[i];
      assert rows[..i + 1][..i] == rows[..i];
      if !row.NameRow? || !Readable(row.entry.name) {
        NamesStop(rows, objects, i + 1);
        return Err(BadRow);
      }
      if row.entry.parent !in objects || row.entry.child !in objects {
        NamesStop(rows, objects, i + 1);
        return Err(MissingObject);
      }
      names := names + [row.entry];
    }
    assert rows[..|rows|] == rows;
    return Ok(names);
  }

  method DecodeExtents(rows: seq<Row>, total: nat) returns (r: Result<map<(nat, nat), nat>>)
    ensures r == Reader.ExtentsOf(rows, total)
  {
    var extents: map<(nat, nat), nat> := map[];
    for i := 0 to |rows|
      invariant Reader.ExtentsOf(rows[..i], total) == Ok(extents)
    {
      var row := rows[i];
      assert rows[..i + 1][..i] == rows[..i];
      if !row.ExtentRow? || row.extent.sector == 0 || row.extent.sector + NODE_SECTORS > total {
        ExtentsStop(rows, total, i + 1);
        return Err(BadRow);
      }
      extents := extents[(row.extent.slot, row.extent.chunk) := row.extent.sector];
    }
    assert rows[..|rows|] == rows;
    return Ok(extents);
  }

  method DecodeAttributes(rows: seq<Row>, objects: map<nat, Object>) returns (r: Result<seq<Attribute>>)
    ensures r == Reader.AttributesOf(rows, objects)
  {
    var attributes: seq<Attribute> := [];
    for i := 0 to |rows|
      invariant Reader.AttributesOf(rows[..i], objects) == Ok(attributes)
    {
      var row := rows[i];
      assert rows[..i + 1][..i] == rows[..i];
      if !row.AttributeRow? {
        AttributesStop(rows, objects, i + 1);
        return Err(BadRow);
      }
      if row.attr.oid !in objects {
        AttributesStop(rows, objects, i + 1);
        return Err(MissingObject);
      }
      attributes := attributes + [row.attr];
    }
    assert rows[..|rows|] == rows;
    return Ok(attributes);
  }

  lemma NoChunks(objects: map<nat, Object>)
    ensures Reader.ChunksNeeded(objects, []) == 0
  {
  }

  lemma ChunksStep(objects: map<nat, Object>, keys: seq<nat>, i: nat)
    requires i < |keys| && forall k | k in keys :: k in objects
    ensures Reader.ChunksNeeded(objects, keys[..i + 1]) ==
            Reader.ChunksNeeded(objects, keys[..i])
            + if objects[keys[i]].kind == FILE then Chunks(objects[keys[i]].size) else 0
  {
    assert keys[..i + 1][..i] == keys[..i];
  }

  /** The chunks all files need, summed in key order. */
  method CountChunks(objects: map<nat, Object>) returns (n: nat)
    ensures n == Reader.MaxExtents(objects)
  {
    hide Reader.ChunksNeeded, Chunks;
    var keys := SortedKeys(objects.Keys);
    NoChunks(objects);
    n := 0;
    for i := 0 to |keys|
      invariant forall k | k in keys :: k in objects
      invariant n == Reader.ChunksNeeded(objects, keys[..i])
    {
      ChunksStep(objects, keys, i);
      var obj := objects[keys[i]];
      if obj.kind == FILE {
        n := n + Chunks(obj.size);
      }
    }
    assert keys[..|keys|] == keys;
  }

  /** One past the highest identifier, at least two. */
  method NextFree(objects: map<nat, Object>) returns (next: nat)
    ensures next == Operations.NextOid(objects)
  {
    var keys := SortedKeys(objects.Keys);
    next := 2;
    for i := 0 to |keys|
      invariant next == Reader.NextAfter(keys[..i])
    {
      assert keys[..i + 1][..i] == keys[..i];
      if keys[i] >= next {
        next := keys[i] + 1;
      }
    }
    assert keys[..|keys|] == keys;
  }

  // ---- Trees --------------------------------------------------------------------------------------

  /** The rows collected so far, with those of a subtree appended, or its error. */
  function Onto(entries: seq<Row>, r: Result<seq<Row>>): Result<seq<Row>> {
    match r case Ok(rows) => Ok(entries + rows) case Err(e) => Err(e)
  }

  /** The recursive collector: it appends to the entries collected so far. */
  method CollectTreeNode(d: Disk, sector: nat, max: nat, entries: seq<Row>, fuel: nat) returns (r: Result<seq<Row>>)
    ensures r == Onto(entries, Reader.CollectNode(d, sector, max, |entries|, fuel))
    decreases fuel
  {
    if fuel == 0 {
      return Err(TooDeep);
    }
    var read := Reader.ReadNode(d, sector);
    if read.Err? {
      return Err(read.error);
    }
    match read.value {
      case Leaf(rows) =>
        if |rows| > FANOUT {
          return Err(BadNode);
        }
        if |entries| + |rows| > max {
          return Err(TooMany);
        }
        return Ok(entries + rows);
      case Inner(_, children) =>
        if |children| > FANOUT {
          return Err(BadNode);
        }
        var all := entries;
        for i := 0 to |children|
          invariant |entries| <= |all| && all[..|entries|] == entries
          invariant Onto(entries, Reader.CollectChildren(d, children, max, |entries|, fuel - 1))
            == Onto(all, Reader.CollectChildren(d, children[i..], max, |all|, fuel - 1))
        {
          if children[i] == 0 {
            return Err(BadNode);
          }
          var next := CollectTreeNode(d, children[i], max, all, fuel - 1);
          assert children[i..][1..] == children[i + 1..];
          if next.Err? {
            return Err(next.error);
          }
          var first := Reader.CollectNode(d, children[i], max, |all|, fuel - 1).value;
          var rest := Reader.CollectChildren(d, children[i + 1..], max, |all| + |first|, fuel - 1);
          if rest.Ok? {
            assert all + (first + rest.value) == (all + first) + rest.value;
          }
          all := next.value;
        }
        assert all + [] == all;
        return Ok(all);
    }
  }

  method CollectTree(d: Disk, root: nat, count: nat, max: nat) returns (r: Result<seq<Row>>)
    ensures r == Reader.Collect(d, root, count, max)
  {
    if count == 0 {
      if root != 0 {
        return Err(BadTree);
      }
      return Ok([]);
    }
    if root == 0 {
      return Err(BadTree);
    }
    var rows := CollectTreeNode(d, root, max, [], |d|);
    if rows.Err? {
      return rows;
    }
    var collected := Reader.CollectNode(d, root, max, 0, |d|).value;
    assert [] + collected == collected;
    if |rows.value| != count {
      return Err(BadTree);
    }
    return rows;
  }

  method LoadTreeView(d: Disk, record: CheckpointRecord, total: nat) returns (r: Result<View>)
    ensures r == Reader.LoadView(d, record, total)
  {
    var objectRows := CollectTree(d, record.objectRoot, record.objectCount, MAX_OBJECTS);
    if objectRows.Err? {
      return Err(objectRows.error);
    }
    var objects := DecodeObjects(objectRows.value);
    if objects.Err? {
      return Err(objects.error);
    }
    if ROOT_OID !in objects.value || objects.value[ROOT_OID].kind != DIRECTORY {
      return Err(NoRootDirectory);
    }
    var nameRows := CollectTree(d, record.nameRoot, record.nameCount, MAX_NAMES);
    if nameRows.Err? {
      return Err(nameRows.error);
    }
    var names := DecodeNames(nameRows.value, objects.value);
    if names.Err? {
      return Err(names.error);
    }
    var maxExtents := CountChunks(objects.value);
    if record.extentCount > maxExtents || record.extentCount > total / NODE_SECTORS {
      return Err(TooMany);
    }
    var extentRows := CollectTree(d, record.extentRoot, record.extentCount, maxExtents);
    if extentRows.Err? {
      return Err(extentRows.error);
    }
    var extents := DecodeExtents(extentRows.value, total);
    if extents.Err? {
      return Err(extents.error);
    }
    var attributeRows := CollectTree(d, record.attributeRoot, record.attributeCount, MAX_ATTRIBUTES);
    if attributeRows.Err? {
      return Err(attributeRows.error);
    }
    var attributes := DecodeAttributes(attributeRows.value, objects.value);
    if attributes.Err? {
      return Err(attributes.error);
    }
    return Ok(View(objects.value, names.value, extents.value, attributes.value));
  }

  /** The view a snapshot's checkpoint leads to. */
  method ViewOfSnapshot(d: Disk, s: Snapshot, total: nat) returns (r: Result<View>)
    ensures r == Operations.SnapshotView(d, s, total)
  {
    var record := Reader.ReadCheckpoint(d, s.checkpointSector);
    if record.Err? {
      return Err(record.error);
    }
    r := LoadTreeView(d, record.value, total);
  }

  /** Scan the ring for the highest generation. */
  method SelectSuperblock(d: Disk) returns (r: Result<Superblock>)
    ensures r == Reader.Select(d)
  {
    if |d| < RING_SLOTS {
      return Err(ShortRead);
    }
    var best: Option<nat> := None;
    var bestGeneration := 0;
    for slot := 0 to RING_SLOTS
      invariant best == Reader.Best(d, slot)
      invariant bestGeneration == if best.Some? then Reader.SlotCheckpoint(d, best.value).value.generation else 0
    {
      var candidate := Reader.SlotCheckpoint(d, slot);
      if candidate.Some? && candidate.value.generation > bestGeneration {
        best, bestGeneration := Some(slot), candidate.value.generation;
      }
    }
    if best.None? {
      return Err(NoSuperblock);
    }
    return Ok(Superblock(best.value, d[best.value].super));
  }
}
