/** A mounted volume: the in-memory state of one file system, and the operations on it. */
module MountedVolume {
  import opened ArcTypes
  import opened Keys
  import opened Writer
  import Reader
  import Soundness
  import Operations
  import Committing = Commit
  import Formatting = Format
  import opened Loading

  // ---- Reading file data ----------------------------------------------------------------------------

  /** Read `size` bytes at `offset` of a stored file, chunk by chunk; missing chunks read as zeros. */
  method ReadStored(d: Disk, extents: map<(nat, nat), nat>, obj: Object, offset: nat, size: nat)
    returns (r: Result<seq<byte>>)
    requires offset + size <= obj.size
    ensures r.Err? <==> Operations.BeyondEnd(d, extents, obj.dataSlot, offset, offset + size)
    ensures r.Err? ==> r.error == ShortRead
    ensures r.Ok? ==> r.value == Soundness.Stored(d, extents, obj)[offset..offset + size]
  {
    hide Soundness.Stored, Soundness.ByteAt, Soundness.RawByte, Operations.BeyondEnd;
    NothingRead(d, extents, obj.dataSlot, offset);
    var out := new byte[size](_ => 0);
    var logical, written := offset, 0;
    while written < size
      invariant written <= size && logical == offset + written
      invariant !Operations.BeyondEnd(d, extents, obj.dataSlot, offset, logical)
      invariant forall i | offset <= i < logical :: Soundness.ByteAt(d, extents, obj.dataSlot, i) == out[i - offset]
      invariant forall j | written <= j < size :: out[j] == 0
    {
      var chunk, inChunk := logical / CHUNK_SIZE, logical % CHUNK_SIZE;
      var take := Min(CHUNK_SIZE - inChunk, size - written);
      PieceBytes(d, extents, obj.dataSlot, logical, take);
      if (obj.dataSlot, chunk) in extents {
        var sector := extents[(obj.dataSlot, chunk)];
        if sector + (inChunk + take - 1) / SECTOR_SIZE >= |d| {
          PieceBeyond(d, extents, obj.dataSlot, offset, logical, take, offset + size);
          return Err(ShortRead);
        }
        PieceInside(d, extents, obj.dataSlot, offset, logical, take);
        forall j | 0 <= j < take {
          out[written + j] := Soundness.RawByte(d, sector, inChunk + j);
        }
      } else {
        PieceAbsent(d, extents, obj.dataSlot, offset, logical, take);
      }
      logical, written := logical + take, written + take;
    }
    AllRead(d, extents, obj, offset, size, out[..]);
    return Ok(out[..]);
  }

  lemma NothingRead(d: Disk, extents: map<(nat, nat), nat>, slot: nat, offset: nat)
    ensures !Operations.BeyondEnd(d, extents, slot, offset, offset)
  {
  }

  lemma AllRead(d: Disk, extents: map<(nat, nat), nat>, obj: Object, offset: nat, size: nat, out: seq<byte>)
    requires offset + size <= obj.size && |out| == size
    requires forall i | offset <= i < offset + size :: Soundness.ByteAt(d, extents, obj.dataSlot, i) == out[i - offset]
    ensures out == Soundness.Stored(d, extents, obj)[offset..offset + size]
  {
    hide Soundness.ByteAt;
  }

  /** The bytes of one piece, with or without an extent. */
  lemma PieceBytes(d: Disk, extents: map<(nat, nat), nat>, slot: nat, logical: nat, take: nat)
    requires take <= CHUNK_SIZE - logical % CHUNK_SIZE
    ensures forall i | logical <= i < logical + take ::
      Soundness.ByteAt(d, extents, slot, i) ==
        if (slot, logical / CHUNK_SIZE) in extents
        then Soundness.RawByte(d, extents[(slot, logical / CHUNK_SIZE)], logical % CHUNK_SIZE + (i - logical)) else 0
  {
    hide Soundness.RawByte;
    SameChunk(logical, take);
  }

  lemma PieceBeyond(d: Disk, extents: map<(nat, nat), nat>, slot: nat, offset: nat, logical: nat, take: nat, hi: nat)
    requires 0 < take <= CHUNK_SIZE - logical % CHUNK_SIZE && offset <= logical && logical + take <= hi
    requires (slot, logical / CHUNK_SIZE) in extents
    requires extents[(slot, logical / CHUNK_SIZE)] + (logical % CHUNK_SIZE + take - 1) / SECTOR_SIZE >= |d|
    ensures Operations.BeyondEnd(d, extents, slot, offset, hi)
  {
    SameChunk(logical, take);
    var i := logical + take - 1;
    assert i / CHUNK_SIZE == logical / CHUNK_SIZE;
  }

  /** The bytes of one piece lie in one chunk. */
  lemma SameChunk(logical: nat, take: nat)
    requires take <= CHUNK_SIZE - logical % CHUNK_SIZE
    ensures forall i: nat {:trigger i / CHUNK_SIZE} | logical <= i < logical + take ::
      i / CHUNK_SIZE == logical / CHUNK_SIZE && i % CHUNK_SIZE == logical % CHUNK_SIZE + (i - logical)
  {
  }

  lemma PieceInside(d: Disk, extents: map<(nat, nat), nat>, slot: nat, offset: nat, logical: nat, take: nat)
    requires 0 < take <= CHUNK_SIZE - logical % CHUNK_SIZE && (slot, logical / CHUNK_SIZE) in extents
    requires extents[(slot, logical / CHUNK_SIZE)] + (logical % CHUNK_SIZE + take - 1) / SECTOR_SIZE < |d|
    requires !Operations.BeyondEnd(d, extents, slot, offset, logical)
    ensures !Operations.BeyondEnd(d, extents, slot, offset, logical + take)
  {
    SameChunk(logical, take);
  }

  lemma PieceAbsent(d: Disk, extents: map<(nat, nat), nat>, slot: nat, offset: nat, logical: nat, take: nat)
    requires take <= CHUNK_SIZE - logical % CHUNK_SIZE && (slot, logical / CHUNK_SIZE) !in extents
    requires !Operations.BeyondEnd(d, extents, slot, offset, logical)
    ensures !Operations.BeyondEnd(d, extents, slot, offset, logical + take)
  {
    SameChunk(logical, take);
  }

  // ---- The write side of a commit -------------------------------------------------------------------

  function Logged(log: seq<Write>, start: nat, run: seq<Sector>): seq<Write> {
    log + RunLog(start, run)
  }

  lemma LoggedIs(log: seq<Write>, start: nat, run: seq<Sector>)
    ensures Logged(log, start, run) == log + RunLog(start, run)
  {
  }

  /** The source holds what the flow has written over disk `d0`, and has logged it. */
  ghost predicate Tracks(source: BlockSource, d0: Disk, log0: seq<Write>, f: Flow, cursor: nat)
    reads source
  {
    cursor == f.Cursor() && cursor <= |d0| && f.total <= |d0|
    && source.sectors == Overwrite(d0, f.start, f.out)
    && source.log == Logged(log0, f.start, f.out)
  }

  lemma RunAppended(d0: Disk, log0: seq<Write>, start: nat, out: seq<Sector>, run: seq<Sector>)
    requires start + |out| + |run| <= |d0|
    ensures Overwrite(Overwrite(d0, start, out), start + |out|, run) == Overwrite(d0, start, out + run)
    ensures Logged(Logged(log0, start, out), start + |out|, run) == Logged(log0, start, out + run)
  {
    assert RunLog(start, out) + RunLog(start + |out|, run) == RunLog(start, out + run);
  }

  /** Write a run at the cursor. */
  method WriteRun(source: BlockSource, ghost d0: Disk, ghost log0: seq<Write>, ghost f: Flow, cursor: nat,
                  run: seq<Sector>)
    requires Tracks(source, d0, log0, f, cursor) && cursor + |run| <= |d0|
    modifies source
    ensures Tracks(source, d0, log0, f.(out := f.out + run), cursor + |run|)
  {
    hide Overwrite, RunLog, Logged;
    RunAppended(d0, log0, f.start, f.out, run);
    LoggedIs(source.log, cursor, run);
    source.WriteAt(cursor, run);
  }

  /** Allocate a run at the cursor and write it, unless the volume is full. */
  method AllocateAndWrite(source: BlockSource, ghost d0: Disk, ghost log0: seq<Write>, ghost f: Flow, total: nat,
                          cursor: nat, run: seq<Sector>)
    returns (ok: bool, next: nat)
    requires Tracks(source, d0, log0, f, cursor) && !f.Failed() && f.total == total
    modifies source
    ensures ok <==> !Append(f, run).Failed()
    ensures ok ==> next == cursor + |run| && Tracks(source, d0, log0, Append(f, run), next)
    ensures !ok ==> next == cursor && Tracks(source, d0, log0, Append(f, run), cursor)
  {
    if cursor + |run| > total {
      return false, cursor;
    }
    WriteRun(source, d0, log0, f, cursor, run);
    return true, cursor + |run|;
  }

  /** Write the chunks of a dirty file. */
  method WriteDirtyChunks(source: BlockSource, ghost d0: Disk, ghost log0: seq<Write>, ghost s: Stage, total: nat,
                          start: nat,
                          oid: nat, data: seq<byte>, before: seq<Extent>)
    returns (ok: bool, cursor: nat, extents: seq<Extent>)
    requires Tracks(source, d0, log0, s.flow, start) && !s.flow.Failed() && s.flow.total == total && before == s.extents
    modifies source
    ensures var r := WriteChunks(s, oid, data, Chunks(|data|));
      (ok <==> !r.flow.Failed()) && Tracks(source, d0, log0, r.flow, cursor) && extents == r.extents
      && r.flow.SpaceOnly()
  {
    hide Overwrite, Logged, Block, BlockRun;
    cursor, extents := start, before;
    var chunk := 0;
    while chunk * CHUNK_SIZE < |data|
      invariant chunk <= Chunks(|data|)
      invariant var p := WriteChunks(s, oid, data, chunk);
        !p.flow.Failed() && p.flow.total == total && Tracks(source, d0, log0, p.flow, cursor) && extents == p.extents
      decreases Chunks(|data|) - chunk
    {
      ghost var p := WriteChunks(s, oid, data, chunk);
      var fits, next := AllocateAndWrite(source, d0, log0, p.flow, total, cursor, BlockRun(Block(data, chunk)));
      if !fits {
        WriteChunksStop(s, oid, data, chunk + 1, Chunks(|data|));
        return false, cursor, extents;
      }
      extents := extents + [Extent(oid, chunk, cursor)];
      cursor, chunk := next, chunk + 1;
    }
    return true, cursor, extents;
  }

  lemma {:induction false} WriteChunksStop(s: Stage, oid: nat, data: seq<byte>, i: nat, n: nat)
    requires i <= n && WriteChunks(s, oid, data, i).flow.Failed()
    ensures WriteChunks(s, oid, data, n) == WriteChunks(s, oid, data, i)
    decreases n
  {
    hide Block, BlockRun, Append;
    if i < n {
      WriteChunksStop(s, oid, data, i, n - 1);
    }
  }

  lemma {:induction false} KeepChunksStop(s: Stage, oid: nat, slot: nat, extents: map<(nat, nat), nat>, i: nat, n: nat)
    requires i <= n && KeepChunks(s, oid, slot, extents, i).flow.Failed()
    ensures KeepChunks(s, oid, slot, extents, n) == KeepChunks(s, oid, slot, extents, i)
    decreases n
  {
    if i < n {
      KeepChunksStop(s, oid, slot, extents, i, n - 1);
    }
  }

  lemma {:induction false} WriteObjectsStop(v: Vol, keys: seq<nat>, i: nat, n: nat)
    requires i <= n <= |keys| && (forall k | k in keys :: k in v.view.objects) && WriteObjects(v, keys, i).flow.Failed()
    ensures WriteObjects(v, keys, n) == WriteObjects(v, keys, i)
    decreases n
  {
    hide KeepChunks, WriteChunks;
    if i < n {
      WriteObjectsStop(v, keys, i, n - 1);
    }
  }

  /** Keep the chunks of a clean file where they are. */
  method KeepCleanChunks(ghost s: Stage, oid: nat, slot: nat, old_extents: map<(nat, nat), nat>, n: nat,
                         before: seq<Extent>)
    returns (ok: bool, extents: seq<Extent>)
    requires !s.flow.Failed() && before == s.extents
    ensures var r := KeepChunks(s, oid, slot, old_extents, n);
      (ok <==> !r.flow.Failed()) && extents == r.extents && r.flow.out == s.flow.out
      && (!ok ==> r.flow.error == Some(MissingExtent)) && (ok ==> r.flow == s.flow)
  {
    extents := before;
    for chunk := 0 to n
      invariant var p := KeepChunks(s, oid, slot, old_extents, chunk); p.flow == s.flow && extents == p.extents
    {
      if (slot, chunk) !in old_extents {
        KeepChunksStop(s, oid, slot, old_extents, chunk + 1, n);
        return false, extents;
      }
      extents := extents + [Extent(oid, chunk, old_extents[(slot, chunk)])];
    }
    return true, extents;
  }

  /** Write the leaves of a tree. */
  method WriteLeaves(source: BlockSource, ghost d0: Disk, ghost log0: seq<Write>, ghost f: Flow, total: nat,
                     start: nat, rows: seq<Row>)
    returns (ok: bool, cursor: nat, nodes: seq<Placed>)
    requires Tracks(source, d0, log0, f, start) && !f.Failed() && f.total == total
    modifies source
    ensures var l := Leaves(f, rows, Groups(|rows|));
      (ok <==> !l.flow.Failed()) && Tracks(source, d0, log0, l.flow, cursor) && nodes == l.nodes && l.flow.SpaceOnly()
  {
    cursor, nodes := start, [];
    for i := 0 to Groups(|rows|)
      invariant var l := Leaves(f, rows, i);
        !l.flow.Failed() && l.flow.total == total && Tracks(source, d0, log0, l.flow, cursor) && nodes == l.nodes
    {
      var group := Group(rows, i);
      var fits, next := AllocateAndWrite(source, d0, log0, Leaves(f, rows, i).flow, total, cursor,
          Reader.NodeRun(Leaf(group)));
      if !fits {
        LeavesStop(f, rows, i + 1, Groups(|rows|));
        return false, cursor, nodes;
      }
      nodes := nodes + [Placed(RowKey(group[0]), cursor)];
      cursor := next;
    }
    return true, cursor, nodes;
  }

  lemma {:induction false} LeavesStop(f: Flow, rows: seq<Row>, i: nat, n: nat)
    requires i <= n <= Groups(|rows|) && Leaves(f, rows, i).flow.Failed()
    ensures Leaves(f, rows, n) == Leaves(f, rows, i)
    decreases n
  {
    hide Group, RowKey, Append, Reader.NodeRun;
    if i < n {
      LeavesStop(f, rows, i, n - 1);
    }
  }

  lemma {:induction false} ParentsStop(f: Flow, below: seq<Placed>, i: nat, n: nat)
    requires i <= n <= Groups(|below|) && Parents(f, below, i).flow.Failed()
    ensures Parents(f, below, n) == Parents(f, below, i)
    decreases n
  {
    hide Group, Append, Reader.NodeRun, SeparatorKeys, Sectors;
    if i < n {
      ParentsStop(f, below, i, n - 1);
    }
  }

  /** Write one level above another. */
  method WriteParents(source: BlockSource, ghost d0: Disk, ghost log0: seq<Write>, ghost f: Flow, total: nat,
                      start: nat, below: seq<Placed>)
    returns (ok: bool, cursor: nat, nodes: seq<Placed>)
    requires Tracks(source, d0, log0, f, start) && !f.Failed() && f.total == total
    modifies source
    ensures var l := Parents(f, below, Groups(|below|));
      (ok <==> !l.flow.Failed()) && Tracks(source, d0, log0, l.flow, cursor) && nodes == l.nodes && l.flow.SpaceOnly()
  {
    cursor, nodes := start, [];
    for i := 0 to Groups(|below|)
      invariant var l := Parents(f, below, i);
        !l.flow.Failed() && l.flow.total == total && Tracks(source, d0, log0, l.flow, cursor) && nodes == l.nodes
    {
      var group := Group(below, i);
      var node := Inner(SeparatorKeys(group), Sectors(group));
      var fits, next := AllocateAndWrite(source, d0, log0, Parents(f, below, i).flow, total, cursor,
          Reader.NodeRun(node));
      if !fits {
        ParentsStop(f, below, i + 1, Groups(|below|));
        return false, cursor, nodes;
      }
      nodes := nodes + [Placed(group[0].key, cursor)];
      cursor := next;
    }
    return true, cursor, nodes;
  }

  /** Write a whole tree, level by level. */
  method WriteTreeRows(source: BlockSource, ghost d0: Disk, ghost log0: seq<Write>, ghost f: Flow, total: nat,
                       start: nat, rows: seq<Row>)
    returns (ok: bool, cursor: nat, root: nat)
    requires Tracks(source, d0, log0, f, start) && !f.Failed() && f.total == total
    modifies source
    ensures var t := WriteTree(f, rows);
      (ok <==> !t.flow.Failed()) && Tracks(source, d0, log0, t.flow, cursor) && (ok ==> root == t.root)
          && t.flow.SpaceOnly()
  {
    if |rows| == 0 {
      return true, start, 0;
    }
    var nodes;
    ok, cursor, nodes := WriteLeaves(source, d0, log0, f, total, start, rows);
    ghost var level := Leaves(f, rows, Groups(|rows|));
    if !ok {
      return false, cursor, 0;
    }
    while |nodes| > 1
      invariant nodes == level.nodes && !level.flow.Failed() && level.flow.total == total
      invariant Tracks(source, d0, log0, level.flow, cursor)
      invariant Ascend(level) == Ascend(Leaves(f, rows, Groups(|rows|)))
      decreases |nodes|
    {
      ghost var above := Parents(level.flow, nodes, Groups(|nodes|));
      ok, cursor, nodes := WriteParents(source, d0, log0, level.flow, total, cursor, nodes);
      level := above;
      if !ok {
        return false, cursor, 0;
      }
    }
    root := if |nodes| == 0 then 0 else nodes[0].sector;
  }

  /** The retry loop that sizes the bitmap. */
  method CountBitmap(cursor: nat) returns (count: nat)
    ensures count == BitmapCount(cursor, 1)
  {
    count := 1;
    while true
      invariant count <= BitmapNeeded(cursor, count) && BitmapCount(cursor, count) == BitmapCount(cursor, 1)
      decreases cursor + 2 - count
    {
      var needed := BitmapNeeded(cursor, count);
      if needed == count {
        break;
      }
      count := needed;
    }
  }

  /** Bitmap sectors are written one after another. */
  lemma BitmapGrows(before: seq<Sector>, highWater: nat, total: nat, i: nat)
    ensures before + BitmapSectors(highWater, total, 0) == before
    ensures before + BitmapSectors(highWater, total, i + 1)
            == before + BitmapSectors(highWater, total, i) + [BitmapSector(highWater, total, i)]
  {
  }

  /** Write the bitmap sectors, one by one. */
  method WriteBitmap(source: BlockSource, ghost d0: Disk, ghost log0: seq<Write>, ghost f: Flow, total: nat,
                     cursor: nat, count: nat, highWater: nat)
    requires Tracks(source, d0, log0, f, cursor) && cursor + count <= |d0|
    modifies source
    ensures Tracks(source, d0, log0, f.(out := f.out + BitmapSectors(highWater, total, count)), cursor + count)
  {
    hide Overwrite, Logged, BitmapSector;
    BitmapGrows(f.out, highWater, total, 0);
    for i := 0 to count
      invariant Tracks(source, d0, log0, f.(out := f.out + BitmapSectors(highWater, total, i)), cursor + i)
    {
      BitmapGrows(f.out, highWater, total, i);
      WriteRun(source, d0, log0, f.(out := f.out + BitmapSectors(highWater, total, i)), cursor + i,
          [BitmapSector(highWater, total, i)]);
    }
  }

  /** Write the bitmap sectors, then the checkpoint. */
  method WriteBitmapAndCheckpoint(source: BlockSource, ghost d0: Disk, ghost log0: seq<Write>, ghost f: Flow,
                                  total: nat,
                                  cursor: nat, count: nat, record: CheckpointRecord)
    requires Tracks(source, d0, log0, f, cursor) && f.total == total && cursor + count < total
    requires record.highWater == cursor + count + 1
    modifies source
    ensures Tracks(source, d0, log0,
        f.(out := f.out + BitmapSectors(record.highWater, total, count) + [Check(record)]), record.highWater)
  {
    hide Overwrite, Logged, BitmapSectors;
    WriteBitmap(source, d0, log0, f, total, cursor, count, record.highWater);
    WriteRun(source, d0, log0, f.(out := f.out + BitmapSectors(record.highWater, total, count)), cursor + count,
        [Check(record)]);
  }

  /** Write the bitmap of a fresh volume behind the ring. */
  method WriteFirstBitmap(source: BlockSource, total: nat, count: nat, highWater: nat)
    requires RING_SLOTS + count <= total == |source.sectors|
    modifies source
    ensures source.sectors == Overwrite(old(source.sectors), RING_SLOTS, BitmapSectors(highWater, total, count))
  {
    ghost var f := Flow(RING_SLOTS, total, [], None);
    ghost var d0, log0 := source.sectors, source.log;
    NothingYet(d0, log0, RING_SLOTS);
    hide Overwrite, Logged, BitmapSectors;
    WriteBitmap(source, d0, log0, f, total, RING_SLOTS, count, highWater);
    assert f.out + BitmapSectors(highWater, total, count) == BitmapSectors(highWater, total, count);
  }

  lemma NothingYet(d0: Disk, log0: seq<Write>, start: nat)
    requires start <= |d0|
    ensures Overwrite(d0, start, []) == d0 && Logged(log0, start, []) == log0
  {
  }

  /** Rewrite the four ring slots, in order. */
  method WriteRingSlots(source: BlockSource, super: SuperRecord)
    requires RING_SLOTS <= |source.sectors|
    modifies source
    ensures source.sectors == WriteRing(old(source.sectors), super)
    ensures source.log == old(source.log) + RingLog(super)
  {
    ghost var d, log := source.sectors, source.log;
    assert log + RingLog(super)[..0] == log;
    for slot := 0 to RING_SLOTS
      invariant |source.sectors| == |d|
      invariant forall i | 0 <= i < |d| :: source.sectors[i] == if i < slot then Super(super) else d[i]
      invariant source.log == log + RingLog(super)[..slot]
    {
      source.WriteAt(slot, [Super(super)]);
      assert RunLog(slot, [Super(super)]) == [Write(slot, Super(super))];
      assert RingLog(super)[..slot + 1] == RingLog(super)[..slot] + [Write(slot, Super(super))];
      assert source.log == log + RingLog(super)[..slot + 1];
    }
    assert RingLog(super)[..RING_SLOTS] == RingLog(super);
    assert source.sectors == WriteRing(d, super);
  }

  /** Format the whole source. */
  method FormatSource(source: BlockSource, volumeId: nat) returns (r: Result<()>)
    modifies source
    ensures match Formatting.Formatted(old(source.sectors), volumeId)
      case Ok(e) => r.Ok? && source.sectors == e
      case Err(error) => r == Err(error) && source.sectors == old(source.sectors)
  {
    var total := |source.sectors|;
    var l := Formatting.LayoutFor(total);
    if total < l.highWater {
      return Err(VolumeFull);
    }
    source.WriteAt(0, [Junk]);
    source.WriteAt(total - 1, [Junk]);
    assert source.sectors == old(source.sectors)[0 := Junk][total - 1 := Junk];
    WriteFirstBitmap(source, total, l.bitmapCount, l.highWater);
    ghost var mapped := source.sectors;
    source.WriteAt(l.checkpoint, [Check(Formatting.FormatRecord(l))]);
    source.WriteAt(l.health, [Junk]);
    assert source.sectors == mapped[l.checkpoint := Check(Formatting.FormatRecord(l))][l.health := Junk];
    source.WriteAt(l.root, Reader.NodeRun(Leaf([ObjectRow(Formatting.ROOT_DIRECTORY)])));
    WriteRingSlots(source, Formatting.FormatSuper(l, total, volumeId));
    return Ok(());
  }

  // ---- Names ----------------------------------------------------------------------------------------

  method FindIn(names: seq<DirEntry>, parent: nat, name: Name) returns (r: Option<nat>)
    ensures r == Operations.Find(names, parent, name)
  {
    for i := 0 to |names|
      invariant forall j | 0 <= j < i :: !(names[j].parent == parent && names[j].name == name)
    {
      if names[i].parent == parent && names[i].name == name {
        return Some(i);
      }
    }
    return None;
  }

  /** Follow a path through a list of entries, part by part. */
  method ResolveIn(names: seq<DirEntry>, path: seq<byte>) returns (r: Option<nat>)
    ensures r == Operations.ResolvePath(names, path)
  {
    var parts := Operations.SplitPath(path);
    var current := ROOT_OID;
    for k := 0 to |parts|
      invariant Operations.Resolve(names, ROOT_OID, parts) == Operations.Resolve(names, current, parts[k..])
    {
      var i := FindIn(names, current, parts[k]);
      assert parts[k..][1..] == parts[k + 1..];
      if i.None? {
        return None;
      }
      current := names[i.value].child;
    }
    return Some(current);
  }

  // ---- The volume -----------------------------------------------------------------------------------

  /** A row that cannot be decoded ends the list. */
  lemma {:induction false} ListedStops(rows: seq<Row>, i: nat)
    requires i <= |rows| && |Reader.Listed(rows[..i])| < i
    ensures Reader.Listed(rows) == Reader.Listed(rows[..i])
    decreases |rows|
  {
    if i == |rows| {
      assert rows[..i] == rows;
    } else {
      assert rows[..|rows| - 1][..i] == rows[..i];
      ListedStops(rows[..|rows| - 1], i);
    }
  }

  /** One row more: it joins the list, or ends it. */
  lemma RowJoins(rows: seq<Row>, i: nat)
    requires i < |rows| && |Reader.Listed(rows[..i])| == i
    ensures Reader.Listable(rows[i])
        ==> Reader.Listed(rows[..i + 1]) == Reader.Listed(rows[..i]) + [Reader.AsRead(rows[i].snap)]
    ensures !Reader.Listable(rows[i]) ==> Reader.Listed(rows) == Reader.Listed(rows[..i])
  {
    assert rows[..i + 1][..i] == rows[..i];
    if !Reader.Listable(rows[i]) {
      ListedStops(rows, i + 1);
    }
  }

  lemma AsReadIs(s: Snapshot, labelText: seq<byte>)
    requires labelText == Reader.FixedLabel(s.labelText)
    ensures s.(labelText := labelText) == Reader.AsRead(s)
  {
  }

  lemma NextJoins(l: seq<Snapshot>, s: Snapshot)
    ensures Reader.NextSnapshotAfter(l + [s]) ==
            if s.id >= Reader.NextSnapshotAfter(l) then s.id + 1 else Reader.NextSnapshotAfter(l)
  {
    assert (l + [s])[..|l|] == l;
  }

  lemma NextOidIs(objects: map<nat, Object>)
    ensures Operations.NextOid(objects) == Reader.NextAfter(SortedKeys(objects.Keys))
  {
  }

  /** The fields once the body of a commit is written: the sizes and slots of its files are set. */
  function AfterBody(v: Vol, p: Prepared): Vol {
    v.(view := v.view.(objects := p.objects))
  }

  /** The disk, the log and the ending of a commit, case by case. */
  lemma CommitCases(d: Disk, v: Vol)
    requires RING_SLOTS <= v.HighWater() <= v.Total() <= |d|
    ensures v.Clean() ==>
      Committing.CommitDisk(d, v) == d && CommitLog(v) == [] && Committing.CommitEnding(d, v) == Committing.Done(v)
    ensures var p := Prepare(v);
      !v.Clean() && p.flow.Failed() ==>
        && Committing.CommitDisk(d, v) == Overwrite(d, v.HighWater(), p.flow.out)
        && CommitLog(v) == RunLog(v.HighWater(), p.flow.out)
        && Committing.CommitEnding(d, v) == Committing.Refused(p.flow.error.value, AfterBody(v, p))
    ensures var p := Prepare(v);
      !v.Clean() && !p.flow.Failed() ==>
        var e := Committing.CommitDisk(d, v);
        && e == WriteRing(Overwrite(d, v.HighWater(), p.flow.out), CommitSuper(v, p))
        && CommitLog(v) == RunLog(v.HighWater(), p.flow.out) + RingLog(CommitSuper(v, p))
        && Committing.CommitEnding(d, v) == match Reader.Mount(e)
             case Ok(w) => Committing.Done(w)
             case Err(error) => Committing.Lost(error, Reader.MountLeaves(e, AfterBody(v, p)))
  {
    hide Prepare, Reader.Mount, Reader.MountLeaves, Overwrite, WriteRing, RunLog, RingLog;
    if Prepare(v).flow.Failed() {
      assert RunLog(v.HighWater(), Prepare(v).flow.out) + [] == RunLog(v.HighWater(), Prepare(v).flow.out);
    }
  }

  lemma BodyTracked(source: BlockSource, d: Disk, log: seq<Write>, p: Prepared)
    requires Tracks(source, d, log, p.flow, p.flow.Cursor())
    ensures p.flow.Cursor() <= |d| && source.sectors == Overwrite(d, p.flow.start, p.flow.out)
    ensures source.log == log + RunLog(p.flow.start, p.flow.out)
  {
  }

  class Volume {
    const source: BlockSource
    var super: Superblock
    var checkpoint: Checkpoint
    var objects: map<nat, Object>
    var names: seq<DirEntry>
    var extents: map<(nat, nat), nat>
    var attributes: seq<Attribute>
    var dirty: map<nat, seq<byte>>
    var snapshots: seq<Snapshot>
    var nextOid: nat
    var nextSnapshot: nat
    var metadataDirty: bool

    /** The state as a value. */
    function State(): Vol
      reads this
    {
      Vol(super, checkpoint, View(objects, names, extents, attributes), dirty, snapshots, nextOid, nextSnapshot,
          metadataDirty)
    }

    /** The disk as a value. */
    function Sectors(): Disk
      reads this, source
    {
      source.sectors
    }

    /** What a commit needs of the numbers it starts from; every sound volume has it. */
    predicate Bounded()
      reads this, source
    {
      RING_SLOTS <= checkpoint.record.highWater <= super.record.total <= |source.sectors|
    }

    constructor (source: BlockSource)
      ensures this.source == source
    {
      this.source := source;
      super := Superblock(0, SuperRecord(0, 0, 0, 0));
      checkpoint := Checkpoint(0, NO_RECORD);
      objects, names, extents, attributes := map[], [], map[], [];
      dirty, snapshots, nextOid, nextSnapshot, metadataDirty := map[], [], 2, 1, false;
    }

    /** Make a loaded view the current one. */
    method AdoptView(view: View)
      modifies this`objects, this`names, this`extents, this`attributes, this`nextOid
      ensures View(objects, names, extents, attributes) == view && nextOid == Operations.NextOid(view.objects)
    {
      objects, names, extents, attributes := view.objects, view.names, view.extents, view.attributes;
      nextOid := NextFree(objects);
    }

    /** Decode the snapshot table into the list, row by row; the rows before a bad one stay. */
    method LoadSnapshots(d: Disk, record: CheckpointRecord) returns (r: Result<()>)
      requires snapshots == [] && nextSnapshot == 1
      modifies this`snapshots, this`nextSnapshot
      ensures r.Ok? <==> Reader.LoadSnapshots(d, record).Ok?
      ensures r.Err? ==> r.error == Reader.LoadSnapshots(d, record).error
      ensures snapshots == Reader.ListedSnapshots(d, record) && nextSnapshot == Reader.NextSnapshotAfter(snapshots)
    {
      hide *;
      Reader.TableDecides(d, record);
      var collected := CollectTree(d, record.snapshotRoot, record.snapshotCount, MAX_SNAPSHOTS);
      if collected.Err? {
        return Err(collected.error);
      }
      var rows := collected.value;
      for i := 0 to |rows|
        invariant snapshots == Reader.Listed(rows[..i]) && |snapshots| == i
        invariant nextSnapshot == Reader.NextSnapshotAfter(snapshots)
      {
        var row := rows[i];
        RowJoins(rows, i);
        if !Reader.Listable(row) {
          return Err(BadRow);
        }
        var labelText := ReadFixedLabel(row.snap.labelText);
        AsReadIs(row.snap, labelText);
        NextJoins(snapshots, row.snap.(labelText := labelText));
        snapshots := snapshots + [row.snap.(labelText := labelText)];
        if row.snap.id >= nextSnapshot {
          nextSnapshot := row.snap.id + 1;
        }
      }
      assert rows[..|rows|] == rows;
      return Ok(());
    }

    /** Mount what the disk holds. After an error the fields are those set before it. */
    method MountFrom(d: Disk) returns (r: Result<()>)
      modifies this
      ensures r.Ok? <==> Reader.Mount(d).Ok?
      ensures r.Err? ==> r.error == Reader.Mount(d).error
      ensures State() == Reader.MountLeaves(d, old(State()))
    {
      hide Reader.Mount, Reader.MountLeaves, Reader.Select, Reader.ReadCheckpoint;
      ghost var v := State();
      var selected := SelectSuperblock(d);
      if selected.Err? {
        Reader.NoSuper(d, v);
        return Err(selected.error);
      }
      var chosen := selected.value;
      super := chosen;
      var record := Reader.ReadCheckpoint(d, chosen.record.checkpointSector);
      if record.Err? {
        Reader.CheckpointDecides(d, v, chosen);
        return Err(record.error);
      }
      r := LoadFrom(d, v, chosen, record.value);
    }

    /** The rest of a mount, behind a valid checkpoint. */
    method LoadFrom(d: Disk, ghost v: Vol, chosen: Superblock, record: CheckpointRecord) returns (r: Result<()>)
      requires Reader.Select(d) == Ok(chosen) && Reader.ReadCheckpoint(d, chosen.record.checkpointSector) == Ok(record)
      requires super == chosen && v.view == View(objects, names, extents, attributes) && nextOid == v.nextOid
      modifies this
      ensures r.Ok? <==> Reader.Mount(d).Ok?
      ensures r.Err? ==> r.error == Reader.Mount(d).error
      ensures State() == Reader.MountLeaves(d, v)
    {
      hide Reader.Select, Reader.ReadCheckpoint, Reader.LoadView, Reader.LoadSnapshots, Reader.ListedSnapshots;
      hide Reader.Mount, Reader.MountLeaves, SortedKeys, Reader.NextAfter, Reader.NextSnapshotAfter, Operations.NextOid;
      checkpoint := Checkpoint(chosen.record.checkpointSector, record);
      dirty, snapshots, metadataDirty, nextSnapshot := map[], [], false, 1;
      var loaded := LoadTreeView(d, record, chosen.record.total);
      if loaded.Err? {
        Reader.NoView(d, v, chosen, record, loaded.error);
        return Err(loaded.error);
      }
      AdoptView(loaded.value);
      NextOidIs(loaded.value.objects);
      Reader.ListDecides(d, v, chosen, record, loaded.value);
      r := LoadSnapshots(d, record);
    }

    method Mount() returns (r: Result<()>)
      modifies this
      ensures r.Ok? <==> Reader.Mount(Sectors()).Ok?
      ensures r.Err? ==> r.error == Reader.Mount(Sectors()).error
      ensures State() == Reader.MountLeaves(Sectors(), old(State()))
      ensures r.Ok? ==> State() == Reader.Mount(Sectors()).value
    {
      hide Reader.Mount, Reader.MountLeaves;
      Reader.MountLeavesMounted(source.sectors, State());
      r := MountFrom(source.sectors);
    }

    // ---- Names ----------------------------------------------------------------------------------

    method FindEntry(parent: nat, name: Name) returns (r: Option<nat>)
      ensures r == Operations.Find(names, parent, name)
    {
      r := FindIn(names, parent, name);
    }

    /** `resolve_posix_path`, part by part. */
    method ResolvePath(path: seq<byte>) returns (r: Option<nat>)
      ensures r == Operations.ResolvePath(names, path)
    {
      r := ResolveIn(names, path);
    }

    method CreateFile(parent: nat, name: Name) returns (r: Result<nat>)
      modifies this
      ensures match Operations.CreateFile(old(State()), parent, name)
        case Ok(w) => r == Ok(old(nextOid)) && State() == w
        case Err(e) => r == Err(e) && State() == old(State())
    {
      hide Operations.ResolvePath, ValidName;
      if !ValidName(name) {
        return Err(InvalidName);
      }
      if parent !in objects || objects[parent].kind != DIRECTORY {
        return Err(NotADirectory);
      }
      var atRoot := ResolvePath([Operations.SLASH] + name);
      if atRoot.Some? && parent == ROOT_OID {
        return Err(NameExists);
      }
      var taken := FindEntry(parent, name);
      if taken.Some? {
        return Err(NameExists);
      }
      var oid := nextOid;
      nextOid := nextOid + 1;
      objects := objects[oid := Object(oid, 0, FILE, 0, oid)];
      names := names + [DirEntry(parent, name, oid)];
      dirty := dirty[oid := []];
      metadataDirty := true;
      return Ok(oid);
    }

    method CreateDirectory(parent: nat, name: Name) returns (r: Result<nat>)
      modifies this
      ensures match Operations.CreateDirectory(old(State()), parent, name)
        case Ok(w) => r == Ok(old(nextOid)) && State() == w
        case Err(e) => r == Err(e) && State() == old(State())
    {
      if !ValidName(name) {
        return Err(InvalidName);
      }
      if parent !in objects || objects[parent].kind != DIRECTORY {
        return Err(NotADirectory);
      }
      var taken := FindEntry(parent, name);
      if taken.Some? {
        return Err(NameExists);
      }
      var oid := nextOid;
      nextOid := nextOid + 1;
      objects := objects[oid := Object(oid, 0, DIRECTORY, 0, 0)];
      names := names + [DirEntry(parent, name, oid)];
      metadataDirty := true;
      return Ok(oid);
    }

    method RemoveChild(parent: nat, name: Name) returns (r: Result<()>)
      modifies this
      ensures match Operations.RemoveChild(old(State()), parent, name)
        case Ok(w) => r.Ok? && State() == w
        case Err(e) => r == Err(e) && State() == old(State())
    {
      var found := FindEntry(parent, name);
      if found.None? {
        return Err(NoSuchChild);
      }
      var i := found.value;
      var oid := names[i].child;
      if oid !in objects {
        return Err(MissingObject);
      }
      if objects[oid].kind == DIRECTORY {
        for j := 0 to |names|
          invariant forall k | 0 <= k < j :: names[k].parent != oid
        {
          if names[j].parent == oid {
            assert names[j] in names;
            return Err(NotEmpty);
          }
        }
      }
      names := names[..i] + names[i + 1..];
      objects := objects - {oid};
      dirty := dirty - {oid};
      metadataDirty := true;
      return Ok(());
    }

    method RenameChild(parent: nat, name: Name, newParent: nat, newName: Name) returns (r: Result<()>)
      modifies this
      ensures match Operations.RenameChild(old(State()), parent, name, newParent, newName)
        case Ok(w) => r.Ok? && State() == w
        case Err(e) => r == Err(e) && State() == old(State())
    {
      if !ValidName(newName) {
        return Err(InvalidName);
      }
      if newParent !in objects || objects[newParent].kind != DIRECTORY {
        return Err(NotADirectory);
      }
      var found := FindEntry(parent, name);
      if found.None? {
        return Err(NoSuchChild);
      }
      var taken := FindEntry(newParent, newName);
      if taken.Some? {
        return Err(NameExists);
      }
      names := names[found.value := DirEntry(newParent, newName, names[found.value].child)];
      metadataDirty := true;
      return Ok(());
    }

    // ---- File contents --------------------------------------------------------------------------

    method ReadFile(oid: nat, offset: nat, size: nat) returns (r: Result<seq<byte>>)
      ensures r == Operations.ReadFile(Sectors(), State(), oid, offset, size)
      ensures r.Ok? ==> oid in objects
      ensures r.Ok? ==>
                Operations.StretchOf(r.value, Soundness.Contents(Sectors(), State().view, dirty, oid), offset, size)
    {
      if oid !in objects || objects[oid].kind != FILE {
        return Err(NotAFile);
      }
      if oid in dirty {
        Operations.CutIs(dirty[oid], offset, size);
        return Ok(Operations.Cut(dirty[oid], offset, size));
      }
      var obj := objects[oid];
      if offset >= obj.size || size == 0 {
        return Ok([]);
      }
      r := ReadStored(source.sectors, extents, obj, offset, Min(obj.size - offset, size));
    }

    /** The bytes a change starts from: the pending entry is made first, and the old bytes are read
        afterwards. */
    method OpenPending(oid: nat) returns (bytes: seq<byte>)
      requires oid in objects && objects[oid].kind == FILE
      modifies this`dirty
      ensures State() == Operations.Entered(old(State()), oid)
      ensures Operations.OldBytes(Sectors(), old(State()), oid, false) == Ok(bytes)
    {
      if oid !in dirty {
        dirty := dirty[oid := []];
      }
      bytes := dirty[oid];
      assert State() == Operations.Entered(old(State()), oid);
      if |bytes| == 0 && objects[oid].size != 0 {
        var read := ReadFile(oid, 0, objects[oid].size);
        bytes := read.value;
      }
    }

    method ResizeFile(oid: nat, size: nat) returns (r: Result<()>)
      modifies this
      ensures match Operations.ResizeFile(Sectors(), old(State()), oid, size, false)
        case Ok(w) => r.Ok? && State() == w
        case Err(e) =>
          r == Err(e) && State() == if e == BufferTooLong then Operations.Entered(old(State()), oid) else old(State())
    {
      hide Operations.OldBytes, Operations.Fit, Operations.GuardChunks;
      if oid !in objects || objects[oid].kind != FILE {
        return Err(NotAFile);
      }
      if Operations.GuardChunks(size) > super.record.total / NODE_SECTORS {
        return Err(TooLarge);
      }
      var bytes := OpenPending(oid);
      if size > Operations.MAX_BUFFER {
        return Err(BufferTooLong);
      }
      dirty := dirty[oid := Operations.Fit(bytes, size)];
      objects := objects[oid := objects[oid].(size := size)];
      metadataDirty := true;
      return Ok(());
    }

    method WriteFile(oid: nat, offset: nat, data: seq<byte>) returns (r: Result<()>)
      modifies this
      ensures match Operations.WriteFile(Sectors(), old(State()), oid, offset, data, false)
        case Ok(w) => r.Ok? && State() == w
        case Err(e) =>
          r == Err(e) && State() == if e == BufferTooLong then Operations.Entered(old(State()), oid) else old(State())
    {
      hide Operations.OldBytes, Operations.Fit, Operations.GuardChunks, Operations.ReadFile;
      if oid !in objects || objects[oid].kind != FILE {
        return Err(NotAFile);
      }
      var end := offset + |data|;
      if end > Operations.MAX_OFFSET {
        return Err(TooLarge);
      }
      if Operations.GuardChunks(end) > super.record.total / NODE_SECTORS {
        return Err(TooLarge);
      }
      if end > objects[oid].size {
        var grown := ResizeFile(oid, end);
        if grown.Err? {
          return Err(grown.error);
        }
      }
      var bytes := OpenPending(oid);
      if |bytes| < end {
        if end > Operations.MAX_BUFFER {
          return Err(BufferTooLong);
        }
        bytes := Operations.Fit(bytes, end);
      }
      dirty := dirty[oid := bytes[..offset] + data + bytes[end..]];
      return Ok(());
    }

    // ---- Commit ---------------------------------------------------------------------------------

    /** One file of a commit: write its pending chunks, or keep its extents. */
    method WriteOneObject(ghost v: Vol, ghost d0: Disk, ghost log0: seq<Write>, ghost s: Stage, oid: nat, start: nat,
                          before: seq<Extent>)
      returns (error: Option<Error>, cursor: nat, list: seq<Extent>)
      requires oid in objects && s.objects == objects && s.extents == before && s.flow.total == super.record.total
      requires v.dirty == dirty && v.view.extents == extents
      requires Tracks(source, d0, log0, s.flow, start) && !s.flow.Failed()
      modifies this`objects, source
      ensures var r := WriteObject(s, v, oid);
        error == r.flow.error && Tracks(source, d0, log0, r.flow, cursor) && list == r.extents && objects == r.objects
    {
      cursor, list, error := start, before, None;
      var obj := objects[oid];
      if obj.kind != FILE {
        return;
      }
      if oid !in dirty {
        objects := objects[oid := obj.(dataSlot := oid)];
        ghost var moved := s.(objects := objects);
        var kept;
        kept, list := KeepCleanChunks(moved, oid, obj.dataSlot, extents, Chunks(obj.size), before);
        error := if kept then None else Some(MissingExtent);
      } else {
        var data := dirty[oid];
        objects := objects[oid := obj.(dataSlot := oid, size := |data|)];
        ghost var moved := s.(objects := objects);
        var written;
        written, cursor, list := WriteDirtyChunks(source, d0, log0, moved, super.record.total, start, oid, data,
            before);
        error := if written then None else Some(VolumeFull);
      }
    }

    /** The file loop of a commit, in key order. */
    method WriteFiles(ghost v: Vol, ghost d0: Disk, ghost log0: seq<Write>, keys: seq<nat>)
      returns (error: Option<Error>, cursor: nat, list: seq<Extent>)
      requires v == State() && (forall k | k in keys :: k in objects)
      requires Bounded() && d0 == source.sectors && log0 == source.log
      modifies this`objects, source
      ensures var s := WriteObjects(v, keys, |keys|);
        error == s.flow.error && Tracks(source, d0, log0, s.flow, cursor) && list == s.extents && objects == s.objects
    {
      cursor, list, error := checkpoint.record.highWater, [], None;
      NothingYet(d0, log0, cursor);
      hide WriteObject, Overwrite, Logged;
      for i := 0 to |keys|
        invariant var s := WriteObjects(v, keys, i);
          error == s.flow.error == None && Tracks(source, d0, log0, s.flow, cursor) && list == s.extents
              && objects == s.objects
      {
        error, cursor, list := WriteOneObject(v, d0, log0, WriteObjects(v, keys, i), keys[i], cursor, list);
        if error.Some? {
          WriteObjectsStop(v, keys, i + 1, |keys|);
          return;
        }
      }
    }

    /** The five trees, in order: extents, objects, names, attributes, snapshots. */
    method WriteTrees(ghost v: Vol, ghost d0: Disk, ghost log0: seq<Write>, ghost s: Stage, start: nat,
                      list: seq<Extent>)
      returns (error: Option<Error>, cursor: nat, roots: seq<nat>)
      requires v.view.names == names && v.view.attributes == attributes && v.snapshots == snapshots
      requires s.objects == objects && s.extents == list && s.flow.total == super.record.total
      requires v.view.objects.Keys == objects.Keys
      requires Tracks(source, d0, log0, s.flow, start) && !s.flow.Failed()
      modifies source
      ensures var t := WriteForest(v, s);
        error == t.snapshots.flow.error && Tracks(source, d0, log0, t.snapshots.flow, cursor)
        && (error.None? ==>
            roots == [t.extents.root, t.objects.root, t.names.root, t.attributes.root, t.snapshots.root])
    {
      hide WriteTree, SortBy;
      var total := super.record.total;
      ghost var t := WriteForest(v, s);
      roots := [];
      var ok, extentRoot, objectRoot, nameRoot, attributeRoot, snapshotRoot;
      ok, cursor, extentRoot := WriteTreeRows(source, d0, log0, s.flow, total, start,
          ExtentRows(SortBy(list, ExtentKey)));
      if !ok {
        ForestStops(v, s);
        return Some(VolumeFull), cursor, roots;
      }
      ok, cursor, objectRoot := WriteTreeRows(source, d0, log0, t.extents.flow, total, cursor,
          ObjectRows(SortBy(ObjectsInOrder(objects, SortedKeys(objects.Keys)), ObjectKey)));
      if !ok {
        ForestStops(v, s);
        return Some(VolumeFull), cursor, roots;
      }
      ok, cursor, nameRoot := WriteTreeRows(source, d0, log0, t.objects.flow, total, cursor,
          NameRows(SortBy(names, NameKey)));
      if !ok {
        ForestStops(v, s);
        return Some(VolumeFull), cursor, roots;
      }
      ok, cursor, attributeRoot := WriteTreeRows(source, d0, log0, t.names.flow, total, cursor,
          AttributeRows(SortBy(attributes, AttributeKey)));
      if !ok {
        ForestStops(v, s);
        return Some(VolumeFull), cursor, roots;
      }
      ok, cursor, snapshotRoot := WriteTreeRows(source, d0, log0, t.attributes.flow, total, cursor,
          SnapshotRows(SortBy(snapshots, SnapshotKey)));
      if !ok {
        return Some(VolumeFull), cursor, roots;
      }
      return None, cursor, [extentRoot, objectRoot, nameRoot, attributeRoot, snapshotRoot];
    }

    /** Everything a commit writes before the ring: file chunks, trees, bitmap, checkpoint. */
    method WriteBody(ghost v: Vol) returns (error: Option<Error>, checkpointSector: nat)
      requires Bounded() && v == State()
      modifies this`objects, source
      ensures var p := Prepare(v);
        error == p.flow.error && Tracks(source, old(source.sectors), old(source.log), p.flow, p.flow.Cursor())
        && objects == p.objects && (error.None? ==> checkpointSector == p.checkpointSector)
    {
      hide WriteForest, WriteObjects, BitmapCount, Overwrite, Logged;
      ghost var d0, log0 := source.sectors, source.log;
      checkpointSector := 0;
      var keys := SortedKeys(objects.Keys);
      var cursor, list;
      error, cursor, list := WriteFiles(v, d0, log0, keys);
      ghost var s := WriteObjects(v, keys, |keys|);
      ghost var t := WriteForest(v, s);
      if error.Some? {
        ForestStops(v, s);
        return;
      }
      var roots;
      error, cursor, roots := WriteTrees(v, d0, log0, s, cursor, list);
      if error.Some? {
        return;
      }
      var count := CountBitmap(cursor);
      ForestStops(v, s);
      if cursor + count >= super.record.total {
        error := Some(VolumeFull);
        return;
      }
      var highWater := cursor + count + 1;
      var record := CheckpointRecord(
        checkpoint.record.generation + 1,
        roots[1], |objects|, roots[2], |names|,
        checkpoint.sector, cursor, highWater,
        roots[3], |attributes|, roots[0], |list|, roots[4], |snapshots|);
      WriteBitmapAndCheckpoint(source, d0, log0, t.snapshots.flow, super.record.total, cursor, count, record);
      checkpointSector := highWater - 1;
    }

    /** Write back everything pending as a new generation, publish it in the ring, and mount it. */
    method Commit() returns (r: Result<()>)
      requires Bounded()
      modifies this, source
      ensures Sectors() == Committing.CommitDisk(old(Sectors()), old(State()))
      ensures source.log == old(source.log) + CommitLog(old(State()))
      ensures match Committing.CommitEnding(old(Sectors()), old(State()))
        case Done(w) => r.Ok? && State() == w
        case Refused(e, w) => r == Err(e) && State() == w
        case Lost(e, x) => r == Err(e) && State() == x
    {
      hide Prepare, Reader.Mount, Reader.MountLeaves, Overwrite, RunLog, WriteRing, RingLog, Tracks;
      hide Committing.CommitDisk, Committing.CommitEnding, CommitLog;
      ghost var d, v, log := source.sectors, State(), source.log;
      CommitCases(d, v);
      if !metadataDirty && dirty == map[] {
        assert log == log + [];
        return Ok(());
      }
      var error, checkpointSector := WriteBody(v);
      BodyTracked(source, d, log, Prepare(v));
      assert State() == AfterBody(v, Prepare(v));
      if error.Some? {
        return Err(error.value);
      }
      WriteRingSlots(source, SuperRecord(super.record.volumeId, super.record.total, COMMIT_FLAGS, checkpointSector));
      r := Mount();
    }

    // ---- Snapshots ------------------------------------------------------------------------------

    method FindSnapshot(id: nat) returns (r: Option<nat>)
      ensures r == Operations.FindSnapshot(snapshots, id)
    {
      for i := 0 to |snapshots|
        invariant forall j | 0 <= j < i :: snapshots[j].id != id
      {
        if snapshots[i].id == id {
          return Some(i);
        }
      }
      return None;
    }

    /** `now` is the clock the source reads. */
    method CreateSnapshot(labelText: seq<byte>, now: nat) returns (r: Result<nat>)
      requires Bounded()
      modifies this, source
      ensures match Operations.TakeSnapshot(old(State()), labelText, now)
        case Err(e) => r == Err(e) && State() == old(State()) && Sectors() == old(Sectors())
        case Ok(w) =>
          Sectors() == Committing.CommitDisk(old(Sectors()), w) &&
          match Committing.CommitEnding(old(Sectors()), w)
          case Done(x) => r == Ok(old(nextSnapshot)) && State() == x
          case Refused(e, x) => r == Err(e) && State() == x
          case Lost(e, x) => r == Err(e) && State() == x
    {
      hide Committing.CommitDisk, Committing.CommitEnding, Prepare;
      if metadataDirty || dirty != map[] {
        return Err(NotClean);
      }
      if |labelText| > MAX_LABEL {
        return Err(LabelTooLong);
      }
      var id := nextSnapshot;
      nextSnapshot := nextSnapshot + 1;
      snapshots := snapshots + [Snapshot(id, checkpoint.record.generation, checkpoint.sector, now, 0, labelText)];
      metadataDirty := true;
      var committed := Commit();
      if committed.Err? {
        return Err(committed.error);
      }
      return Ok(id);
    }

    /** Whether there was such a snapshot to delete. */
    method DeleteSnapshot(id: nat) returns (r: Result<bool>)
      requires Bounded()
      modifies this, source
      ensures match Operations.DropSnapshot(old(State()), id)
        case Err(_) => r == Ok(false) && State() == old(State()) && Sectors() == old(Sectors())
        case Ok(w) =>
          Sectors() == Committing.CommitDisk(old(Sectors()), w) &&
          match Committing.CommitEnding(old(Sectors()), w)
          case Done(x) => r == Ok(true) && State() == x
          case Refused(e, x) => r == Err(e) && State() == x
          case Lost(e, x) => r == Err(e) && State() == x
    {
      hide Committing.CommitDisk, Committing.CommitEnding, Prepare;
      var found := FindSnapshot(id);
      if found.None? {
        return Ok(false);
      }
      snapshots := snapshots[..found.value] + snapshots[found.value + 1..];
      metadataDirty := true;
      var committed := Commit();
      if committed.Err? {
        return Err(committed.error);
      }
      return Ok(true);
    }

    /** The in-memory half of a rollback: load what the snapshot pins. */
    method RestoreView(id: nat) returns (r: Result<()>)
      modifies this
      ensures match Operations.RollBack(Sectors(), old(State()), id)
        case Ok(w) => r.Ok? && State() == w
        case Err(e) => r == Err(e) && State() == old(State())
    {
      hide Operations.SnapshotView, Operations.NextOid, Operations.FindSnapshot;
      var found := FindSnapshot(id);
      if found.None? {
        return Err(NoSuchSnapshot);
      }
      if metadataDirty || dirty != map[] {
        return Err(NotClean);
      }
      var view := ViewOfSnapshot(source.sectors, snapshots[found.value], super.record.total);
      if view.Err? {
        return Err(view.error);
      }
      AdoptView(view.value);
      metadataDirty := true;
      return Ok(());
    }

    method RollbackToSnapshot(id: nat) returns (r: Result<()>)
      requires Bounded()
      modifies this, source
      ensures match Operations.RollBack(old(Sectors()), old(State()), id)
        case Err(e) => r == Err(e) && State() == old(State()) && Sectors() == old(Sectors())
        case Ok(w) =>
          Sectors() == Committing.CommitDisk(old(Sectors()), w) &&
          match Committing.CommitEnding(old(Sectors()), w)
          case Done(x) => r.Ok? && State() == x
          case Refused(e, x) => r == Err(e) && State() == x
          case Lost(e, x) => r == Err(e) && State() == x
    {
      hide Committing.CommitDisk, Committing.CommitEnding, Prepare, Operations.RollBack;
      SameNumbers(Sectors(), State(), id);
      r := RestoreView(id);
      if r.Ok? {
        r := Commit();
      }
    }

    /** `resolve_posix_path_in_snapshot`, part by part over the entries the snapshot pins. */
    method ResolvePathInSnapshot(id: nat, path: seq<byte>) returns (r: Result<Option<nat>>)
      ensures r == Operations.ResolveInSnapshot(Sectors(), State(), id, path)
    {
      hide Operations.SnapshotView, Operations.FindSnapshot, Operations.ResolvePath;
      var found := FindSnapshot(id);
      if found.None? {
        return Err(NoSuchSnapshot);
      }
      var view := ViewOfSnapshot(source.sectors, snapshots[found.value], super.record.total);
      if view.Err? {
        return Err(view.error);
      }
      var resolved := ResolveIn(view.value.names, path);
      return Ok(resolved);
    }

    method ReadFromView(view: View, oid: nat, offset: nat, size: nat) returns (r: Result<seq<byte>>)
      ensures r == Operations.ReadFile(Sectors(), State().(view := view, dirty := map[]), oid, offset, size)
    {
      if oid !in view.objects || view.objects[oid].kind != FILE {
        return Err(NotAFile);
      }
      var obj := view.objects[oid];
      if offset >= obj.size || size == 0 {
        return Ok([]);
      }
      r := ReadStored(source.sectors, view.extents, obj, offset, Min(obj.size - offset, size));
    }

    /** Read part of a file as a snapshot pins it. */
    method ReadFileInSnapshot(id: nat, oid: nat, offset: nat, size: nat) returns (r: Result<seq<byte>>)
      ensures r == Operations.ReadInSnapshot(Sectors(), State(), id, oid, offset, size)
    {
      hide Operations.SnapshotView, Operations.ReadFile, Operations.FindSnapshot;
      var found := FindSnapshot(id);
      if found.None? {
        return Err(NoSuchSnapshot);
      }
      var view := ViewOfSnapshot(source.sectors, snapshots[found.value], super.record.total);
      if view.Err? {
        return Err(view.error);
      }
      r := ReadFromView(view.value, oid, offset, size);
    }
  }

  lemma SameNumbers(d: Disk, v: Vol, id: nat)
    ensures Operations.RollBack(d, v, id).Ok? ==>
      Operations.RollBack(d, v, id).value.super == v.super
          && Operations.RollBack(d, v, id).value.checkpoint == v.checkpoint
  {
    hide Operations.SnapshotView, Operations.NextOid;
  }

  /** Once a flow has failed, the later trees change nothing. */
  lemma ForestStops(v: Vol, s: Stage)
    requires s.objects.Keys == v.view.objects.Keys
    ensures WriteForest(v, s).snapshots.flow.total == s.flow.total
    ensures var t := WriteForest(v, s);
      (s.flow.Failed() ==> t.snapshots.flow == s.flow)
      && (t.extents.flow.Failed() ==> t.snapshots.flow == t.extents.flow)
      && (t.objects.flow.Failed() ==> t.snapshots.flow == t.objects.flow)
      && (t.names.flow.Failed() ==> t.snapshots.flow == t.names.flow)
      && (t.attributes.flow.Failed() ==> t.snapshots.flow == t.attributes.flow)
  {
    hide SortBy, Leaves, Ascend;
  }
}
