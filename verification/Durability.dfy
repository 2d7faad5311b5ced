/** Reads before and after a commit. */
module Durability {
  import opened ArcTypes
  import opened Reader
  import opened Writer
  import opened Soundness
  import opened TreeProofs
  import opened StageProofs
  import opened CommitProofs
  import opened Commit
  import opened Space
  import opened CommitTheorems
  import opened Operations
  import opened OperationProofs

  /** A read returns the same bytes, or the same refusal, before a commit and after it. */
  lemma CommitKeepsReads(d: Disk, v: Vol, oid: nat, offset: nat, size: nat)
    requires Sound(d, v) && (v.Clean() || RoomFor(v)) && Remountable(v)
    ensures RING_SLOTS <= v.HighWater() <= v.Total() <= |d| && CommitEnding(d, v).Done?
    ensures ReadFile(CommitDisk(d, v), CommitEnding(d, v).vol, oid, offset, size) == ReadFile(d, v, oid, offset, size)
  {
    CommitRefines(d, v);
    hide Sound, Prepare, RoomFor, CommitDisk, CommitEnding, Remountable, ReadFile, Contents;
    var e, w := CommitDisk(d, v), CommitEnding(d, v).vol;
    FilesShown(d, v, oid);
    FilesShown(e, w, oid);
    if IsFile(v, oid) {
      ReadReturnsContents(d, v, oid, offset, size);
      ReadReturnsContents(e, w, oid, offset, size);
    } else {
      NoFileRead(d, v, oid, offset, size);
      NoFileRead(e, w, oid, offset, size);
    }
  }

  lemma FilesShown(d: Disk, v: Vol, oid: nat)
    ensures IsFile(v, oid) <==> oid in Live(d, v).entities && Live(d, v).entities[oid].kind == FILE
  {
    hide Contents;
  }

  lemma NoFileRead(d: Disk, v: Vol, oid: nat, offset: nat, size: nat)
    requires !IsFile(v, oid)
    ensures ReadFile(d, v, oid, offset, size) == Err(NotAFile)
  {
  }

  /** What a write put over the old contents reads back, pending and committed alike; the condition is
      the one under which the write keeps the bytes around it. */
  lemma WriteReadsBack(d: Disk, v: Vol, oid: nat, offset: nat, data: seq<byte>, from: nat, size: nat)
    requires Sound(d, v) && WriteFile(d, v, oid, offset, data, false).Ok?
    requires var stored := Live(d, v).entities[oid].bytes;
             oid in v.dirty || (|stored| <= offset + |data| && ZeroUpTo(stored, offset))
    requires var w := WriteFile(d, v, oid, offset, data, false).value; RoomFor(w) && Remountable(w)
    ensures var w := WriteFile(d, v, oid, offset, data, false).value;
      RING_SLOTS <= w.HighWater() <= w.Total() <= |d| && CommitEnding(d, w).Done?
    ensures var w, stored := WriteFile(d, v, oid, offset, data, false).value, Live(d, v).entities[oid].bytes;
      && ReadFile(d, w, oid, from, size) == Ok(Cut(Overlay(stored, offset, data), from, size))
      && ReadFile(CommitDisk(d, w), CommitEnding(d, w).vol, oid, from, size)
         == Ok(Cut(Overlay(stored, offset, data), from, size))
    ensures var w, stored := WriteFile(d, v, oid, offset, data, false).value, Live(d, v).entities[oid].bytes;
      exists bytes: seq<byte> ::
        && Overlaid(bytes, stored, offset, data)
        && StretchOf(ReadFile(d, w, oid, from, size).value, bytes, from, size)
        && StretchOf(ReadFile(CommitDisk(d, w), CommitEnding(d, w).vol, oid, from, size).value, bytes, from, size)
  {
    hide Sound, Prepare, RoomFor, CommitDisk, CommitEnding, Remountable, ReadFile, Contents, WriteFile;
    hide ZeroUpTo, Overlay;
    var w := WriteFile(d, v, oid, offset, data, false).value;
    WriteKeepsIff(d, v, oid, offset, data);
    WriteOverlays(d, v, oid, offset, data, false);
    FilesShown(d, v, oid);
    FilesShown(d, w, oid);
    ReadReturnsContents(d, w, oid, from, size);
    CommitKeepsReads(d, w, oid, from, size);
    OverlayIsOverlaid(Live(d, v).entities[oid].bytes, offset, data);
    CutIs(Overlay(Live(d, v).entities[oid].bytes, offset, data), from, size);
    hide StretchOf, Overlaid;
  }

  // ---- Sizes ----------------------------------------------------------------------------------------

  /** The object table of a commit has the pending lengths for sizes. */
  lemma StageObjects(d: Disk, v: Vol)
    requires Sound(d, v) && !Prepare(v).flow.Failed()
    ensures FinalStage(v).objects.Keys == v.view.objects.Keys
    ensures forall k | k in v.view.objects :: FinalStage(v).objects[k] == Moved(v, k)
  {
    hide Sound, Prepare, Ready, WriteObjects, ExtentsPlaced, Moved;
    StageSucceeds(v);
    SoundReady(d, v);
    var keys := AllKeys(v);
    StageHolds(v, Core(d, v.HighWater()), keys, |keys|);
    assert keys[..|keys|] == keys;
  }

  lemma StageSucceeds(v: Vol)
    requires !Prepare(v).flow.Failed()
    ensures !FinalStage(v).flow.Failed()
  {
    hide Prepare, WriteForest, FinalStage;
    PrepareShape(v);
    ForestGrows(v, FinalStage(v));
  }

  /** After a commit the size of a file is the length of its pending bytes, if it had any. */
  lemma CommitSizes(d: Disk, v: Vol)
    requires Sound(d, v) && !v.Clean() && RoomFor(v) && Remountable(v)
    ensures RING_SLOTS <= v.HighWater() <= v.Total() <= |d| && CommitEnding(d, v).Done?
    ensures var w := CommitEnding(d, v).vol;
      w.view.objects.Keys == v.view.objects.Keys && forall k | k in v.view.objects :: w.view.objects[k] == Moved(v, k)
  {
    hide Sound, RoomFor, Remountable, Prepare, BodyOk, NewVolume, SameVolume, FinalStage;
    CommitRefines(d, v);
    RoomIff(d, v);
    PrepareBody(d, v);
    CommitRefinesBody(d, v, Prepare(v), FinalStage(v));
    StageObjects(d, v);
    SameObjects(CommitEnding(d, v).vol, v, Prepare(v), FinalStage(v));
  }

  lemma SameObjects(w: Vol, v: Vol, p: Prepared, s: Stage)
    requires SameVolume(w, NewVolume(v, p, s, 0))
    ensures w.view.objects == s.objects
  {
  }

  /** Exactly when a commit keeps every size a client was shown: when each file with pending bytes has as
      many as its size says. A write that lost the tail of a file has fewer. */
  lemma CommitKeepsSizesIff(d: Disk, v: Vol)
    requires Sound(d, v) && !v.Clean() && RoomFor(v) && Remountable(v)
    ensures RING_SLOTS <= v.HighWater() <= v.Total() <= |d| && CommitEnding(d, v).Done?
    ensures CommitEnding(d, v).vol.view.objects.Keys == v.view.objects.Keys
    ensures (forall k | k in v.view.objects :: CommitEnding(d, v).vol.view.objects[k].size == v.view.objects[k].size)
            <==> (forall k | k in v.view.objects && k in v.dirty :: |v.dirty[k]| == v.view.objects[k].size)
  {
    hide Sound, RoomFor, Remountable, Prepare, CommitEnding;
    CommitSizes(d, v);
    SoundParts(d, v);
    var w := CommitEnding(d, v).vol;
    forall k | k in v.view.objects
      ensures w.view.objects[k].size == v.view.objects[k].size
          <==> (k in v.dirty ==> |v.dirty[k]| == v.view.objects[k].size)
    {
      assert w.view.objects[k] == Moved(v, k);
    }
  }

  // ---- Blocks ---------------------------------------------------------------------------------------

  /** The eight sectors from `at` on hold chunk `c` of `data`, and zeros behind its end. */
  predicate HoldsBlock(e: Disk, at: nat, data: seq<byte>, c: nat) {
    at + 8 <= |e| && forall b: nat | b < 4096 ::
      && e[at + b / 512].Data? && |e[at + b / 512].bytes| == 512
      && e[at + b / 512].bytes[b % 512] == if 4096 * c + b < |data| then data[4096 * c + b] else 0
  }

  /** Where a commit leaves the chunks of a file: those of a pending file go to sectors that were free,
      padded with zeros, and those of any other file stay in their sectors as they are. */
  ghost predicate Placed(d: Disk, v: Vol, e: Disk, w: Vol, oid: nat, c: nat) {
    (oid, c) in w.view.extents && var at := w.view.extents[(oid, c)];
      if oid in v.dirty then v.HighWater() <= at && HoldsBlock(e, at, v.dirty[oid], c)
      else (oid, c) in v.view.extents && at == v.view.extents[(oid, c)] && at + 8 <= |d| == |e|
           && forall s | at <= s < at + 8 :: e[s] == d[s]
  }

  lemma CommitPlaces(d: Disk, v: Vol, oid: nat, c: nat)
    requires Sound(d, v) && !v.Clean() && RoomFor(v) && Remountable(v) && IsFile(v, oid)
    requires 4096 * c < (if oid in v.dirty then |v.dirty[oid]| else v.view.objects[oid].size)
    ensures RING_SLOTS <= v.HighWater() <= v.Total() <= |d| && CommitEnding(d, v).Done?
    ensures Placed(d, v, CommitDisk(d, v), CommitEnding(d, v).vol, oid, c)
  {
    hide Sound, RoomFor, Remountable, Prepare, BodyOk, NewVolume, FinalStage, Placed, Publish, Ready, Closed;
    hide WriteForest;
    CommitRefines(d, v);
    RoomIff(d, v);
    PrepareBody(d, v);
    CommitRefinesBody(d, v, Prepare(v), FinalStage(v));
    SameExtents(CommitEnding(d, v).vol, v, Prepare(v), FinalStage(v));
    SoundBounds(d, v);
    SoundReady(d, v);
    PrepareCloses(v);
    PublishHolds(d, v, Prepare(v));
    StageSucceeds(v);
    BodyHoldsFiles(d, v, CommitDisk(d, v));
    ChunkPlaced(d, v, CommitDisk(d, v), CommitEnding(d, v).vol, oid, c);
  }

  lemma SameExtents(w: Vol, v: Vol, p: Prepared, s: Stage)
    requires SameVolume(w, NewVolume(v, p, s, 0))
    ensures w.view.extents == NewExtents(s, v.Total())
  {
  }

  lemma BodyHoldsFiles(d: Disk, v: Vol, e: Disk)
    requires Sound(d, v) && v.HighWater() <= |d| && !Prepare(v).flow.Failed()
    requires Knows(Core(d, v.HighWater()), e) && Written(e, Prepare(v).flow)
    ensures HoldsFiles(v, Core(d, v.HighWater()), AllKeys(v), FinalStage(v), e)
  {
    hide Sound, DiskOk, Mount, Prepare, WriteForest, WriteObjects, ViewOk, Ready, Knows, Core;
    SoundBounds(d, v);
    SoundReady(d, v);
    PrepareShape(v);
    ForestGrows(v, FinalStage(v));
    StageFinishes(v, Core(d, v.HighWater()), AllKeys(v));
    WrittenBefore(e, FinalStage(v).flow, Prepare(v).flow);
  }

  lemma ChunkPlaced(d: Disk, v: Vol, e: Disk, w: Vol, oid: nat, c: nat)
    requires v.HighWater() <= |d| == |e| && IsFile(v, oid) && c < Chunks(Moved(v, oid).size)
    requires HoldsFiles(v, Core(d, v.HighWater()), AllKeys(v), FinalStage(v), e)
    requires StageDone(v, Core(d, v.HighWater()), AllKeys(v), FinalStage(v))
    requires w.view.extents == NewExtents(FinalStage(v), v.Total())
    requires forall s | RING_SLOTS <= s < v.HighWater() :: e[s] == d[s]
    ensures Placed(d, v, e, w, oid, c)
  {
    hide FinalStage, AllKeys, NewExtents, HoldsFiles, StageDone, HoldsBlock, Block, RawByte, ViewOk;
    var core, s := Core(d, v.HighWater()), FinalStage(v);
    NewExtentOf(v, core, AllKeys(v), s, oid, c);
    var x := Extent(oid, c, w.view.extents[(oid, c)]);
    ExtentHolds(v, core, AllKeys(v), s, e, x);
    ExtentLies(v, core, AllKeys(v), s, x);
    if oid in v.dirty {
      BlockLies(e, x.sector, v.dirty[oid], c);
    }
  }

  lemma ExtentLies(v: Vol, core: Disk, keys: seq<nat>, s: Stage, x: Extent)
    requires StageDone(v, core, keys, s) && x in s.extents
    ensures x.slot in v.dirty ==> v.HighWater() <= x.sector
    ensures x.slot !in v.dirty ==> BlockAt(core, x.sector) && (x.slot, x.chunk) in v.view.extents
                                   && v.view.extents[(x.slot, x.chunk)] == x.sector
  {
    assert ExtentFrom(v, s, x);
  }

  lemma BlockLies(e: Disk, at: nat, data: seq<byte>, c: nat)
    requires BlockAt(e, at)
    requires forall k: nat {:trigger RawByte(e, at, k)} | k < CHUNK_SIZE :: RawByte(e, at, k) == Block(data, c)[k]
    ensures HoldsBlock(e, at, data, c)
  {
    forall b: nat | b < 4096
      ensures e[at + b / 512].Data? && |e[at + b / 512].bytes| == 512
      ensures e[at + b / 512].bytes[b % 512] == if 4096 * c + b < |data| then data[4096 * c + b] else 0
    {
      assert RawByte(e, at, b) == Block(data, c)[b];
      assert at <= at + b / 512 < at + 8;
    }
  }
}
