/** The file loop of a commit: which extents it produces, where, and holding what. */
module StageProofs {
  import opened ArcTypes
  import opened Keys
  import opened Writer
  import opened Soundness

  // ---- Closed forms of the two inner loops -----------------------------------------------------

  function FreshExtents(oid: nat, cursor: nat, n: nat): (l: seq<Extent>)
    ensures |l| == n
  {
    seq(n, c requires 0 <= c < n => Extent(oid, c, cursor + NODE_SECTORS * c))
  }

  function KeptExtents(oid: nat, slot: nat, extents: map<(nat, nat), nat>, n: nat): (l: seq<Extent>)
    requires forall c: nat | c < n :: (slot, c) in extents
    ensures |l| == n
  {
    seq(n, c requires 0 <= c < n => Extent(oid, c, extents[(slot, c)]))
  }

  /** Chunk `c` of `data` was written in the eight sectors from offset `at` of the flow. */
  predicate HoldsChunk(out: seq<Sector>, at: nat, data: seq<byte>, c: nat) {
    at + NODE_SECTORS <= |out| && out[at..at + NODE_SECTORS] == BlockRun(Block(data, c))
  }

  lemma StretchStands(out: seq<Sector>, more: seq<Sector>, at: nat)
    requires at + NODE_SECTORS <= |out|
    ensures (out + more)[at..at + NODE_SECTORS] == out[at..at + NODE_SECTORS]
  {
  }

  lemma {:induction false} WriteChunksForm(s: Stage, oid: nat, data: seq<byte>, n: nat)
    requires !WriteChunks(s, oid, data, n).flow.Failed()
    ensures var r := WriteChunks(s, oid, data, n);
      !s.flow.Failed()
      && r.extents == s.extents + FreshExtents(oid, s.flow.Cursor(), n)
      && |r.flow.out| == |s.flow.out| + NODE_SECTORS * n
      && forall c: nat | c < n :: HoldsChunk(r.flow.out, |s.flow.out| + NODE_SECTORS * c, data, c)
  {
    if n != 0 {
      var p, r := WriteChunks(s, oid, data, n - 1), WriteChunks(s, oid, data, n);
      WriteChunksForm(s, oid, data, n - 1);
      assert FreshExtents(oid, s.flow.Cursor(), n)
          == FreshExtents(oid, s.flow.Cursor(), n - 1) + [Extent(oid, n - 1, p.flow.Cursor())];
      assert r.flow.out == p.flow.out + BlockRun(Block(data, n - 1));
      forall c: nat | c < n
        ensures HoldsChunk(r.flow.out, |s.flow.out| + NODE_SECTORS * c, data, c)
      {
        var at := |s.flow.out| + NODE_SECTORS * c;
        if c < n - 1 {
          assert HoldsChunk(p.flow.out, at, data, c);
          StretchStands(p.flow.out, BlockRun(Block(data, n - 1)), at);
        } else {
          assert r.flow.out[at..at + NODE_SECTORS] == BlockRun(Block(data, c));
        }
      }
    }
  }

  lemma {:induction false} KeepChunksForm(s: Stage, oid: nat, slot: nat, extents: map<(nat, nat), nat>, n: nat)
    requires !s.flow.Failed() && forall c: nat | c < n :: (slot, c) in extents
    ensures var r := KeepChunks(s, oid, slot, extents, n);
      r == s.(extents := s.extents + KeptExtents(oid, slot, extents, n))
  {
    if n != 0 {
      KeepChunksForm(s, oid, slot, extents, n - 1);
      assert KeptExtents(oid, slot, extents, n)
          == KeptExtents(oid, slot, extents, n - 1) + [Extent(oid, n - 1, extents[(slot, n - 1)])];
    }
  }

  // ---- The invariant of the outer loop ---------------------------------------------------------

  /** The object a commit writes for `oid`: its own data slot, its actual size. */
  function Moved(v: Vol, oid: nat): Object
    requires oid in v.view.objects
  {
    var obj := v.view.objects[oid];
    if obj.kind != FILE then obj
    else obj.(dataSlot := oid, size := if oid in v.dirty then |v.dirty[oid]| else obj.size)
  }

  /** An extent is either freshly written with its chunk, or one the volume already had. */
  ghost predicate ExtentFrom(v: Vol, s: Stage, x: Extent) {
    x.slot in v.view.objects && v.view.objects[x.slot].kind == FILE && x.chunk < Chunks(Moved(v, x.slot).size) &&
    if x.slot in v.dirty then
      x.sector >= s.flow.start && HoldsChunk(s.flow.out, x.sector - s.flow.start, v.dirty[x.slot], x.chunk)
    else
      (x.slot, x.chunk) in v.view.extents && x.sector == v.view.extents[(x.slot, x.chunk)]
  }

  ghost predicate Distinct(l: seq<Extent>) {
    forall i, j | 0 <= i < j < |l| ::
      (l[i].slot, l[i].chunk) != (l[j].slot, l[j].chunk) && Apart(l[i].sector, l[j].sector)
  }

  ghost predicate HasChunk(l: seq<Extent>, slot: nat, chunk: nat) {
    exists i :: 0 <= i < |l| && l[i].slot == slot && l[i].chunk == chunk
  }

  /** The objects, whether or not the loop ran out of space. */
  ghost predicate ObjectsMoved(v: Vol, keys: seq<nat>, n: nat, s: Stage)
    requires n <= |keys|
  {
    s.objects.Keys == v.view.objects.Keys
    && (forall k | k in s.objects :: s.objects[k] == v.view.objects[k] || s.objects[k] == Moved(v, k))
    && (forall k | k in s.objects && k !in keys[..n] :: s.objects[k] == v.view.objects[k])
    && (!s.flow.Failed() ==> forall k | k in keys[..n] :: k in s.objects && s.objects[k] == Moved(v, k))
  }

  /** The extents, while there is space. */
  ghost predicate ExtentsPlaced(v: Vol, keys: seq<nat>, n: nat, s: Stage)
    requires n <= |keys|
  {
    (forall i | 0 <= i < |s.extents| :: ExtentFrom(v, s, s.extents[i]) && s.extents[i].slot in keys[..n])
    && Distinct(s.extents)
    && (forall k, c: nat {:trigger HasChunk(s.extents, k, c)} ::
          k in keys[..n] && k in v.view.objects && v.view.objects[k].kind == FILE && c < Chunks(Moved(v, k).size)
          ==> HasChunk(s.extents, k, c))
  }

  ghost predicate Ready(v: Vol, core: Disk, keys: seq<nat>) {
    |core| == v.HighWater()
    && ViewOk(v.view, v.dirty.Keys, core)
    && (forall k | k in v.dirty :: k in v.view.objects && v.view.objects[k].kind == FILE)
    && Increasing(keys) && (forall k | k in keys :: k in v.view.objects)
  }

  lemma HasAppended(l: seq<Extent>, m: seq<Extent>)
    ensures forall k, c | HasChunk(l, k, c) || HasChunk(m, k, c) :: HasChunk(l + m, k, c)
  {
    forall k, c | HasChunk(l, k, c) || HasChunk(m, k, c)
      ensures HasChunk(l + m, k, c)
    {
      if HasChunk(l, k, c) {
        var i :| 0 <= i < |l| && l[i].slot == k && l[i].chunk == c;
        assert (l + m)[i] == l[i];
      } else {
        var i :| 0 <= i < |m| && m[i].slot == k && m[i].chunk == c;
        assert (l + m)[|l| + i] == m[i];
      }
    }
  }

  lemma FromKept(v: Vol, s: Stage, r: Stage, x: Extent)
    requires ExtentFrom(v, s, x) && s.flow.out <= r.flow.out && s.flow.start == r.flow.start
    ensures ExtentFrom(v, r, x)
  {
    if x.slot in v.dirty {
      var at := x.sector - s.flow.start;
      assert r.flow.out[at..at + NODE_SECTORS] == s.flow.out[at..at + NODE_SECTORS];
    }
  }

  /** Every extent lies below the cursor, and outside the ring. */
  lemma FromBelow(v: Vol, core: Disk, keys: seq<nat>, s: Stage, x: Extent)
    requires Ready(v, core, keys) && s.flow.start == v.HighWater() && ExtentFrom(v, s, x)
    ensures x.sector + NODE_SECTORS <= s.flow.Cursor()
    ensures x.slot !in v.dirty ==> x.sector + NODE_SECTORS <= v.HighWater()
  {
    if x.slot !in v.dirty {
      assert BlockAt(core, v.view.extents[(x.slot, x.chunk)]);
    }
  }

  lemma NotYet(keys: seq<nat>, n: nat)
    requires Increasing(keys) && 0 < n <= |keys|
    ensures keys[n - 1] !in keys[..n - 1]
    ensures keys[..n] == keys[..n - 1] + [keys[n - 1]]
  {
  }

  /** One file: the objects. */
  lemma ObjectStep(v: Vol, keys: seq<nat>, n: nat, s: Stage)
    requires 0 < n <= |keys| && Increasing(keys) && (forall k | k in keys :: k in v.view.objects)
    requires ObjectsOk(v.view.objects)
    requires ObjectsMoved(v, keys, n - 1, s)
    requires forall k | k in v.dirty :: k in v.view.objects && v.view.objects[k].kind == FILE
    ensures ObjectsMoved(v, keys, n, WriteObject(s, v, keys[n - 1]))
  {
    NotYet(keys, n);
    var oid := keys[n - 1];
    var r := WriteObject(s, v, oid);
    assert s.objects[oid] == v.view.objects[oid];
    if !s.flow.Failed() {
      assert r.objects == s.objects[oid := Moved(v, oid)];
    }
  }

  /** A clean file has its own data slot and all its extents. */
  lemma ReadyFile(v: Vol, core: Disk, keys: seq<nat>, oid: nat)
    requires Ready(v, core, keys) && oid in v.view.objects
    ensures v.view.objects[oid].kind == FILE ==> v.view.objects[oid].dataSlot == oid
    ensures v.view.objects[oid].kind == FILE && oid !in v.dirty ==>
      forall c: nat | c < Chunks(v.view.objects[oid].size) :: (oid, c) in v.view.extents
  {
  }

  /** The extents one file of the loop adds: its chunks in order, each freshly written or kept. */
  ghost predicate AddedFrom(v: Vol, s: Stage, r: Stage, oid: nat, added: seq<Extent>) {
    && s.flow.out <= r.flow.out && r.flow.start == s.flow.start && r.extents == s.extents + added
    && (forall i | 0 <= i < |added| :: added[i].slot == oid && added[i].chunk == i && ExtentFrom(v, r, added[i]))
    && (oid in v.dirty ==> forall i | 0 <= i < |added| :: added[i].sector == s.flow.Cursor() + NODE_SECTORS * i)
  }

  lemma DirtyAdds(v: Vol, s: Stage, oid: nat) returns (added: seq<Extent>)
    requires oid in s.objects && oid in v.view.objects && s.objects[oid] == v.view.objects[oid] && oid in v.dirty
    requires s.objects[oid].kind == FILE && !s.flow.Failed() && !WriteObject(s, v, oid).flow.Failed()
    ensures AddedFrom(v, s, WriteObject(s, v, oid), oid, added) && |added| == Chunks(Moved(v, oid).size)
  {
    hide WriteChunks, Block, BlockRun, HoldsChunk;
    var data, count := v.dirty[oid], Chunks(|v.dirty[oid]|);
    var moved := s.(objects := s.objects[oid := s.objects[oid].(dataSlot := oid, size := |data|)]);
    WriteChunksForm(moved, oid, data, count);
    added := FreshExtents(oid, s.flow.Cursor(), count);
    var r := WriteChunks(moved, oid, data, count);
    assert WriteObject(s, v, oid) == r;
    forall i | 0 <= i < |added|
      ensures ExtentFrom(v, r, added[i])
    {
      assert HoldsChunk(r.flow.out, |s.flow.out| + NODE_SECTORS * i, data, i);
      assert added[i].sector - r.flow.start == |s.flow.out| + NODE_SECTORS * i;
    }
  }

  lemma CleanAdds(v: Vol, s: Stage, oid: nat) returns (added: seq<Extent>)
    requires oid in s.objects && oid in v.view.objects && s.objects[oid] == v.view.objects[oid] && oid !in v.dirty
    requires s.objects[oid].kind == FILE && s.objects[oid].dataSlot == oid && !s.flow.Failed()
    requires forall c: nat | c < Chunks(s.objects[oid].size) :: (oid, c) in v.view.extents
    ensures AddedFrom(v, s, WriteObject(s, v, oid), oid, added) && |added| == Chunks(Moved(v, oid).size)
  {
    hide KeepChunks, HoldsChunk;
    var obj := s.objects[oid];
    KeepChunksForm(s.(objects := s.objects[oid := obj.(dataSlot := oid)]), oid, oid, v.view.extents, Chunks(obj.size));
    added := KeptExtents(oid, oid, v.view.extents, Chunks(obj.size));
  }

  /** One file: the appended extents. */
  lemma ExtentStep(v: Vol, core: Disk, keys: seq<nat>, n: nat, s: Stage)
    requires Ready(v, core, keys) && 0 < n <= |keys|
    requires s.flow.start == v.HighWater() && ObjectsMoved(v, keys, n - 1, s)
    requires !s.flow.Failed() && ExtentsPlaced(v, keys, n - 1, s)
    requires !WriteObject(s, v, keys[n - 1]).flow.Failed()
    ensures ExtentsPlaced(v, keys, n, WriteObject(s, v, keys[n - 1]))
    ensures var oid := keys[n - 1];
      |WriteObject(s, v, oid).extents|
      == |s.extents| + if v.view.objects[oid].kind == FILE then Chunks(Moved(v, oid).size) else 0
  {
    hide Ready, ExtentsPlaced, ObjectsMoved, WriteObject, AddedFrom;
    var oid := keys[n - 1];
    KeysInside(v, core, keys);
    ReadyFile(v, core, keys, oid);
    StillOld(v, keys, n, s);
    var r := WriteObject(s, v, oid);
    if v.view.objects[oid].kind != FILE {
      OthersKept(v, s, oid);
      NoneAdded(v, keys, n, s);
    } else {
      var added: seq<Extent>;
      if oid in v.dirty {
        added := DirtyAdds(v, s, oid);
      } else {
        added := CleanAdds(v, s, oid);
      }
      AddedCount(v, s, r, oid, added);
      AddedPlaced(v, core, keys, n, s, r, added);
    }
  }

  /** The object whose turn it is has not been touched. */
  lemma StillOld(v: Vol, keys: seq<nat>, n: nat, s: Stage)
    requires Increasing(keys) && 0 < n <= |keys| && keys[n - 1] in v.view.objects && ObjectsMoved(v, keys, n - 1, s)
    ensures keys[n - 1] in s.objects && s.objects[keys[n - 1]] == v.view.objects[keys[n - 1]]
  {
    NotYet(keys, n);
  }

  lemma OthersKept(v: Vol, s: Stage, oid: nat)
    requires oid in s.objects && s.objects[oid].kind != FILE
    ensures WriteObject(s, v, oid) == s
  {
  }

  lemma NoneAdded(v: Vol, keys: seq<nat>, n: nat, s: Stage)
    requires Increasing(keys) && 0 < n <= |keys| && keys[n - 1] in v.view.objects
    requires v.view.objects[keys[n - 1]].kind != FILE
    requires ExtentsPlaced(v, keys, n - 1, s)
    ensures ExtentsPlaced(v, keys, n, s)
  {
    hide ExtentFrom, HasChunk, Distinct;
    NotYet(keys, n);
  }

  lemma AddedCount(v: Vol, s: Stage, r: Stage, oid: nat, added: seq<Extent>)
    requires AddedFrom(v, s, r, oid, added)
    ensures |r.extents| == |s.extents| + |added|
  {
    hide ExtentFrom;
  }

  /** All chunks of one file are placed. */
  lemma AddedPlaced(v: Vol, core: Disk, keys: seq<nat>, n: nat, s: Stage, r: Stage, added: seq<Extent>)
    requires Ready(v, core, keys) && Increasing(keys) && 0 < n <= |keys| && keys[n - 1] in v.view.objects
    requires s.flow.start == v.HighWater() && ExtentsPlaced(v, keys, n - 1, s)
    requires AddedFrom(v, s, r, keys[n - 1], added) && |added| == Chunks(Moved(v, keys[n - 1]).size)
    ensures ExtentsPlaced(v, keys, n, r)
  {
    hide Ready, ExtentFrom, Distinct;
    NotYet(keys, n);
    var oid := keys[n - 1];
    AppendDistinct(v, core, keys, s, r, added);
    forall i | 0 <= i < |s.extents|
      ensures ExtentFrom(v, r, s.extents[i])
    {
      FromKept(v, s, r, s.extents[i]);
    }
    HasAppended(s.extents, added);
    forall c: nat | c < |added|
      ensures HasChunk(added, oid, c)
    {
      assert added[c].chunk == c;
    }
    hide HasChunk;
  }

  lemma AppendDistinct(v: Vol, core: Disk, keys: seq<nat>, s: Stage, r: Stage, added: seq<Extent>)
    requires Ready(v, core, keys) && s.flow.start == v.HighWater() == r.flow.start && s.flow.out <= r.flow.out
    requires Distinct(s.extents) && forall i | 0 <= i < |s.extents| :: ExtentFrom(v, s, s.extents[i])
    requires forall i | 0 <= i < |added| :: ExtentFrom(v, r, added[i]) && added[i].chunk == i
    requires forall i, j | 0 <= i < |added| && 0 <= j < |added| :: added[i].slot == added[j].slot
    requires forall i, j | 0 <= i < |s.extents| && 0 <= j < |added| :: s.extents[i].slot != added[j].slot
    requires forall i | 0 <= i < |added| && added[i].slot in v.dirty ::
        added[i].sector == s.flow.Cursor() + NODE_SECTORS * i
    ensures Distinct(s.extents + added)
  {
    var l := s.extents + added;
    forall i, j | 0 <= i < j < |l|
      ensures (l[i].slot, l[i].chunk) != (l[j].slot, l[j].chunk) && Apart(l[i].sector, l[j].sector)
    {
      var a, b := l[i], l[j];
      if j >= |s.extents| {
        assert b == added[j - |s.extents|];
        if i < |s.extents| {
          FromBelow(v, core, keys, s, a);
          if b.slot !in v.dirty {
            FromBelow(v, core, keys, r, b);
          }
        } else {
          assert a == added[i - |s.extents|];
        }
      }
    }
  }

  /** The invariant holds after every iteration. */
  lemma {:induction false} StageHolds(v: Vol, core: Disk, keys: seq<nat>, n: nat)
    requires Ready(v, core, keys) && n <= |keys|
    ensures ObjectsMoved(v, keys, n, WriteObjects(v, keys, n))
    ensures !WriteObjects(v, keys, n).flow.Failed() ==> ExtentsPlaced(v, keys, n, WriteObjects(v, keys, n))
    ensures WriteObjects(v, keys, n).flow.SpaceOnly()
  {
    hide *;
    if n == 0 {
      NothingWritten(v, core, keys);
    } else {
      KeysInside(v, core, keys);
      StageHolds(v, core, keys, n - 1);
      WriteStep(v, keys, n);
      StageKeeps(v, core, keys, n, WriteObjects(v, keys, n - 1));
    }
  }

  lemma KeysInside(v: Vol, core: Disk, keys: seq<nat>)
    requires Ready(v, core, keys)
    ensures Increasing(keys) && forall k | k in keys :: k in v.view.objects
  {
  }

  lemma NothingWritten(v: Vol, core: Disk, keys: seq<nat>)
    requires Ready(v, core, keys)
    ensures ObjectsMoved(v, keys, 0, WriteObjects(v, keys, 0)) && ExtentsPlaced(v, keys, 0, WriteObjects(v, keys, 0))
    ensures WriteObjects(v, keys, 0).flow.SpaceOnly()
  {
    hide ViewOk;
  }

  lemma WriteStep(v: Vol, keys: seq<nat>, n: nat)
    requires 0 < n <= |keys| && forall k | k in keys :: k in v.view.objects
    ensures WriteObjects(v, keys, n) == WriteObject(WriteObjects(v, keys, n - 1), v, keys[n - 1])
  {
    hide WriteObject;
  }

  /** One iteration keeps the invariant. */
  lemma StageKeeps(v: Vol, core: Disk, keys: seq<nat>, n: nat, s: Stage)
    requires Ready(v, core, keys) && 0 < n <= |keys| && s.flow.start == v.HighWater()
    requires ObjectsMoved(v, keys, n - 1, s) && s.flow.SpaceOnly()
    requires !s.flow.Failed() ==> ExtentsPlaced(v, keys, n - 1, s)
    requires keys[n - 1] in s.objects
    ensures ObjectsMoved(v, keys, n, WriteObject(s, v, keys[n - 1]))
    ensures !WriteObject(s, v, keys[n - 1]).flow.Failed() ==> ExtentsPlaced(v, keys, n, WriteObject(s, v, keys[n - 1]))
    ensures WriteObject(s, v, keys[n - 1]).flow.SpaceOnly()
  {
    hide ObjectsOk, NamesOk, Covered, ExtentsOk, ExtentsPlaced, WriteChunks, KeepChunks;
    var oid := keys[n - 1];
    ObjectStep(v, keys, n, s);
    NotYet(keys, n);
    var obj := s.objects[oid];
    assert obj == v.view.objects[oid];
    if !s.flow.Failed() {
      if obj.kind == FILE && oid !in v.dirty {
        ReadyFile(v, core, keys, oid);
        KeepChunksForm(s.(objects := s.objects[oid := obj.(dataSlot := oid)]), oid, obj.dataSlot, v.view.extents,
            Chunks(obj.size));
      }
      if !WriteObject(s, v, oid).flow.Failed() {
        ExtentStep(v, core, keys, n, s);
      }
    }
  }
}
