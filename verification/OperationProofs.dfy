/** What each in-memory operation does to the file system, and that it keeps the invariant. */
module OperationProofs {
  import opened ArcTypes
  import opened Reader
  import opened Soundness
  import opened Operations

  /** A change that only touches the in-memory side. */
  lemma PendingSound(d: Disk, v: Vol, w: Vol)
    requires Sound(d, v) && w.super == v.super && w.checkpoint == v.checkpoint && !w.Clean() && VolumeOk(d, w)
    ensures Sound(d, w)
  {
    hide VolumeOk, DiskOk, Mount;
  }

  /** Every pending file is a file, large enough for its pending bytes. */
  predicate PendingOk(v: Vol) {
    forall k | k in v.dirty ::
        k in v.view.objects && v.view.objects[k].kind == FILE && |v.dirty[k]| <= v.view.objects[k].size
  }

  predicate FreshOid(v: Vol) {
    v.nextOid >= 2 && forall k | k in v.view.objects :: k < v.nextOid
  }

  /** A change of objects, entries and pending bytes that keeps their parts of the invariant. */
  lemma EditSound(d: Disk, v: Vol, w: Vol)
    requires Sound(d, v) && !w.Clean()
    requires w.super == v.super && w.checkpoint == v.checkpoint
    requires w.snapshots == v.snapshots && w.nextSnapshot == v.nextSnapshot
    requires w.view.extents == v.view.extents
    requires ObjectsOk(w.view.objects) && NamesOk(w.view.names, w.view.objects) && Covered(w.view, w.dirty.Keys)
    requires PendingOk(w) && FreshOid(w)
    ensures Sound(d, w)
  {
    hide DiskOk, Mount, Sound, SnapshotsOk, ObjectsOk, NamesOk, Covered, ExtentsOk;
    SoundVolume(d, v);
    PendingSound(d, v, w);
  }

  /** The parts of the invariant an edit starts from. */
  lemma SoundParts(d: Disk, v: Vol)
    requires Sound(d, v)
    ensures ObjectsOk(v.view.objects) && NamesOk(v.view.names, v.view.objects) && Covered(v.view, v.dirty.Keys)
    ensures PendingOk(v) && FreshOid(v) && v.HighWater() <= |d|
    ensures ExtentsOk(v.view.extents, Core(d, v.HighWater()))
  {
    hide DiskOk, Mount, Sound, SnapshotsOk, ObjectsOk, NamesOk, Covered, ExtentsOk;
    SoundVolume(d, v);
  }

  lemma SoundVolume(d: Disk, v: Vol)
    requires Sound(d, v)
    ensures VolumeOk(d, v)
  {
    hide VolumeOk, DiskOk, Mount;
  }

  lemma PlusOne(names: seq<DirEntry>, e: DirEntry)
    ensures multiset(names + [e]) == multiset(names) + multiset{e}
    ensures forall x :: x in names + [e] <==> x in names || x == e
  {
  }

  lemma MinusOne(names: seq<DirEntry>, i: nat)
    requires i < |names|
    ensures multiset(Without(names, i)) == multiset(names) - multiset{names[i]}
    ensures |Without(names, i)| == |names| - 1
  {
    assert names == names[..i] + [names[i]] + names[i + 1..];
  }

  lemma Members(s: seq<DirEntry>)
    ensures forall x :: x in s <==> x in multiset(s)
  {
  }

  lemma Replaced(names: seq<DirEntry>, i: nat, e: DirEntry)
    requires i < |names|
    ensures multiset(names[i := e]) == multiset(names) - multiset{names[i]} + multiset{e}
  {
    assert names == names[..i] + [names[i]] + names[i + 1..];
    assert names[i := e] == names[..i] + [e] + names[i + 1..];
  }

  // ---- Create -----------------------------------------------------------------------------------

  /** The file system with one more, empty, object. */
  function WithObject(fs: FileSystem, e: DirEntry, kind: nat): FileSystem {
    FileSystem(fs.entities[e.child := Entity(kind, 0, [])], fs.names + multiset{e}, fs.attributes)
  }

  lemma NamesAdded(names: seq<DirEntry>, objects: map<nat, Object>, larger: map<nat, Object>, e: DirEntry)
    requires NamesOk(names, objects) && ValidName(e.name) && e.child !in objects && e.child != ROOT_OID
    requires e.parent in objects && objects[e.parent].kind == DIRECTORY && Find(names, e.parent, e.name).None?
    requires larger.Keys == objects.Keys + {e.child} && forall k | k in objects :: larger[k] == objects[k]
    ensures NamesOk(names + [e], larger)
  {
    PlusOne(names, e);
    assert e !in names;
  }

  /** Creating adds exactly one empty object under a fresh identifier, and keeps the invariant. */
  lemma CreateAdds(d: Disk, v: Vol, parent: nat, name: Name, kind: nat)
    requires Sound(d, v) && ValidName(name) && IsDirectory(v, parent) && Find(v.view.names, parent, name).None?
    requires kind == FILE || kind == DIRECTORY
    ensures var w := AddObject(v, parent, name, kind);
      Sound(d, w) && v.nextOid !in v.view.objects
      && Live(d, w) == WithObject(Live(d, v), DirEntry(parent, name, v.nextOid), kind)
      && w.view.objects
         == v.view.objects[v.nextOid := Object(v.nextOid, 0, kind, 0, if kind == 1 then v.nextOid else 0)]
      && w.view.names == v.view.names + [DirEntry(parent, name, v.nextOid)]
      && w.dirty - {v.nextOid} == v.dirty - {v.nextOid}
      && w == v.(view := w.view, dirty := w.dirty, nextOid := v.nextOid + 1, metadataDirty := true)
  {
    hide Sound, NamesOk, ExtentsOk, FileSystemOf;
    SoundParts(d, v);
    var w := AddObject(v, parent, name, kind);
    NamesAdded(v.view.names, v.view.objects, w.view.objects, DirEntry(parent, name, v.nextOid));
    EditSound(d, v, w);
    CreateLive(d, v, parent, name, kind);
  }

  lemma CreateLive(d: Disk, v: Vol, parent: nat, name: Name, kind: nat)
    requires v.nextOid !in v.view.objects && (kind == FILE || kind == DIRECTORY)
    ensures Live(d, AddObject(v, parent, name, kind)) == WithObject(Live(d, v), DirEntry(parent, name, v.nextOid), kind)
  {
    var w, e := AddObject(v, parent, name, kind), DirEntry(parent, name, v.nextOid);
    var a, b := Live(d, w).entities, WithObject(Live(d, v), e, kind).entities;
    assert a.Keys == b.Keys;
    forall k | k in a
      ensures a[k] == b[k]
    {
    }
    assert a == b;
    PlusOne(v.view.names, e);
  }

  /** Byte `b` of a data slot is `x`: the byte its chunk's sector holds, or zero if the chunk has no extent. */
  predicate ByteFrom(d: Disk, extents: map<(nat, nat), nat>, slot: nat, b: nat, x: byte) {
    if (slot, b / 4096) in extents then
      var at := extents[(slot, b / 4096)] + b % 4096 / 512;
      at < |d| && (d[at].Data? && |d[at].bytes| == 512 ==> x == d[at].bytes[b % 512])
    else x == 0
  }

  lemma ByteStored(d: Disk, extents: map<(nat, nat), nat>, slot: nat, b: nat, lo: nat, hi: nat)
    requires !BeyondEnd(d, extents, slot, lo, hi) && lo <= b < hi
    ensures ByteFrom(d, extents, slot, b, ByteAt(d, extents, slot, b))
  {
    assert b % 4096 % 512 == b % 512;
    if (slot, b / 4096) in extents {
      var e := extents[(slot, b / 4096)];
      assert e + b % 4096 / 512 < |d| by {
        hide RawByte;
      }
      assert ByteAt(d, extents, slot, b) == RawByte(d, e, b % 4096);
      hide ByteAt, BeyondEnd;
    }
  }

  /** What a read returns on any disk, sound or not. */
  lemma ReadsStored(d: Disk, v: Vol, oid: nat, offset: nat, size: nat)
    requires IsFile(v, oid) && oid !in v.dirty && ReadFile(d, v, oid, offset, size).Ok?
    ensures var r, o := ReadFile(d, v, oid, offset, size).value, v.view.objects[oid];
      && |r| == (if offset >= o.size then 0 else if size < o.size - offset then size else o.size - offset)
      && forall i: nat | i < |r| :: ByteFrom(d, v.view.extents, o.dataSlot, offset + i, r[i])
  {
    var r, o := ReadFile(d, v, oid, offset, size).value, v.view.objects[oid];
    hide ByteAt, BeyondEnd, ByteFrom;
    if offset < o.size && size != 0 {
      var hi := offset + Min(o.size - offset, size);
      forall i: nat | i < |r|
        ensures ByteFrom(d, v.view.extents, o.dataSlot, offset + i, r[i])
      {
        ByteStored(d, v.view.extents, o.dataSlot, offset + i, offset, hi);
      }
    }
  }

  // ---- Remove -----------------------------------------------------------------------------------

  /** The file system without one entry and its object. */
  function WithoutObject(fs: FileSystem, e: DirEntry): FileSystem {
    FileSystem(fs.entities - {e.child}, fs.names - multiset{e}, fs.attributes)
  }

  lemma NamesRemoved(names: seq<DirEntry>, objects: map<nat, Object>, i: nat)
    requires NamesOk(names, objects) && i < |names|
    requires forall e | e in names :: e.parent != names[i].child
    ensures NamesOk(Without(names, i), objects - {names[i].child})
  {
    MinusOne(names, i);
    Members(names);
    Members(Without(names, i));
    var l := Without(names, i);
    forall e | e in l
      ensures e in names && e != names[i] && multiset(l)[e] == 1
    {
      assert multiset(names)[e] == 1;
    }
  }

  /** Removing takes away exactly the named entry and its object, which is a file or an empty directory. */
  lemma RemoveTakes(d: Disk, v: Vol, parent: nat, name: Name)
    requires Sound(d, v) && RemoveChild(v, parent, name).Ok?
    ensures var w, i := RemoveChild(v, parent, name).value, Find(v.view.names, parent, name).value;
      Sound(d, w) && Live(d, w) == WithoutObject(Live(d, v), v.view.names[i])
      && forall e | e in v.view.names :: e.parent != v.view.names[i].child
  {
    hide Sound, ExtentsOk, FileSystemOf;
    SoundParts(d, v);
    var w, i := RemoveChild(v, parent, name).value, Find(v.view.names, parent, name).value;
    NoChildren(v, v.view.names[i].child);
    NamesRemoved(v.view.names, v.view.objects, i);
    assert v.view.names[i] in v.view.names;
    EditSound(d, v, w);
    RemoveLive(d, v, i);
  }

  /** The other entries keep their order; beside the entry, the object and its pending bytes nothing
      changes. */
  lemma RemoveSets(v: Vol, parent: nat, name: Name)
    requires RemoveChild(v, parent, name).Ok?
    ensures var w, i := RemoveChild(v, parent, name).value, Find(v.view.names, parent, name).value;
      && w.view.names == v.view.names[..i] + v.view.names[i + 1..]
      && w.dirty == v.dirty - {v.view.names[i].child} && w.view.objects == v.view.objects - {v.view.names[i].child}
      && w.view.extents == v.view.extents && w == v.(view := w.view, dirty := w.dirty, metadataDirty := true)
  {
  }

  lemma RemoveLive(d: Disk, v: Vol, i: nat)
    requires i < |v.view.names|
    ensures var e := v.view.names[i];
      FileSystemOf(d, v.view.(objects := v.view.objects - {e.child}, names := Without(v.view.names, i)),
          v.dirty - {e.child})
        == WithoutObject(Live(d, v), e)
  {
    var e := v.view.names[i];
    var a := FileSystemOf(d, v.view.(objects := v.view.objects - {e.child}, names := Without(v.view.names, i)),
        v.dirty - {e.child}).entities;
    var b := WithoutObject(Live(d, v), e).entities;
    assert a.Keys == b.Keys;
    forall k | k in a
      ensures a[k] == b[k]
    {
    }
    assert a == b;
    MinusOne(v.view.names, i);
  }

  /** A file has no children, and a directory that may be removed has none either. */
  lemma NoChildren(v: Vol, oid: nat)
    requires NamesOk(v.view.names, v.view.objects)
    requires oid in v.view.objects
    requires (v.view.objects[oid].kind == DIRECTORY ==> !exists e :: e in v.view.names && e.parent == oid)
    ensures forall e | e in v.view.names :: e.parent != oid
  {
  }

  // ---- Rename -----------------------------------------------------------------------------------

  /** The file system with one entry replaced. */
  function WithEntry(fs: FileSystem, a: DirEntry, b: DirEntry): FileSystem {
    FileSystem(fs.entities, fs.names - multiset{a} + multiset{b}, fs.attributes)
  }

  lemma NamesRenamed(names: seq<DirEntry>, objects: map<nat, Object>, i: nat, b: DirEntry)
    requires NamesOk(names, objects) && i < |names| && b.child == names[i].child
    requires ValidName(b.name) && b.parent in objects && objects[b.parent].kind == DIRECTORY
    requires Find(names, b.parent, b.name).None?
    ensures NamesOk(names[i := b], objects)
  {
    assert names[i] in names;
    assert forall e | e in names :: !(e.parent == b.parent && e.name == b.name);
    MembersRenamed(names, i, b);
    hide Find, Readable, ValidName;
  }

  lemma MembersRenamed(names: seq<DirEntry>, i: nat, b: DirEntry)
    requires i < |names| && b !in names && forall e | e in names :: multiset(names)[e] == 1
    ensures forall e | e in names[i := b] ::
        (e == b || (e in names && e != names[i])) && multiset(names[i := b])[e] == 1
  {
    Replaced(names, i, b);
    Members(names);
    Members(names[i := b]);
    assert multiset(names)[b] == 0;
  }

  /** Renaming moves exactly the named entry. */
  lemma RenameMoves(d: Disk, v: Vol, parent: nat, name: Name, newParent: nat, newName: Name)
    requires Sound(d, v) && RenameChild(v, parent, name, newParent, newName).Ok?
    ensures var w, i := RenameChild(v, parent, name, newParent, newName).value, Find(v.view.names, parent, name).value;
      var e := v.view.names[i];
      Sound(d, w) && Live(d, w) == WithEntry(Live(d, v), e, DirEntry(newParent, newName, e.child))
      && w == v.(view := v.view.(names := w.view.names), metadataDirty := true) && |w.view.names| == |v.view.names|
      && forall j | 0 <= j < |v.view.names| && j != i :: w.view.names[j] == v.view.names[j]
  {
    hide Sound, ExtentsOk, NamesOk, ObjectsOk, Covered, PendingOk, FreshOid, Live, Find, ValidName, RenameChild;
    SoundParts(d, v);
    RenameIs(v, parent, name, newParent, newName);
    var i := Find(v.view.names, parent, name).value;
    var b := DirEntry(newParent, newName, v.view.names[i].child);
    NamesRenamed(v.view.names, v.view.objects, i, b);
    WithEntrySound(d, v, i, b);
    WithEntryLive(d, v, i, b);
  }

  /** The volume with entry `i` replaced. */
  function Renamed(v: Vol, i: nat, b: DirEntry): Vol
    requires i < |v.view.names|
  {
    v.(view := v.view.(names := v.view.names[i := b]), metadataDirty := true)
  }

  lemma RenameIs(v: Vol, parent: nat, name: Name, newParent: nat, newName: Name)
    requires RenameChild(v, parent, name, newParent, newName).Ok?
    ensures var found := Find(v.view.names, parent, name);
      && found.Some? && found.value < |v.view.names|
      && RenameChild(v, parent, name, newParent, newName).value
         == Renamed(v, found.value, DirEntry(newParent, newName, v.view.names[found.value].child))
    ensures ValidName(newName) && newParent in v.view.objects && v.view.objects[newParent].kind == DIRECTORY
    ensures Find(v.view.names, newParent, newName).None?
  {
    hide ValidName;
  }

  lemma WithEntrySound(d: Disk, v: Vol, i: nat, b: DirEntry)
    requires Sound(d, v) && i < |v.view.names| && NamesOk(v.view.names[i := b], v.view.objects)
    ensures Sound(d, Renamed(v, i, b))
  {
    hide Sound, ExtentsOk, NamesOk, ObjectsOk;
    SoundParts(d, v);
    EditSound(d, v, Renamed(v, i, b));
  }

  lemma WithEntryLive(d: Disk, v: Vol, i: nat, b: DirEntry)
    requires i < |v.view.names|
    ensures Live(d, Renamed(v, i, b)) == WithEntry(Live(d, v), v.view.names[i], b)
  {
    Replaced(v.view.names, i, b);
    assert FileSystemOf(d, Renamed(v, i, b).view, v.dirty).entities == FileSystemOf(d, v.view, v.dirty).entities;
  }

  // ---- Reading ----------------------------------------------------------------------------------

  /** Extents of a sound volume lie within the disk. */
  lemma NothingBeyondEnd(d: Disk, v: Vol, slot: nat, lo: nat, hi: nat)
    requires v.HighWater() <= |d| && ExtentsOk(v.view.extents, Core(d, v.HighWater()))
    ensures !BeyondEnd(d, v.view.extents, slot, lo, hi)
  {
    forall i: nat | lo <= i < hi && (slot, i / CHUNK_SIZE) in v.view.extents
      ensures v.view.extents[(slot, i / CHUNK_SIZE)] + (i % CHUNK_SIZE) / SECTOR_SIZE < |d|
    {
      assert BlockAt(Core(d, v.HighWater()), v.view.extents[(slot, i / CHUNK_SIZE)]);
    }
  }

  /** The answer to a read: the stretch asked for, or the refusal of what is no file. */
  predicate ReadsAs(r: Result<seq<byte>>, fs: FileSystem, oid: nat, offset: nat, size: nat) {
    if oid in fs.entities && fs.entities[oid].kind == FILE
    then r.Ok? && StretchOf(r.value, fs.entities[oid].bytes, offset, size) else r == Err(NotAFile)
  }

  /** On a sound volume reading never runs off the disk, and returns the stretch asked for of what the
      file system holds. */
  lemma ReadReturnsContents(d: Disk, v: Vol, oid: nat, offset: nat, size: nat)
    requires Sound(d, v) && IsFile(v, oid)
    ensures ReadFile(d, v, oid, offset, size) == Ok(Cut(Live(d, v).entities[oid].bytes, offset, size))
    ensures StretchOf(ReadFile(d, v, oid, offset, size).value, Live(d, v).entities[oid].bytes, offset, size)
  {
    CutIs(Live(d, v).entities[oid].bytes, offset, size);
    hide Sound, ExtentsOk, NamesOk, BeyondEnd;
    SoundParts(d, v);
    var obj := v.view.objects[oid];
    if offset < obj.size {
      NothingBeyondEnd(d, v, obj.dataSlot, offset, offset + Min(obj.size - offset, size));
    }
  }

  // ---- Writing ----------------------------------------------------------------------------------

  /** The file system with the bytes of one file replaced. */
  function WithBytes(fs: FileSystem, oid: nat, bytes: seq<byte>): FileSystem
    requires oid in fs.entities
  {
    fs.(entities := fs.entities[oid := fs.entities[oid].(bytes := bytes)])
  }

  /** What resize and write start from: the pending bytes if there are any; otherwise the stored bytes
      when the read is hoisted, and nothing as the code stands. */
  lemma OldBytesAre(d: Disk, v: Vol, oid: nat, hoisted: bool)
    requires Sound(d, v) && IsFile(v, oid)
    ensures OldBytes(d, v, oid, hoisted) ==
      Ok(if hoisted || oid in v.dirty then Live(d, v).entities[oid].bytes else [])
  {
    hide Sound, ExtentsOk, NamesOk, BeyondEnd;
    SoundParts(d, v);
    ReadReturnsContents(d, v, oid, 0, v.view.objects[oid].size);
    var c := Live(d, v).entities[oid].bytes;
    assert c[0..|c|] == c;
  }

  /** The volume with new pending bytes and a new size for one file. */
  function PutBytes(v: Vol, oid: nat, bytes: seq<byte>, size: nat, flag: bool): Vol
    requires oid in v.view.objects
  {
    v.(dirty := v.dirty[oid := bytes],
       view := v.view.(objects := v.view.objects[oid := v.view.objects[oid].(size := size)]),
       metadataDirty := flag)
  }

  /** Replacing the pending bytes of one file, with a size that holds them, keeps the invariant and
      changes that file alone. */
  lemma PutBytesReplaces(d: Disk, v: Vol, oid: nat, bytes: seq<byte>, size: nat, flag: bool)
    requires Sound(d, v) && IsFile(v, oid) && |bytes| <= size
    ensures Sound(d, PutBytes(v, oid, bytes, size, flag))
    ensures Live(d, PutBytes(v, oid, bytes, size, flag)) == WithBytes(Live(d, v), oid, bytes)
  {
    hide Sound, ExtentsOk, FileSystemOf;
    SoundParts(d, v);
    var w := PutBytes(v, oid, bytes, size, flag);
    assert oid in w.dirty;
    EditSound(d, v, w);
    PutBytesLive(d, v, oid, bytes, size, flag);
  }

  lemma PutBytesLive(d: Disk, v: Vol, oid: nat, bytes: seq<byte>, size: nat, flag: bool)
    requires IsFile(v, oid)
    ensures Live(d, PutBytes(v, oid, bytes, size, flag)) == WithBytes(Live(d, v), oid, bytes)
  {
    var a, b := Live(d, PutBytes(v, oid, bytes, size, flag)).entities, WithBytes(Live(d, v), oid, bytes).entities;
    assert a.Keys == b.Keys;
    forall k | k in a
      ensures a[k] == b[k]
    {
    }
    assert a == b;
  }

  /** The bytes resize and write really start from. */
  function Start(v: Vol, oid: nat, stored: seq<byte>, hoisted: bool): seq<byte> {
    if hoisted || oid in v.dirty then stored else []
  }

  /** Resizing fits what it starts from to the new size. */
  lemma ResizeFits(d: Disk, v: Vol, oid: nat, size: nat, hoisted: bool)
    requires Sound(d, v) && ResizeFile(d, v, oid, size, hoisted).Ok?
    ensures IsFile(v, oid)
    ensures var w, stored := ResizeFile(d, v, oid, size, hoisted).value, Live(d, v).entities[oid].bytes;
      w == PutBytes(v, oid, Fit(Start(v, oid, stored, hoisted), size), size, true)
      && Sound(d, w) && Live(d, w) == WithBytes(Live(d, v), oid, Fit(Start(v, oid, stored, hoisted), size))
      && oid in Live(d, w).entities && Fitted(Live(d, w).entities[oid].bytes, Start(v, oid, stored, hoisted), size)
  {
    hide Sound, ReadFile;
    FitIsFitted(Start(v, oid, Live(d, v).entities[oid].bytes, hoisted), size);
    OldBytesAre(d, v, oid, hoisted);
    var stored := Live(d, v).entities[oid].bytes;
    PutBytesReplaces(d, v, oid, Fit(Start(v, oid, stored, hoisted), size), size, true);
  }

  lemma OverlayFit(s: seq<byte>, n: nat, offset: nat, data: seq<byte>)
    requires |s| <= n == offset + |data|
    ensures Overlay(Fit(s, n), offset, data) == Overlay(s, offset, data)
  {
  }

  lemma OverlayIs(s: seq<byte>, offset: nat, data: seq<byte>)
    ensures var end := offset + |data|;
      var room := if |s| < end then Fit(s, end) else s;
      room[..offset] + data + room[end..] == Overlay(s, offset, data)
  {
  }

  /** The bytes pending for a file do not exceed its size. */
  lemma StartFits(d: Disk, v: Vol, oid: nat, hoisted: bool)
    requires Sound(d, v) && IsFile(v, oid)
    ensures |Start(v, oid, Live(d, v).entities[oid].bytes, hoisted)| <= v.view.objects[oid].size
  {
    hide Sound, ExtentsOk, NamesOk;
    SoundParts(d, v);
  }

  /** The last step of a write: make room, copy the data in. */
  lemma CopyIn(d: Disk, g: Vol, oid: nat, bytes: seq<byte>, offset: nat, data: seq<byte>)
    requires Sound(d, g) && IsFile(g, oid)
    requires |bytes| <= g.view.objects[oid].size && offset + |data| <= g.view.objects[oid].size
    ensures var end := offset + |data|;
      var room := if |bytes| < end then Fit(bytes, end) else bytes;
      var w := g.(dirty := g.dirty[oid := room[..offset] + data + room[end..]]);
      Sound(d, w) && Live(d, w) == WithBytes(Live(d, g), oid, Overlay(bytes, offset, data))
  {
    hide Sound, FileSystemOf;
    var size := g.view.objects[oid].size;
    OverlayIs(bytes, offset, data);
    assert g.view.objects[oid := g.view.objects[oid].(size := size)] == g.view.objects;
    PutBytesReplaces(d, g, oid, Overlay(bytes, offset, data), size, g.metadataDirty);
  }

  /** Writing lays the data over what it starts from, and changes that file alone. */
  lemma WriteOverlays(d: Disk, v: Vol, oid: nat, offset: nat, data: seq<byte>, hoisted: bool)
    requires Sound(d, v) && WriteFile(d, v, oid, offset, data, hoisted).Ok?
    ensures IsFile(v, oid)
    ensures var w, stored := WriteFile(d, v, oid, offset, data, hoisted).value, Live(d, v).entities[oid].bytes;
      Sound(d, w) && Live(d, w) == WithBytes(Live(d, v), oid, Overlay(Start(v, oid, stored, hoisted), offset, data))
      && oid in Live(d, w).entities
      && Overlaid(Live(d, w).entities[oid].bytes, Start(v, oid, stored, hoisted), offset, data)
  {
    hide Sound, ReadFile, OldBytes, ResizeFile;
    OverlayIsOverlaid(Start(v, oid, Live(d, v).entities[oid].bytes, hoisted), offset, data);
    var obj, end, stored := v.view.objects[oid], offset + |data|, Live(d, v).entities[oid].bytes;
    var start := Start(v, oid, stored, hoisted);
    StartFits(d, v, oid, hoisted);
    if end > obj.size {
      ResizeFits(d, v, oid, end, hoisted);
      var grown := ResizeFile(d, v, oid, end, hoisted).value;
      OldBytesAre(d, grown, oid, hoisted);
      OverlayFit(start, end, offset, data);
      CopyIn(d, grown, oid, Fit(start, end), offset, data);
    } else {
      OldBytesAre(d, v, oid, hoisted);
      CopyIn(d, v, oid, start, offset, data);
    }
  }

  /** The size shown after a write is the old one or the end of the write, whichever is greater; only the
      pending bytes of that file and, if it grew, its size and the mark for a commit change. */
  lemma WriteSets(d: Disk, v: Vol, oid: nat, offset: nat, data: seq<byte>, hoisted: bool)
    requires WriteFile(d, v, oid, offset, data, hoisted).Ok?
    ensures IsFile(v, oid) && oid in WriteFile(d, v, oid, offset, data, hoisted).value.dirty
    ensures var w, obj, end := WriteFile(d, v, oid, offset, data, hoisted).value, v.view.objects[oid], offset + |data|;
      && w.dirty - {oid} == v.dirty - {oid} && w.metadataDirty == (v.metadataDirty || end > obj.size)
      && w.view == v.view.(objects := v.view.objects[oid := obj.(size := if end > obj.size then end else obj.size)])
      && w == v.(dirty := w.dirty, view := w.view, metadataDirty := w.metadataDirty)
  {
    hide ReadFile;
    var obj := v.view.objects[oid];
    assert v.view.objects[oid := obj] == v.view.objects;
    assert obj.(size := obj.size) == obj;
  }

  /** Every one of the first `n` bytes that exist is zero. */
  predicate ZeroUpTo(s: seq<byte>, n: nat) {
    forall i | 0 <= i < n && i < |s| :: s[i] == 0
  }

  lemma OverlayLoses(stored: seq<byte>, offset: nat, data: seq<byte>)
    ensures Overlay([], offset, data) == Overlay(stored, offset, data)
      <==> |stored| <= offset + |data| && ZeroUpTo(stored, offset)
  {
    var a, b := Overlay([], offset, data), Overlay(stored, offset, data);
    if |stored| <= offset + |data| && ZeroUpTo(stored, offset) {
      assert a == b;
    } else if a == b {
      forall i | 0 <= i < offset && i < |stored|
        ensures stored[i] == 0
      {
        assert a[i] == b[i];
      }
    }
  }

  lemma FitLoses(stored: seq<byte>, size: nat)
    ensures Fit([], size) == Fit(stored, size) <==> ZeroUpTo(stored, size)
  {
    var a, b := Fit([], size), Fit(stored, size);
    if a == b {
      forall i | 0 <= i < size && i < |stored|
        ensures stored[i] == 0
      {
        assert a[i] == b[i];
      }
    }
  }

  /** Exactly when `write_file` keeps the bytes it does not write: when the file already has pending
      bytes, or when there was nothing to lose (the write reaches the end of the file, and every byte
      before it is zero). For any other clean file the old contents are gone. */
  lemma WriteKeepsIff(d: Disk, v: Vol, oid: nat, offset: nat, data: seq<byte>)
    requires Sound(d, v) && WriteFile(d, v, oid, offset, data, false).Ok?
    ensures IsFile(v, oid)
    ensures var w, stored := WriteFile(d, v, oid, offset, data, false).value, Live(d, v).entities[oid].bytes;
      (Live(d, w) == WithBytes(Live(d, v), oid, Overlay(stored, offset, data)))
      <==> (oid in v.dirty || (|stored| <= offset + |data| && ZeroUpTo(stored, offset)))
  {
    hide Sound, WriteFile;
    WriteOverlays(d, v, oid, offset, data, false);
    var stored := Live(d, v).entities[oid].bytes;
    OverlayLoses(stored, offset, data);
    BytesReplaced(Live(d, v), oid, Overlay(Start(v, oid, stored, false), offset, data), Overlay(stored, offset, data));
  }

  lemma BytesReplaced(fs: FileSystem, oid: nat, a: seq<byte>, b: seq<byte>)
    requires oid in fs.entities
    ensures WithBytes(fs, oid, a) == WithBytes(fs, oid, b) <==> a == b
  {
    assert WithBytes(fs, oid, a).entities[oid].bytes == a;
    assert WithBytes(fs, oid, b).entities[oid].bytes == b;
  }

  /** Exactly when `resize_file` keeps the bytes below the new size. */
  lemma ResizeKeepsIff(d: Disk, v: Vol, oid: nat, size: nat)
    requires Sound(d, v) && ResizeFile(d, v, oid, size, false).Ok?
    ensures IsFile(v, oid)
    ensures var w, stored := ResizeFile(d, v, oid, size, false).value, Live(d, v).entities[oid].bytes;
      Live(d, w) == WithBytes(Live(d, v), oid, Fit(stored, size)) <==> oid in v.dirty || ZeroUpTo(stored, size)
  {
    hide Sound, ResizeFile;
    ResizeFits(d, v, oid, size, false);
    var stored := Live(d, v).entities[oid].bytes;
    FitLoses(stored, size);
    BytesReplaced(Live(d, v), oid, Fit(Start(v, oid, stored, false), size), Fit(stored, size));
  }

  /** With the read hoisted above the insertion, writing and resizing always keep the rest. */
  lemma HoistedKeeps(d: Disk, v: Vol, oid: nat, offset: nat, data: seq<byte>, size: nat)
    requires Sound(d, v) && IsFile(v, oid)
    ensures var r, stored := WriteFile(d, v, oid, offset, data, true), Live(d, v).entities[oid].bytes;
      r.Ok? ==> Sound(d, r.value) && Live(d, r.value) == WithBytes(Live(d, v), oid, Overlay(stored, offset, data))
    ensures var r, stored := ResizeFile(d, v, oid, size, true), Live(d, v).entities[oid].bytes;
      r.Ok? ==> Sound(d, r.value) && Live(d, r.value) == WithBytes(Live(d, v), oid, Fit(stored, size))
  {
    hide Sound, ResizeFile, WriteFile;
    if WriteFile(d, v, oid, offset, data, true).Ok? {
      WriteOverlays(d, v, oid, offset, data, true);
    }
    if ResizeFile(d, v, oid, size, true).Ok? {
      ResizeFits(d, v, oid, size, true);
    }
  }

  // ---- Sizes near the end of the 64-bit range -----------------------------------------------------

  /** Exactly which sizes above the capacity pass the check: the last 4095 of the 64-bit range, whose
      chunk count wraps around to none. */
  lemma GuardPassesIff(size: nat, capacity: nat)
    requires size <= MAX_OFFSET
    ensures GuardChunks(size) <= capacity && Chunks(size) > capacity
            <==> size > MAX_OFFSET + 1 - CHUNK_SIZE && capacity < (MAX_OFFSET + 1) / CHUNK_SIZE
  {
    if size > MAX_OFFSET + 1 - CHUNK_SIZE {
      assert GuardChunks(size) == 0;
      assert Chunks(size) == (MAX_OFFSET + 1) / CHUNK_SIZE;
    } else {
      assert GuardChunks(size) == Chunks(size);
    }
  }

  /** An impossible buffer leaves an empty pending entry: the invariant is kept, but the contents are
      gone unless there were pending bytes, or none at all. */
  lemma EnteredKeepsIff(d: Disk, v: Vol, oid: nat)
    requires Sound(d, v) && IsFile(v, oid)
    ensures Sound(d, Entered(v, oid))
    ensures Live(d, Entered(v, oid)) == WithBytes(Live(d, v), oid, Start(v, oid, Live(d, v).entities[oid].bytes, false))
    ensures Live(d, Entered(v, oid)) == Live(d, v) <==> oid in v.dirty || Live(d, v).entities[oid].bytes == []
  {
    hide Sound;
    var stored := Live(d, v).entities[oid].bytes;
    var size := v.view.objects[oid].size;
    assert v.view.objects[oid := v.view.objects[oid].(size := size)] == v.view.objects;
    assert Entered(v, oid) == PutBytes(v, oid, Start(v, oid, stored, false), size, v.metadataDirty);
    StartFits(d, v, oid, false);
    PutBytesReplaces(d, v, oid, Start(v, oid, stored, false), size, v.metadataDirty);
    BytesReplaced(Live(d, v), oid, Start(v, oid, stored, false), stored);
    assert Live(d, v) == WithBytes(Live(d, v), oid, stored);
  }
}
