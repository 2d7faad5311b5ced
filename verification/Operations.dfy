/** The operations of a mounted volume other than commit, as functions of its state: name lookup,
    create, remove, rename, read, resize, write, and the in-memory half of the snapshot operations. */
module Operations {
  import opened ArcTypes
  import opened Keys
  import opened Reader
  import opened Soundness

  // ---- Names ------------------------------------------------------------------------------------

  /** The position of the first entry called `name` in directory `parent`. */
  function Find(names: seq<DirEntry>, parent: nat, name: Name): (r: Option<nat>)
    ensures r.Some? ==>
      r.value < |names| && names[r.value].parent == parent && names[r.value].name == name
      && forall j: nat | j < r.value :: !(names[j].parent == parent && names[j].name == name)
    ensures r.None? ==> forall e | e in names :: !(e.parent == parent && e.name == name)
  {
    if |names| == 0 then None
    else if names[0].parent == parent && names[0].name == name then Some(0)
    else
      match Find(names[1..], parent, name)
      case None => assert names == [names[0]] + names[1..]; None
      case Some(i) => Some(i + 1)
  }

  /** Follow a path from object `current`. */
  function Resolve(names: seq<DirEntry>, current: nat, parts: seq<Name>): Option<nat>
    decreases |parts|
  {
    if |parts| == 0 then Some(current) else
    match Find(names, current, parts[0])
    case None => None
    case Some(i) => Resolve(names, names[i].child, parts[1..])
  }

  /** The byte '/'. */
  const SLASH: byte := 47

  /** The length of the leading part of `path` up to a '/'. */
  function PartLength(path: seq<byte>): (n: nat)
    ensures n <= |path| && (forall i | 0 <= i < n :: path[i] != SLASH) && (n < |path| ==> path[n] == SLASH)
  {
    if |path| == 0 || path[0] == SLASH then 0 else 1 + PartLength(path[1..])
  }

  /** `split_posix_path`: the non-empty parts between slashes. */
  function SplitPath(path: seq<byte>): (parts: seq<Name>)
    ensures forall i | 0 <= i < |parts| :: parts[i] != [] && SLASH !in parts[i]
  {
    if |path| == 0 then []
    else if path[0] == SLASH then SplitPath(path[1..])
    else
      var n := PartLength(path);
      [path[..n]] + SplitPath(path[n..])
  }

  /** `resolve_posix_path`. */
  function ResolvePath(names: seq<DirEntry>, path: seq<byte>): Option<nat> {
    Resolve(names, ROOT_OID, SplitPath(path))
  }

  // ---- Create, remove, rename -------------------------------------------------------------------

  predicate IsDirectory(v: Vol, oid: nat) {
    oid in v.view.objects && v.view.objects[oid].kind == DIRECTORY
  }

  predicate IsFile(v: Vol, oid: nat) {
    oid in v.view.objects && v.view.objects[oid].kind == FILE
  }

  /** Add an object of the given kind under a fresh identifier. */
  function AddObject(v: Vol, parent: nat, name: Name, kind: nat): Vol {
    var oid := v.nextOid;
    var obj := Object(oid, 0, kind, 0, if kind == FILE then oid else 0);
    v.(view := v.view.(objects := v.view.objects[oid := obj], names := v.view.names + [DirEntry(parent, name, oid)]),
       dirty := if kind == FILE then v.dirty[oid := []] else v.dirty,
       nextOid := oid + 1,
       metadataDirty := true)
  }

  function CreateFile(v: Vol, parent: nat, name: Name): Result<Vol> {
    if !ValidName(name) then Err(InvalidName)
    else if !IsDirectory(v, parent) then Err(NotADirectory)
    else if ResolvePath(v.view.names, [SLASH] + name).Some? && parent == ROOT_OID then Err(NameExists)
    else if Find(v.view.names, parent, name).Some? then Err(NameExists)
    else Ok(AddObject(v, parent, name, FILE))
  }

  function CreateDirectory(v: Vol, parent: nat, name: Name): Result<Vol> {
    if !ValidName(name) then Err(InvalidName)
    else if !IsDirectory(v, parent) then Err(NotADirectory)
    else if Find(v.view.names, parent, name).Some? then Err(NameExists)
    else Ok(AddObject(v, parent, name, DIRECTORY))
  }

  function Without<T>(s: seq<T>, i: nat): seq<T>
    requires i < |s|
  {
    s[..i] + s[i + 1..]
  }

  function RemoveChild(v: Vol, parent: nat, name: Name): Result<Vol> {
    match Find(v.view.names, parent, name)
    case None => Err(NoSuchChild)
    case Some(i) =>
      var oid := v.view.names[i].child;
      if oid !in v.view.objects then Err(MissingObject)
      else if v.view.objects[oid].kind == DIRECTORY && (exists e :: e in v.view.names && e.parent == oid)
      then Err(NotEmpty)
      else Ok(v.(view := v.view.(objects := v.view.objects - {oid}, names := Without(v.view.names, i)),
                 dirty := v.dirty - {oid},
                 metadataDirty := true))
  }

  function RenameChild(v: Vol, parent: nat, name: Name, newParent: nat, newName: Name): Result<Vol> {
    if !ValidName(newName) then Err(InvalidName)
    else if !IsDirectory(v, newParent) then Err(NotADirectory)
    else
      match Find(v.view.names, parent, name)
      case None => Err(NoSuchChild)
      case Some(i) =>
        if Find(v.view.names, newParent, newName).Some? then Err(NameExists)
        else Ok(v.(view := v.view.(names := v.view.names[i := DirEntry(newParent, newName, v.view.names[i].child)]),
                   metadataDirty := true))
  }

  // ---- File contents ----------------------------------------------------------------------------

  /** `s[from..]`, at most `n` bytes of it, as the readers cut it. */
  function Cut(s: seq<byte>, from: nat, n: nat): (r: seq<byte>) {
    if from >= |s| || n == 0 then [] else s[from..from + Min(|s| - from, n)]
  }

  /** `r` is the stretch of `b` from `offset` on: `size` bytes, or as many as there are. */
  predicate StretchOf(r: seq<byte>, b: seq<byte>, offset: nat, size: nat) {
    && |r| == (if offset >= |b| then 0 else if size < |b| - offset then size else |b| - offset)
    && forall i: nat | i < |r| :: r[i] == b[offset + i]
  }

  lemma CutIs(s: seq<byte>, from: nat, n: nat)
    ensures StretchOf(Cut(s, from, n), s, from, n)
  {
  }

  /** Some byte in [lo, hi) has its sector beyond the end of the disk. */
  ghost predicate BeyondEnd(d: Disk, extents: map<(nat, nat), nat>, slot: nat, lo: nat, hi: nat) {
    exists i: nat :: lo <= i < hi && (slot, i / CHUNK_SIZE) in extents
                     && extents[(slot, i / CHUNK_SIZE)] + (i % CHUNK_SIZE) / SECTOR_SIZE >= |d|
  }

  ghost function ReadFile(d: Disk, v: Vol, oid: nat, offset: nat, size: nat): Result<seq<byte>> {
    if !IsFile(v, oid) then Err(NotAFile)
    else if oid in v.dirty then Ok(Cut(v.dirty[oid], offset, size))
    else
      var obj := v.view.objects[oid];
      if offset >= obj.size || size == 0 then Ok([])
      else if BeyondEnd(d, v.view.extents, obj.dataSlot, offset, offset + Min(obj.size - offset, size))
      then Err(ShortRead)
      else Ok(Cut(Stored(d, v.view.extents, obj), offset, size))
  }

  /** Truncate, or extend with zeros. */
  function Fit(s: seq<byte>, n: nat): (r: seq<byte>)
    ensures |r| == n
  {
    seq(n, i requires 0 <= i < n => if i < |s| then s[i] else 0)
  }

  /** `data` laid over `s` at `offset`, with a gap filled by zeros. */
  function Overlay(s: seq<byte>, offset: nat, data: seq<byte>): (r: seq<byte>)
    ensures |r| == if |s| > offset + |data| then |s| else offset + |data|
  {
    var end := offset + |data|;
    seq(if |s| > end then |s| else end, i requires 0 <= i =>
      if offset <= i < end then data[i - offset] else if i < |s| then s[i] else 0)
  }

  /** `r` is `s` with `data` over it from `offset` on, and zeros in a gap. */
  predicate Overlaid(r: seq<byte>, s: seq<byte>, offset: nat, data: seq<byte>) {
    && |r| == (if |s| > offset + |data| then |s| else offset + |data|)
    && (forall i: nat | i < |data| :: r[offset + i] == data[i])
    && (forall i: nat | i < |s| && !(offset <= i < offset + |data|) :: r[i] == s[i])
    && (forall i: nat | |s| <= i < offset :: r[i] == 0)
  }

  /** `r` is the first `n` bytes of `s`, or all of them and zeros up to `n`. */
  predicate Fitted(r: seq<byte>, s: seq<byte>, n: nat) {
    && |r| == n
    && (forall i: nat | i < n && i < |s| :: r[i] == s[i])
    && (forall i: nat | |s| <= i < n :: r[i] == 0)
  }

  lemma OverlayIsOverlaid(s: seq<byte>, offset: nat, data: seq<byte>)
    ensures Overlaid(Overlay(s, offset, data), s, offset, data)
  {
    var r := Overlay(s, offset, data);
    forall i: nat | i < |data|
      ensures r[offset + i] == data[i]
    {
      assert data[(offset + i) - offset] == data[i];
    }
  }

  lemma FitIsFitted(s: seq<byte>, n: nat)
    ensures Fitted(Fit(s, n), s, n)
  {
  }

  /** The bytes already pending for a file; indexing the pending map inserts an empty entry. */
  function Pending(v: Vol, oid: nat): seq<byte> {
    if oid in v.dirty then v.dirty[oid] else []
  }

  /** The old bytes that `resize_file` and `write_file` start from. The source inserts the empty pending
      entry first and reads the file afterwards, so the read sees that entry; with `hoisted` the read
      comes first. */
  ghost function OldBytes(d: Disk, v: Vol, oid: nat, hoisted: bool): Result<seq<byte>>
    requires IsFile(v, oid)
  {
    if Pending(v, oid) == [] && v.view.objects[oid].size != 0
    then ReadFile(d, if hoisted then v else Entered(v, oid), oid, 0, v.view.objects[oid].size)
    else Ok(Pending(v, oid))
  }

  const MAX_OFFSET: nat := 0xFFFF_FFFF_FFFF_FFFF

  /** The longest byte vector of a 64-bit host. */
  const MAX_BUFFER: nat := 0x7FFF_FFFF_FFFF_FFFF

  /** `chunks_for_size` in the 64-bit arithmetic of the capacity checks: the addition wraps around for
      the last 4095 sizes. */
  function GuardChunks(size: nat): nat {
    ((size + CHUNK_SIZE - 1) % (MAX_OFFSET + 1)) / CHUNK_SIZE
  }

  /** The volume once the pending map was indexed: an absent entry is there now, empty. */
  function Entered(v: Vol, oid: nat): Vol {
    v.(dirty := v.dirty[oid := Pending(v, oid)])
  }

  /** `BufferTooLong` is raised after the pending entry was made: it leaves `Entered(v, oid)`, every
      other error the volume as it was. */
  ghost function ResizeFile(d: Disk, v: Vol, oid: nat, size: nat, hoisted: bool): Result<Vol> {
    if !IsFile(v, oid) then Err(NotAFile)
    else if GuardChunks(size) > v.Total() / NODE_SECTORS then Err(TooLarge)
    else
      var prior :- OldBytes(d, v, oid, hoisted);
      if size > MAX_BUFFER then Err(BufferTooLong) else
      Ok(v.(dirty := v.dirty[oid := Fit(prior, size)],
            view := v.view.(objects := v.view.objects[oid := v.view.objects[oid].(size := size)]),
            metadataDirty := true))
  }

  ghost function WriteFile(d: Disk, v: Vol, oid: nat, offset: nat, data: seq<byte>, hoisted: bool): Result<Vol> {
    if !IsFile(v, oid) then Err(NotAFile)
    else if offset + |data| > MAX_OFFSET then Err(TooLarge)
    else if GuardChunks(offset + |data|) > v.Total() / NODE_SECTORS then Err(TooLarge)
    else
      var end := offset + |data|;
      var grown :- if end > v.view.objects[oid].size then ResizeFile(d, v, oid, end, hoisted) else Ok(v);
      var prior :- OldBytes(d, grown, oid, hoisted);
      if |prior| < end && end > MAX_BUFFER then Err(BufferTooLong) else
      var room := if |prior| < end then Fit(prior, end) else prior;
      Ok(grown.(dirty := grown.dirty[oid := room[..offset] + data + room[end..]]))
  }

  // ---- Snapshots --------------------------------------------------------------------------------

  function FindSnapshot(l: seq<Snapshot>, id: nat): (r: Option<nat>)
    ensures r.Some? ==> r.value < |l| && l[r.value].id == id && forall j: nat | j < r.value :: l[j].id != id
    ensures r.None? ==> forall s | s in l :: s.id != id
  {
    if |l| == 0 then None
    else if l[0].id == id then Some(0)
    else
      match FindSnapshot(l[1..], id)
      case None => assert l == [l[0]] + l[1..]; None
      case Some(i) => Some(i + 1)
  }

  /** `create_snapshot` up to its commit. */
  function TakeSnapshot(v: Vol, labelText: seq<byte>, now: nat): Result<Vol> {
    if !v.Clean() then Err(NotClean)
    else if |labelText| > MAX_LABEL then Err(LabelTooLong)
    else
      var s := Snapshot(v.nextSnapshot, v.checkpoint.record.generation, v.checkpoint.sector, now, 0, labelText);
      Ok(v.(snapshots := v.snapshots + [s], nextSnapshot := v.nextSnapshot + 1, metadataDirty := true))
  }

  /** `delete_snapshot` up to its commit. */
  function DropSnapshot(v: Vol, id: nat): Result<Vol> {
    match FindSnapshot(v.snapshots, id)
    case None => Err(NoSuchSnapshot)
    case Some(i) => Ok(v.(snapshots := Without(v.snapshots, i), metadataDirty := true))
  }

  /** The view a snapshot pins. */
  function SnapshotView(d: Disk, s: Snapshot, total: nat): Result<View> {
    var record :- ReadCheckpoint(d, s.checkpointSector);
    LoadView(d, record, total)
  }

  /** `rollback_to_snapshot` up to its commit. */
  function RollBack(d: Disk, v: Vol, id: nat): Result<Vol> {
    match FindSnapshot(v.snapshots, id)
    case None => Err(NoSuchSnapshot)
    case Some(i) =>
      if !v.Clean() then Err(NotClean) else
      var view :- SnapshotView(d, v.snapshots[i], v.Total());
      Ok(v.(view := view, nextOid := NextOid(view.objects), metadataDirty := true))
  }

  function NextOid(objects: map<nat, Object>): nat {
    NextAfter(SortedKeys(objects.Keys))
  }

  /** The file system a snapshot pins, if it can be read. */
  function SnapshotFileSystem(d: Disk, s: Snapshot, total: nat): Option<FileSystem> {
    var r := SnapshotView(d, s, total);
    if r.Ok? then Some(FileSystemOf(d, r.value, map[])) else None
  }

  /** `resolve_posix_path_in_snapshot`. */
  function ResolveInSnapshot(d: Disk, v: Vol, id: nat, path: seq<byte>): Result<Option<nat>> {
    match FindSnapshot(v.snapshots, id)
    case None => Err(NoSuchSnapshot)
    case Some(i) =>
      var view :- SnapshotView(d, v.snapshots[i], v.Total());
      Ok(ResolvePath(view.names, path))
  }

  /** `read_file_in_snapshot`. */
  ghost function ReadInSnapshot(d: Disk, v: Vol, id: nat, oid: nat, offset: nat, size: nat): Result<seq<byte>> {
    match FindSnapshot(v.snapshots, id)
    case None => Err(NoSuchSnapshot)
    case Some(i) =>
      var view :- SnapshotView(d, v.snapshots[i], v.Total());
      ReadFile(d, v.(view := view, dirty := map[]), oid, offset, size)
  }
}
