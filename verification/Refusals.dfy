/** Exactly which requests a sound volume accepts, told from the file system alone, and the error each
    refused one gets. */
module Refusals {
  import opened ArcTypes
  import opened Reader
  import opened Soundness
  import opened Operations
  import opened OperationProofs
  import opened Namespace
  import opened Snapshots

  predicate HoldsDirectory(fs: FileSystem, oid: nat) {
    oid in fs.entities && fs.entities[oid].kind == DIRECTORY
  }

  predicate HoldsFile(fs: FileSystem, oid: nat) {
    oid in fs.entities && fs.entities[oid].kind == FILE
  }

  predicate HoldsEntry(fs: FileSystem, parent: nat, name: Name) {
    exists e :: e in fs.names && e.parent == parent && e.name == name
  }

  predicate HoldsChildren(fs: FileSystem, oid: nat) {
    exists e :: e in fs.names && e.parent == oid
  }

  /** A name of 1 to 32 bytes, none of them NUL, '/' or ':'. */
  predicate Nameable(name: Name) {
    1 <= |name| <= 32 && 0 !in name && 47 !in name && 58 !in name
  }

  lemma NameableIff(name: Name)
    ensures ValidName(name) <==> Nameable(name)
  {
  }

  /** The answer to a request to create `name` in `parent`, whatever the kind. */
  function CreateAnswer(fs: FileSystem, parent: nat, name: Name): Option<Error> {
    if !Nameable(name) then Some(InvalidName)
    else if !HoldsDirectory(fs, parent) then Some(NotADirectory)
    else if HoldsEntry(fs, parent, name) then Some(NameExists)
    else None
  }

  function Answer<T>(r: Result<T>): Option<Error> {
    if r.Ok? then None else Some(r.error)
  }

  lemma EntryFound(d: Disk, v: Vol, parent: nat, name: Name)
    ensures HoldsEntry(Live(d, v), parent, name) <==> Find(v.view.names, parent, name).Some?
  {
    var found := Find(v.view.names, parent, name);
    if found.Some? {
      assert v.view.names[found.value] in Live(d, v).names;
    }
    if HoldsEntry(Live(d, v), parent, name) {
      var e :| e in Live(d, v).names && e.parent == parent && e.name == name;
      assert e in v.view.names;
    }
  }

  /** A valid name under the root is a path of one part. */
  lemma OnePart(v: Vol, name: Name)
    requires ValidName(name)
    ensures ResolvePath(v.view.names, [SLASH] + name).Some? <==> Find(v.view.names, ROOT_OID, name).Some?
  {
    var path := [name];
    assert path[1..] == [];
    assert JoinPath(path) == [SLASH] + name + [] == [SLASH] + name;
    SplitJoin(path);
    assert SplitPath([SLASH] + name) == path;
    var found := Find(v.view.names, ROOT_OID, path[0]);
    if found.Some? {
      assert Resolve(v.view.names, ROOT_OID, path) == Resolve(v.view.names, v.view.names[found.value].child, []);
    }
  }

  /** Creating a file and creating a directory are accepted for the same requests: the extra path
      lookup of the first refuses nothing more. */
  lemma CreateAnswers(d: Disk, v: Vol, parent: nat, name: Name)
    ensures Answer(CreateFile(v, parent, name)) == CreateAnswer(Live(d, v), parent, name)
    ensures Answer(CreateDirectory(v, parent, name)) == CreateAnswer(Live(d, v), parent, name)
  {
    EntryFound(d, v, parent, name);
    NameableIff(name);
    if ValidName(name) {
      OnePart(v, name);
    }
    hide Find, ResolvePath, AddObject, ValidName, Nameable, HoldsEntry;
  }

  /** Removing is accepted exactly for an entry whose child is a file or an empty directory. */
  lemma RemoveAnswers(d: Disk, v: Vol, parent: nat, name: Name)
    requires Sound(d, v)
    ensures Answer(RemoveChild(v, parent, name)) ==
            if !HoldsEntry(Live(d, v), parent, name) then Some(NoSuchChild)
            else if exists e :: e in Live(d, v).names && e.parent == parent && e.name == name
                           && HoldsDirectory(Live(d, v), e.child) && HoldsChildren(Live(d, v), e.child)
            then Some(NotEmpty)
            else None
  {
    hide Sound, Live, HoldsEntry, HoldsChildren, HoldsDirectory;
    EntryFound(d, v, parent, name);
    var found := Find(v.view.names, parent, name);
    if found.Some? {
      EntryIs(d, v, parent, name, found.value);
      ChildrenFound(d, v, v.view.names[found.value].child);
    }
  }

  /** The entry that is found is the one of that name, and its object exists. */
  lemma EntryIs(d: Disk, v: Vol, parent: nat, name: Name, i: nat)
    requires Sound(d, v) && Find(v.view.names, parent, name) == Some(i)
    ensures forall e :: e in Live(d, v).names && e.parent == parent && e.name == name <==> e == v.view.names[i]
    ensures v.view.names[i].child in v.view.objects
    ensures HoldsDirectory(Live(d, v), v.view.names[i].child)
        <==> v.view.objects[v.view.names[i].child].kind == DIRECTORY
  {
    hide Sound, ExtentsOk, Covered;
    SoundParts(d, v);
    assert v.view.names[i] in v.view.names;
    assert forall e :: e in Live(d, v).names <==> e in v.view.names;
  }

  lemma ChildrenFound(d: Disk, v: Vol, oid: nat)
    ensures HoldsChildren(Live(d, v), oid) <==> exists e :: e in v.view.names && e.parent == oid
  {
    assert forall e :: e in Live(d, v).names <==> e in v.view.names;
  }

  /** Renaming is accepted exactly for an existing entry, an existing directory and a free valid name. */
  lemma RenameAnswers(d: Disk, v: Vol, parent: nat, name: Name, newParent: nat, newName: Name)
    ensures Answer(RenameChild(v, parent, name, newParent, newName)) ==
            if !Nameable(newName) then Some(InvalidName)
            else if !HoldsDirectory(Live(d, v), newParent) then Some(NotADirectory)
            else if !HoldsEntry(Live(d, v), parent, name) then Some(NoSuchChild)
            else if HoldsEntry(Live(d, v), newParent, newName) then Some(NameExists)
            else None
  {
    EntryFound(d, v, parent, name);
    EntryFound(d, v, newParent, newName);
    NameableIff(newName);
    hide Find, ValidName, Nameable, HoldsEntry;
  }

  /** A sum as 64 bits hold it. */
  function Wrapped(n: nat): (r: nat) {
    n % 0x1_0000_0000_0000_0000
  }

  lemma GuardIs(size: nat)
    ensures GuardChunks(size) == Wrapped(size + 4095) / 4096
  {
  }

  /** Reading in a snapshot, and resolving a path in one, need a snapshot on the list. */
  lemma SnapshotMissing(d: Disk, v: Vol, id: nat, oid: nat, offset: nat, size: nat, path: seq<byte>)
    requires Sound(d, v)
    ensures ReadInSnapshot(d, v, id, oid, offset, size) == Err(NoSuchSnapshot)
      <==> forall s | s in v.snapshots :: s.id != id
    ensures ResolveInSnapshot(d, v, id, path).Err? <==> forall s | s in v.snapshots :: s.id != id
    ensures ResolveInSnapshot(d, v, id, path).Err? ==> ResolveInSnapshot(d, v, id, path) == Err(NoSuchSnapshot)
  {
    hide Sound, SnapshotView, ReadFile, SnapshotFileSystem, ReadsAs;
    var found := FindSnapshot(v.snapshots, id);
    if found.Some? {
      assert v.snapshots[found.value] in v.snapshots;
      SnapshotReadReturns(d, v, id, oid, offset, size);
      SnapshotViewed(d, v, id);
    }
  }

  lemma SnapshotViewed(d: Disk, v: Vol, id: nat)
    requires Sound(d, v) && FindSnapshot(v.snapshots, id).Some?
    ensures SnapshotView(d, v.snapshots[FindSnapshot(v.snapshots, id).value], v.Total()).Ok?
  {
    hide Sound, SnapshotsOk, SnapshotView, SnapshotOk;
    SoundSnapshots(d, v);
    var i, core := FindSnapshot(v.snapshots, id).value, Core(d, v.HighWater());
    SnapshotIsOk(core, v.snapshots, i, v.Total());
    CoreKnows(d, v.HighWater());
    SnapshotReads(core, d, v.snapshots[i], v.Total());
  }

  lemma ResizeAnswers(d: Disk, v: Vol, oid: nat, size: nat, hoisted: bool)
    requires Sound(d, v)
    ensures Answer(ResizeFile(d, v, oid, size, hoisted)) ==
            if !IsFile(v, oid) then Some(NotAFile)
            else if GuardChunks(size) > v.Total() / NODE_SECTORS then Some(TooLarge)
            else if size > MAX_BUFFER then Some(BufferTooLong)
            else None
  {
    hide Sound, ReadFile, OldBytes, Contents, Fit, GuardChunks;
    if IsFile(v, oid) {
      OldBytesAre(d, v, oid, hoisted);
    }
  }

  lemma OverwriteAnswers(d: Disk, v: Vol, oid: nat, offset: nat, data: seq<byte>, hoisted: bool)
    requires Sound(d, v)
    ensures Answer(WriteFile(d, v, oid, offset, data, hoisted)) ==
            if !IsFile(v, oid) then Some(NotAFile)
            else if offset + |data| > MAX_OFFSET || GuardChunks(offset + |data|) > v.Total() / NODE_SECTORS
            then Some(TooLarge)
            else if offset + |data| > MAX_BUFFER
                    && offset + |data| > |Start(v, oid, Live(d, v).entities[oid].bytes, hoisted)|
            then Some(BufferTooLong)
            else None
  {
    hide Sound, ReadFile, OldBytes, Contents, Fit, GuardChunks;
    if IsFile(v, oid) {
      var end := offset + |data|;
      ResizeAnswers(d, v, oid, end, hoisted);
      OldBytesAre(d, v, oid, hoisted);
      StartFits(d, v, oid, hoisted);
      if end > v.view.objects[oid].size && ResizeFile(d, v, oid, end, hoisted).Ok? {
        ResizeFits(d, v, oid, end, hoisted);
        OldBytesAre(d, ResizeFile(d, v, oid, end, hoisted).value, oid, hoisted);
      }
      hide ResizeFile;
    }
  }

  /** Resizing and writing are refused for the wrong kind of object, for lack of room, or for a buffer
      no host can hold: the read of the old bytes inside them never fails, on either side of the
      pending entry. */
  lemma WriteAnswers(d: Disk, v: Vol, oid: nat, offset: nat, data: seq<byte>, size: nat, hoisted: bool)
    requires Sound(d, v)
    ensures Answer(ResizeFile(d, v, oid, size, hoisted)) ==
            if !HoldsFile(Live(d, v), oid) then Some(NotAFile)
            else if Wrapped(size + 4095) / 4096 > v.Total() / 8 then Some(TooLarge)
            else if size > 0x7FFF_FFFF_FFFF_FFFF then Some(BufferTooLong)
            else None
    ensures Answer(WriteFile(d, v, oid, offset, data, hoisted)) ==
            if !HoldsFile(Live(d, v), oid) then Some(NotAFile)
            else if offset + |data| >= 0x1_0000_0000_0000_0000
                    || Wrapped(offset + |data| + 4095) / 4096 > v.Total() / 8
            then Some(TooLarge)
            else if offset + |data| > 0x7FFF_FFFF_FFFF_FFFF
                    && offset + |data| > |Start(v, oid, Live(d, v).entities[oid].bytes, hoisted)|
            then Some(BufferTooLong)
            else None
  {
    GuardIs(size);
    GuardIs(offset + |data|);
    ResizeAnswers(d, v, oid, size, hoisted);
    OverwriteAnswers(d, v, oid, offset, data, hoisted);
    hide Sound, ResizeFile, WriteFile, Contents, GuardChunks, Wrapped, Start;
  }

  /** Taking a snapshot needs a clean volume and a short label; deleting needs a snapshot on the list;
      rolling back needs both a clean volume and a snapshot on the list, and then never fails to read it. */
  lemma SnapshotAnswers(d: Disk, v: Vol, labelText: seq<byte>, now: nat, id: nat)
    requires Sound(d, v)
    ensures Answer(TakeSnapshot(v, labelText, now)) ==
            if !v.Clean() then Some(NotClean) else if |labelText| > 56 then Some(LabelTooLong) else None
    ensures Answer(DropSnapshot(v, id)) ==
            if forall s | s in v.snapshots :: s.id != id then Some(NoSuchSnapshot) else None
    ensures Answer(RollBack(d, v, id)) ==
            if forall s | s in v.snapshots :: s.id != id then Some(NoSuchSnapshot)
            else if !v.Clean() then Some(NotClean)
            else None
  {
    hide Sound, SnapshotView, SnapshotFileSystem;
    var found := FindSnapshot(v.snapshots, id);
    if found.Some? {
      assert v.snapshots[found.value] in v.snapshots;
      if v.Clean() {
        RollBackLoads(d, v, id);
      }
    }
  }
}
