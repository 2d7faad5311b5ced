/** Failing inputs that can be received: runs from a formatted disk on which the conditions of the exact
    theorems do not hold, and what they do. */
module Witnesses {
  import opened ArcTypes
  import opened Keys
  import opened Reader
  import opened Writer
  import opened Soundness
  import opened StageProofs
  import opened CommitProofs
  import opened Commit
  import opened Space
  import opened CommitTheorems
  import opened Durability
  import opened Crash
  import opened Operations
  import opened OperationProofs
  import opened Namespace
  import opened Refusals
  import opened Snapshots
  import opened Runs
  import opened Format

  const A: Name := [97]
  const B: Name := [98]

  // ---- A crash leaves the new superblock in slot 0 alone ------------------------------------------

  /** After a crash right behind the first ring write, the disk mounts as the new volume, and no slot
      but the first carries its superblock: the next commit is not crash-atomic. */
  lemma CrashUnbacks(d: Disk, v: Vol)
    requires Sound(d, v) && !v.Clean() && RoomFor(v) && Remountable(v)
    ensures CrashPoint(v, |Prepare(v).flow.out| + 1, false)
    ensures forall w | w in CommitLog(v) :: w.sector < |d|
    ensures var e := CrashDisk(d, CommitLog(v), |Prepare(v).flow.out| + 1, false);
      Mount(e).Ok? && Mount(e).value.checkpoint.record == Prepare(v).record && !Backed(e, Mount(e).value)
  {
    hide Sound, Prepare, FinalStage, RoomFor, Remountable, BodyOk, Mount, Backed, CrashDisk;
    SoundBounds(d, v);
    RoomIff(d, v);
    LogIsCommit(d, v);
    PrepareBody(d, v);
    CrashUnbacksBody(d, v, Prepare(v), FinalStage(v));
  }

  lemma CrashUnbacksBody(d: Disk, v: Vol, p: Prepared, s: Stage)
    requires Sound(d, v) && BodyOk(d, v, p, s) && Remountable(v) && RING_SLOTS <= v.HighWater() <= v.Total() <= |d|
    ensures forall w | w in PublishLog(v, p) :: w.sector < |d|
    ensures var e := CrashDisk(d, PublishLog(v, p), |p.flow.out| + 1, false);
      Mount(e).Ok? && Mount(e).value.checkpoint.record == p.record && !Backed(e, Mount(e).value)
  {
    hide Sound, Remountable, BodyOk, DiskOk, Mount, Backed, NewVolume, CrashDisk, PublishLog;
    BodyClosed(d, v, p, s);
    CrashAfter(d, v, p, s, 1, false);
    CrashInRing(d, v, p, 1, false);
    NewVolumeIs(v, p, s);
    OldSlotsDiffer(d, v, p);
    var e := CrashDisk(d, PublishLog(v, p), |p.flow.out| + 1, false);
    NotBacked(d, v, p, e, Mount(e).value);
  }

  lemma NewVolumeIs(v: Vol, p: Prepared, s: Stage)
    ensures NewVolume(v, p, s, 0).super.record == CommitSuper(v, p)
    ensures NewVolume(v, p, s, 0).checkpoint.record == p.record
  {
  }

  /** No old slot carries the new superblock: its checkpoint lies above the old high-water mark. */
  lemma OldSlotsDiffer(d: Disk, v: Vol, p: Prepared)
    requires Sound(d, v) && Closed(v, p) && RING_SLOTS <= v.HighWater() <= |d|
    ensures forall i: nat | i < RING_SLOTS :: d[i] != Super(CommitSuper(v, p))
  {
    hide Sound, LoadedOk, SnapshotsOk;
    forall i: nat | i < RING_SLOTS
      ensures d[i] != Super(CommitSuper(v, p))
    {
      if d[i] == Super(CommitSuper(v, p)) {
        assert RecognizedFlags(COMMIT_FLAGS);
        SuperIsValid(d, v, i);
        SlotsBelow(d, v, i);
      }
    }
  }

  lemma NotBacked(d: Disk, v: Vol, p: Prepared, e: Disk, w: Vol)
    requires |e| == |d| >= RING_SLOTS && w.super.record == CommitSuper(v, p)
    requires forall i: nat | 0 < i < RING_SLOTS :: e[i] == d[i]
    requires forall i: nat | i < RING_SLOTS :: d[i] != Super(CommitSuper(v, p))
    ensures !Backed(e, w)
  {
  }

  // ---- A rename into the moved subtree ------------------------------------------------------------

  /** Making `a` and `a/b` on a formatted disk and renaming `a` to `a/b/a` is accepted, and leaves no
      tree. */
  lemma RenameBreaks(d: Disk, volumeId: nat)
    requires Formatted(d, volumeId).Ok?
    ensures Mount(Formatted(d, volumeId).value).Ok?
    ensures var e, v := Formatted(d, volumeId).value, Mount(Formatted(d, volumeId).value).value;
      var run := Exec(e, v,
          [MakeDirectory(ROOT_OID, A), MakeDirectory(v.nextOid, B), Rename(ROOT_OID, A, v.nextOid + 1, A)]);
      run.Some? && !Rooted(run.value.1.view)
  {
    hide Formatted, Sound, DiskOk, Mount, Backed, Exec, Edit, Live;
    FormatSound(d, volumeId);
    var e, v := Formatted(d, volumeId).value, Mount(Formatted(d, volumeId).value).value;
    NestedMade(e, v);
    NestedBreaks(e, Edit(e, Edit(e, v, MakeDirectory(ROOT_OID, A)), MakeDirectory(v.nextOid, B)), v.nextOid,
        v.nextOid + 1);
    ThreeEdits(e, v, MakeDirectory(ROOT_OID, A), MakeDirectory(v.nextOid, B), Rename(ROOT_OID, A, v.nextOid + 1, A));
  }

  /** A run, one step at a time. */
  lemma Steps(d: Disk, v: Vol, op: Op, rest: seq<Op>, e: Disk, w: Vol)
    requires Step(d, v, op) == Some((e, w))
    ensures Exec(d, v, [op] + rest) == Exec(e, w, rest)
  {
    hide Step;
    assert ([op] + rest)[0] == op && ([op] + rest)[1..] == rest;
  }

  /** Three in-memory operations, one after the other. */
  lemma ThreeEdits(d: Disk, v: Vol, a: Op, b: Op, c: Op)
    requires forall op | op in [a, b, c] :: op.MakeDirectory? || op.Rename?
    ensures Exec(d, v, [a, b, c]) == Some((d, Edit(d, Edit(d, Edit(d, v, a), b), c)))
  {
    hide Edit;
    var v1, v2 := Edit(d, v, a), Edit(d, Edit(d, v, a), b);
    Steps(d, v, a, [b, c], d, v1);
    Steps(d, v1, b, [c], d, v2);
    Steps(d, v2, c, [], d, Edit(d, v2, c));
    assert [a, b, c] == [a] + [b, c] && [b, c] == [b] + [c] && [c] == [c] + [];
  }

  /** A tree with directories `a` and `a/b`. */
  ghost predicate Nested(d: Disk, v: Vol, outer: nat, inner: nat) {
    && Sound(d, v) && Rooted(v.view) && IsDirectory(v, inner) && outer != ROOT_OID && inner != outer
       && inner != ROOT_OID
    && v.view.names == [DirEntry(ROOT_OID, A, outer), DirEntry(outer, B, inner)]
  }

  lemma DirectoryMade(d: Disk, v: Vol, parent: nat, name: Name)
    requires Sound(d, v) && Rooted(v.view) && ValidName(name)
    requires IsDirectory(v, parent) && Find(v.view.names, parent, name).None?
    ensures Edit(d, v, MakeDirectory(parent, name)) == AddObject(v, parent, name, DIRECTORY)
    ensures Sound(d, AddObject(v, parent, name, DIRECTORY)) && Rooted(AddObject(v, parent, name, DIRECTORY).view)
    ensures IsDirectory(AddObject(v, parent, name, DIRECTORY), v.nextOid)
  {
    hide Sound, Rooted, Live, Find, ValidName;
    CreateRooted(d, v, parent, name, DIRECTORY);
    CreateAdds(d, v, parent, name, DIRECTORY);
  }

  lemma NestedMade(d: Disk, v: Vol)
    requires Sound(d, v) && v.view == EMPTY_VIEW && v.Clean()
    ensures Nested(d, Edit(d, Edit(d, v, MakeDirectory(ROOT_OID, A)), MakeDirectory(v.nextOid, B)), v.nextOid,
        v.nextOid + 1)
  {
    hide Sound, Rooted, Edit;
    EmptyViewOk(d);
    SoundParts(d, v);
    DirectoryMade(d, v, ROOT_OID, A);
    var a := AddObject(v, ROOT_OID, A, DIRECTORY);
    DirectoryMade(d, a, v.nextOid, B);
  }

  lemma InnerBelow(names: seq<DirEntry>, outer: nat, inner: nat)
    requires names == [DirEntry(ROOT_OID, A, outer), DirEntry(outer, B, inner)] && outer != ROOT_OID
    ensures Under(names, outer, inner)
  {
    var down := [B];
    assert Find(names[1..], outer, B) == Some(0);
    assert Resolve(names, inner, down[1..]) == Some(inner);
    assert Resolve(names, outer, down) == Some(inner);
  }

  lemma NestedBreaks(d: Disk, v: Vol, outer: nat, inner: nat)
    requires Nested(d, v, outer, inner)
    ensures !Rooted(Edit(d, v, Rename(ROOT_OID, A, inner, A)).view)
  {
    hide Sound, Rooted, Under, Resolve;
    InnerBelow(v.view.names, outer, inner);
    assert Find(v.view.names, ROOT_OID, A) == Some(0);
    assert Find(v.view.names[1..], inner, A) == None && Find(v.view.names, inner, A) == None;
    RenameRootedIff(d, v, ROOT_OID, A, inner, A);
  }

  // ---- A write that loses old bytes ----------------------------------------------------------------

  /** A volume with one new file of two pending bytes. */
  predicate OneFile(v: Vol, w: Vol, oid: nat) {
    && oid == v.nextOid && w.snapshots == [] && w.super == v.super && w.checkpoint == v.checkpoint && w.metadataDirty
    && w.view == View(map[ROOT_OID := ROOT_DIRECTORY, oid := Object(oid, 0, FILE, 2, oid)],
                      [DirEntry(ROOT_OID, A, oid)], map[], [])
    && w.dirty == map[oid := [7, 7]]
  }

  lemma FileWritten(d: Disk, v: Vol)
    requires Sound(d, v) && v.view == EMPTY_VIEW && v.Clean() && v.snapshots == [] && v.Total() >= NODE_SECTORS
    ensures var a := Edit(d, v, MakeFile(ROOT_OID, A));
      var b := Edit(d, a, Put(v.nextOid, 0, [7, 7]));
      Sound(d, b) && OneFile(v, b, v.nextOid)
  {
    hide Sound, ReadFile;
    var oid := v.nextOid;
    var a := Edit(d, v, MakeFile(ROOT_OID, A));
    SoundParts(d, v);
    EditKeeps(d, v, MakeFile(ROOT_OID, A));
    CreateAnswers(d, v, ROOT_OID, A);
    assert a == AddObject(v, ROOT_OID, A, FILE);
    EditKeeps(d, a, Put(oid, 0, [7, 7]));
    assert Fit([], 2) == [0, 0];
    assert WriteFile(d, a, oid, 0, [7, 7], false).Ok?;
    var b := WriteFile(d, a, oid, 0, [7, 7], false).value;
    assert b.dirty[oid] == [7, 7];
  }

  /** A volume with one file `a` of one chunk, and nothing else but perhaps attributes. */
  ghost predicate OnlyFile(v: Vol, oid: nat) {
    && oid > ROOT_OID && v.view.objects.Keys == {ROOT_OID, oid}
    && v.view.objects[ROOT_OID].kind == DIRECTORY && v.view.objects[oid].kind == FILE
    && v.view.names == [DirEntry(ROOT_OID, A, oid)] && v.snapshots == [] && v.dirty.Keys <= {oid}
  }

  lemma TwoKeys(v: Vol, oid: nat)
    requires v.view.objects.Keys == {ROOT_OID, oid} && oid > ROOT_OID
    ensures AllKeys(v) == [ROOT_OID, oid]
  {
    SortedKeysAre(v.view.objects.Keys);
    var keys := AllKeys(v);
    assert |{ROOT_OID, oid}| == 2;
    assert keys[0] in keys && keys[1] in keys;
  }

  lemma OneMoreKey(w: Vol, keys: seq<nat>, oid: nat)
    requires forall k | k in keys + [oid] :: k in w.view.objects
    ensures FreshChunks(w, keys + [oid]) == FreshChunks(w, keys) + if oid in w.dirty then NewChunks(w, oid) else 0
    ensures AllChunks(w, keys + [oid]) == AllChunks(w, keys) + NewChunks(w, oid)
    ensures FreshChunks(w, []) == 0 && AllChunks(w, []) == 0
  {
    hide NewChunks;
    assert (keys + [oid])[..|keys|] == keys;
  }

  /** The rows and chunks its commit writes, besides its attributes. */
  lemma OnlyFileRows(v: Vol, oid: nat)
    requires OnlyFile(v, oid) && NewChunks(v, oid) == 1
    ensures Rows(v) <= 5 + |v.view.attributes|
  {
    TwoKeys(v, oid);
    assert NewChunks(v, ROOT_OID) == 0;
    hide NewChunks;
    OneMoreKey(v, [], ROOT_OID);
    OneMoreKey(v, [ROOT_OID], oid);
    assert [] + [ROOT_OID] == [ROOT_OID] && [ROOT_OID] + [oid] == [ROOT_OID, oid];
    hide FreshChunks, AllChunks, AllKeys;
    assert |{ROOT_OID, oid}| == 2;
    assert |v.view.objects| == |v.view.objects.Keys|;
  }

  /** A volume with the root directory alone. */
  lemma RootRows(v: Vol)
    requires v.view.objects.Keys == {ROOT_OID} && v.view.objects[ROOT_OID].kind == DIRECTORY
    ensures |v.view.objects| == 1
    ensures Rows(v) == 1 + |v.view.names| + |v.view.attributes| + |v.snapshots|
  {
    OnlyKey(v);
    assert NewChunks(v, ROOT_OID) == 0;
    hide AllKeys, NewChunks;
    OneMoreKey(v, [], ROOT_OID);
    assert [] + [ROOT_OID] == [ROOT_OID];
    hide FreshChunks, AllChunks;
    assert |{ROOT_OID}| == 1;
    assert |v.view.objects| == |v.view.objects.Keys|;
  }

  lemma OnlyKey(v: Vol)
    requires v.view.objects.Keys == {ROOT_OID}
    ensures AllKeys(v) == [ROOT_OID]
  {
    SortedKeysAre(v.view.objects.Keys);
    assert |{ROOT_OID}| == 1;
    assert AllKeys(v)[0] in AllKeys(v);
  }

  /** There is room for a commit of this many rows and chunks. */
  predicate RoomLeft(v: Vol, rows: nat) {
    MarkBound(v.HighWater(), rows) <= v.Total()
  }

  lemma RoomLeftFits(v: Vol, rows: nat)
    requires Rows(v) <= rows && RoomLeft(v, rows)
    ensures RoomFor(v) && NewHighWater(v) <= MarkBound(v.HighWater(), rows)
  {
    hide Rows, NewHighWater;
    RoomBound(v);
  }

  /** The commit of such a volume: the same file, as large as its pending bytes. */
  lemma OnlyFileCommits(d: Disk, v: Vol, oid: nat)
    requires Sound(d, v) && !v.Clean() && OnlyFile(v, oid) && NewChunks(v, oid) == 1
    requires AttributesAttached(v) && |v.view.attributes| <= 1 && RoomLeft(v, 5 + |v.view.attributes|)
    ensures RING_SLOTS <= v.HighWater() <= v.Total() <= |d| && CommitEnding(d, v).Done?
    ensures var e, w := CommitDisk(d, v), CommitEnding(d, v).vol;
      && Sound(e, w) && w.Clean() && Live(e, w) == Live(d, v) && w.Total() == v.Total()
      && OnlyFile(w, oid) && w.view.objects[oid] == Moved(v, oid)
      && multiset(w.view.attributes) == multiset(v.view.attributes)
      && w.HighWater() <= MarkBound(v.HighWater(), 5 + |v.view.attributes|)
  {
    hide Sound, Rows, NewHighWater, CommitDisk, CommitEnding, NewChunks, FileSystemOf, RoomFor;
    OnlyFileRows(v, oid);
    RoomLeftFits(v, 5 + |v.view.attributes|);
    assert |{ROOT_OID, oid}| == 2;
    assert |v.view.objects| == |v.view.objects.Keys|;
    CommitRefines(d, v);
    CommitSizes(d, v);
    var e, w := CommitDisk(d, v), CommitEnding(d, v).vol;
    SameAttributes(d, v, e, w);
    OneEntry(w.view.names, DirEntry(ROOT_OID, A, oid));
    assert w.view.objects[ROOT_OID] == Moved(v, ROOT_OID);
    assert w.dirty == map[];
  }

  lemma SameAttributes(d: Disk, v: Vol, e: Disk, w: Vol)
    requires Live(e, w) == Live(d, v)
    ensures multiset(w.view.attributes) == multiset(v.view.attributes)
  {
  }

  lemma OneEntry(names: seq<DirEntry>, x: DirEntry)
    requires multiset(names) == multiset([x])
    ensures names == [x]
  {
    assert |names| == |multiset(names)| == 1;
    assert names[0] in multiset(names);
  }

  /** One more step at the end of a run. */
  lemma {:induction false} ExecThen(d: Disk, v: Vol, ops: seq<Op>, op: Op)
    requires Exec(d, v, ops).Some?
    ensures Exec(d, v, ops + [op]) == Step(Exec(d, v, ops).value.0, Exec(d, v, ops).value.1, op)
    decreases |ops|
  {
    hide Step;
    if |ops| == 0 {
      assert ops + [op] == [op] && [op][1..] == [];
    } else {
      assert (ops + [op])[0] == ops[0] && (ops + [op])[1..] == ops[1..] + [op];
      ExecThen(Step(d, v, ops[0]).value.0, Step(d, v, ops[0]).value.1, ops[1..], op);
    }
  }

  /** The run that makes, writes and saves a file `a` of two bytes. */
  function Saving(v: Vol): seq<Op> {
    [MakeFile(ROOT_OID, A), Put(v.nextOid, 0, [7, 7]), Save]
  }

  /** A clean volume with a stored file of two bytes. */
  ghost predicate HoldsSaved(d: Disk, v: Vol, oid: nat) {
    && Sound(d, v) && v.Clean() && IsFile(v, oid) && v.Total() >= 64
    && oid in Live(d, v).entities && Live(d, v).entities[oid].bytes == [7, 7]
    && OnlyFile(v, oid) && v.view.objects[oid].size == 2 && v.view.attributes == []
    && (v.Total() >= 512 ==> 4 * v.HighWater() <= v.Total())
  }

  /** The high-water mark of a formatted volume. */
  predicate FormattedMark(v: Vol) {
    v.HighWater() == (v.Total() + (BITMAP_SPAN - 1)) / BITMAP_SPAN + 14
  }

  lemma SavingRuns(d: Disk, v: Vol)
    requires Sound(d, v) && v.view == EMPTY_VIEW && v.Clean() && v.snapshots == []
    requires FormattedMark(v) && v.Total() >= 64
    ensures Exec(d, v, Saving(v)).Some?
    ensures HoldsSaved(Exec(d, v, Saving(v)).value.0, Exec(d, v, Saving(v)).value.1, v.nextOid)
    ensures Exec(d, v, Saving(v)).value.1.Total() == v.Total()
  {
    hide Sound, Edit, CommitDisk, CommitEnding, Exec, HoldsSaved;
    var oid := v.nextOid;
    var a := Edit(d, v, MakeFile(ROOT_OID, A));
    var b := Edit(d, a, Put(oid, 0, [7, 7]));
    FileWritten(d, v);
    SoundParts(d, v);
    OneFileSaved(d, v, b, oid);
    var e, w := CommitDisk(d, b), CommitEnding(d, b).vol;
    Steps(d, v, MakeFile(ROOT_OID, A), [Put(oid, 0, [7, 7]), Save], d, a);
    Steps(d, a, Put(oid, 0, [7, 7]), [Save], d, b);
    Steps(d, b, Save, [], e, w);
    NoSteps(e, w);
    assert Saving(v) == [MakeFile(ROOT_OID, A)] + [Put(oid, 0, [7, 7]), Save];
    assert [Put(oid, 0, [7, 7]), Save] == [Put(oid, 0, [7, 7])] + [Save] && [Save] == [Save] + [];
  }

  lemma NoSteps(d: Disk, v: Vol)
    ensures Exec(d, v, []) == Some((d, v))
  {
  }

  lemma OneFileSaved(d: Disk, v: Vol, b: Vol, oid: nat)
    requires Sound(d, b) && OneFile(v, b, oid) && oid > ROOT_OID && FormattedMark(v) && b.Total() >= 64
    ensures RING_SLOTS <= b.HighWater() <= b.Total() <= |d| && CommitEnding(d, b).Done?
    ensures HoldsSaved(CommitDisk(d, b), CommitEnding(d, b).vol, oid) && CommitEnding(d, b).vol.Total() == b.Total()
  {
    hide Sound, CommitDisk, CommitEnding;
    assert OnlyFile(b, oid) && NewChunks(b, oid) == 1 && Moved(b, oid).size == 2;
    OnlyFileCommits(d, b, oid);
    var e, w := CommitDisk(d, b), CommitEnding(d, b).vol;
    assert Live(d, b).entities[oid] == Entity(FILE, 0, [7, 7]);
    assert Live(e, w).entities[oid] == Entity(FILE, 0, [7, 7]);
    assert |w.view.attributes| == |multiset(w.view.attributes)| == 0;
  }

  /** On a formatted disk, saving a file of two bytes and writing its first byte again loses the second;
      resizing it to the size it has loses both. */
  lemma WriteLoses(d: Disk, volumeId: nat)
    requires |d| >= 64
    ensures Formatted(d, volumeId).Ok? && Mount(Formatted(d, volumeId).value).Ok?
    ensures var e, v := Formatted(d, volumeId).value, Mount(Formatted(d, volumeId).value).value;
      var written, resized := Exec(e, v, Saving(v) + [Put(v.nextOid, 0, [9])]),
          Exec(e, v, Saving(v) + [Resize(v.nextOid, 2)]);
      && written.Some? && v.nextOid in Live(written.value.0, written.value.1).entities
      && Live(written.value.0, written.value.1).entities[v.nextOid].bytes == [9]
      && resized.Some? && v.nextOid in Live(resized.value.0, resized.value.1).entities
      && Live(resized.value.0, resized.value.1).entities[v.nextOid].bytes == [0, 0]
  {
    hide Sound, Exec, FormatDisk, DiskOk, Mount, Backed, HoldsSaved, Live, Edit;
    FormatSound(d, volumeId);
    var e, v := Formatted(d, volumeId).value, Mount(Formatted(d, volumeId).value).value;
    SavingRuns(e, v);
    var (f, w) := Exec(e, v, Saving(v)).value;
    ExecThen(e, v, Saving(v), Put(v.nextOid, 0, [9]));
    ExecThen(e, v, Saving(v), Resize(v.nextOid, 2));
    RewriteLoses(f, w, v.nextOid);
  }

  lemma RewriteLoses(d: Disk, v: Vol, oid: nat)
    requires HoldsSaved(d, v, oid)
    ensures var w := Edit(d, v, Put(oid, 0, [9])); oid in Live(d, w).entities && Live(d, w).entities[oid].bytes == [9]
    ensures var w := Edit(d, v, Resize(oid, 2)); oid in Live(d, w).entities && Live(d, w).entities[oid].bytes == [0, 0]
  {
    hide Sound, WriteFile, ResizeFile, OnlyFile;
    StartFits(d, v, oid, true);
    WriteAnswers(d, v, oid, 0, [9], 2, false);
    WriteOverlays(d, v, oid, 0, [9], false);
    ResizeFits(d, v, oid, 2, false);
    assert Overlay([], 0, [9]) == [9] && Fit([], 2) == [0, 0];
  }

  // ---- A commit that changes a size -----------------------------------------------------------------

  /** Writing the first byte again leaves one pending byte, and the size as it was. */
  lemma RewriteShortens(d: Disk, v: Vol, oid: nat)
    requires HoldsSaved(d, v, oid)
    ensures Edit(d, v, Put(oid, 0, [9])) == v.(dirty := map[oid := [9]])
    ensures Sound(d, Edit(d, v, Put(oid, 0, [9])))
  {
    hide Sound, FileSystemOf;
    EditKeeps(d, v, Put(oid, 0, [9]));
    hide OnlyFile;
    WriteAnswers(d, v, oid, 0, [9], 2, false);
    assert OldBytes(d, v, oid, false) == Ok([]);
    var room := Fit([], 1);
    assert room[..0] + [9] + room[1..] == [9];
  }

  /** On a formatted disk, saving a file of two bytes and writing its first byte again leaves a size of
      two with one pending byte; the next commit makes it one. */
  lemma SizeShrinks(d: Disk, volumeId: nat)
    requires |d| >= 512
    ensures Formatted(d, volumeId).Ok? && Mount(Formatted(d, volumeId).value).Ok?
    ensures var e, v := Formatted(d, volumeId).value, Mount(Formatted(d, volumeId).value).value;
      var oid, run := v.nextOid, Exec(e, v, Saving(v) + [Put(v.nextOid, 0, [9])]);
      && run.Some? && oid in run.value.1.dirty && |run.value.1.dirty[oid]| == 1
      && oid in run.value.1.view.objects && run.value.1.view.objects[oid].size == 2
      && var saved := Settle(run.value.0, run.value.1);
        saved.Some? && oid in saved.value.1.view.objects && saved.value.1.view.objects[oid].size == 1
  {
    hide Sound, Exec, FormatDisk, DiskOk, Mount, Backed, HoldsSaved, Live, Edit, Settle;
    FormatSound(d, volumeId);
    var e, v := Formatted(d, volumeId).value, Mount(Formatted(d, volumeId).value).value;
    SavingRuns(e, v);
    var (f, w) := Exec(e, v, Saving(v)).value;
    ExecThen(e, v, Saving(v), Put(v.nextOid, 0, [9]));
    RewriteShortens(f, w, v.nextOid);
    ShortenedSaves(f, w, v.nextOid);
    SavedFile(f, w, v.nextOid);
  }

  lemma SavedFile(d: Disk, v: Vol, oid: nat)
    requires HoldsSaved(d, v, oid)
    ensures oid in v.view.objects && v.view.objects[oid].size == 2
  {
    hide Sound, Live;
  }

  lemma ShortenedSaves(d: Disk, v: Vol, oid: nat)
    requires HoldsSaved(d, v, oid) && v.Total() >= 512 && Sound(d, v.(dirty := map[oid := [9]]))
    ensures var saved := Settle(d, v.(dirty := map[oid := [9]]));
      saved.Some? && oid in saved.value.1.view.objects && saved.value.1.view.objects[oid].size == 1
  {
    hide Sound, Live, CommitDisk, CommitEnding;
    var w := v.(dirty := map[oid := [9]]);
    assert oid in w.dirty;
    assert OnlyFile(w, oid) && NewChunks(w, oid) == 1 && Moved(w, oid).size == 1;
    OnlyFileCommits(d, w, oid);
  }

  // ---- A size that wraps around ----------------------------------------------------------------------

  /** On a formatted disk, saving a file of two bytes and resizing it to the largest size passes the
      size check, fails, and leaves the file empty. */
  lemma WrapEmpties(d: Disk, volumeId: nat)
    requires |d| >= 64
    ensures Formatted(d, volumeId).Ok? && Mount(Formatted(d, volumeId).value).Ok?
    ensures var e, v := Formatted(d, volumeId).value, Mount(Formatted(d, volumeId).value).value;
      var oid, saved := v.nextOid, Exec(e, v, Saving(v));
      && saved.Some? && oid in Live(saved.value.0, saved.value.1).entities
      && Live(saved.value.0, saved.value.1).entities[oid].bytes == [7, 7]
      && ResizeFile(saved.value.0, saved.value.1, oid, MAX_OFFSET, false) == Err(BufferTooLong)
      && var run := Exec(e, v, Saving(v) + [Resize(oid, MAX_OFFSET)]);
        run.Some? && oid in Live(run.value.0, run.value.1).entities
            && Live(run.value.0, run.value.1).entities[oid].bytes == []
  {
    hide Sound, Exec, FormatDisk, DiskOk, Mount, Backed, HoldsSaved, Live, Edit, ResizeFile;
    FormatSound(d, volumeId);
    var e, v := Formatted(d, volumeId).value, Mount(Formatted(d, volumeId).value).value;
    SavingRuns(e, v);
    var (f, w) := Exec(e, v, Saving(v)).value;
    ExecThen(e, v, Saving(v), Resize(v.nextOid, MAX_OFFSET));
    WrappedEmpties(f, w, v.nextOid);
  }

  lemma WrappedEmpties(d: Disk, v: Vol, oid: nat)
    requires HoldsSaved(d, v, oid)
    ensures oid in Live(d, v).entities && Live(d, v).entities[oid].bytes == [7, 7]
    ensures ResizeFile(d, v, oid, MAX_OFFSET, false) == Err(BufferTooLong)
    ensures var w := Edit(d, v, Resize(oid, MAX_OFFSET));
      oid in Live(d, w).entities && Live(d, w).entities[oid].bytes == []
  {
    hide Sound, ResizeFile, FileSystemOf;
    FilesShown(d, v, oid);
    WriteAnswers(d, v, oid, 0, [], MAX_OFFSET, false);
    assert GuardChunks(MAX_OFFSET) == 0;
    EnteredKeepsIff(d, v, oid);
    assert v.dirty == map[];
  }

  // ---- A label that is cut ----------------------------------------------------------------------------

  /** On a formatted disk, taking a snapshot labelled `a`, NUL, `b` succeeds and lists it as `a`. */
  lemma LabelCut(d: Disk, volumeId: nat)
    requires |d| >= 64
    ensures Formatted(d, volumeId).Ok? && Mount(Formatted(d, volumeId).value).Ok?
    ensures var e, v := Formatted(d, volumeId).value, Mount(Formatted(d, volumeId).value).value;
      var run := Exec(e, v, [Take([97, 0, 98], 0)]);
      run.Some? && |run.value.1.snapshots| == 1 && run.value.1.snapshots[0].labelText == [97]
  {
    hide Sound, Exec, FormatDisk, DiskOk, Mount, Backed, Live, CommitDisk, CommitEnding, FixedLabel;
    FormatSound(d, volumeId);
    var e, v := Formatted(d, volumeId).value, Mount(Formatted(d, volumeId).value).value;
    var w := TakeSnapshot(v, [97, 0, 98], 0).value;
    LabelledFits(v, w);
    LabelSurvivesIff(e, v, [97, 0, 98], 0);
    LabelIs();
    NoSteps(CommitDisk(e, w), CommitEnding(e, w).vol);
    Steps(e, v, Take([97, 0, 98], 0), [], CommitDisk(e, w), CommitEnding(e, w).vol);
    assert [Take([97, 0, 98], 0)] == [Take([97, 0, 98], 0)] + [];
  }

  lemma LabelIs()
    ensures FixedLabel([97, 0, 98]) == [97]
  {
    assert LabelLength([97, 0, 98]) == 1;
    assert [97, 0, 98][..3] == [97, 0, 98];
  }

  lemma LabelledFits(v: Vol, w: Vol)
    requires v.view == EMPTY_VIEW && v.dirty == map[] && v.snapshots == [] && FormattedMark(v) && v.Total() >= 64
    requires w.view == v.view && w.dirty == v.dirty && w.super == v.super
    requires w.checkpoint == v.checkpoint && |w.snapshots| == 1
    ensures RoomFor(w) && Remountable(w)
  {
    RootRows(w);
    hide Rows, RoomFor;
    RoomLeftFits(w, 2);
  }

  // ---- A removal that leaves an attribute behind ----------------------------------------------------

  /** What remains after a removal has its attributes attached exactly when each of them names an
      existing object other than the removed one. */
  lemma RemoveAttachedIff(v: Vol, parent: nat, name: Name)
    requires RemoveChild(v, parent, name).Ok?
    ensures var removed := v.view.names[Find(v.view.names, parent, name).value].child;
      AttributesAttached(RemoveChild(v, parent, name).value)
      <==> forall a | a in v.view.attributes :: a.oid in v.view.objects && a.oid != removed
  {
  }

  /** Committing the removal of an object that has an attribute publishes a volume that cannot be
      mounted. */
  lemma RemoveUnmounts(d: Disk, v: Vol, parent: nat, name: Name, a: Attribute)
    requires Sound(d, v) && RemoveChild(v, parent, name).Ok? && RoomFor(RemoveChild(v, parent, name).value)
    requires a in v.view.attributes && a.oid == v.view.names[Find(v.view.names, parent, name).value].child
    ensures var w := RemoveChild(v, parent, name).value;
      RING_SLOTS <= w.HighWater() <= w.Total() <= |d| && Mount(CommitDisk(d, w)).Err?
  {
    hide Sound, RoomFor, Mount, CommitDisk, Live;
    RemoveTakes(d, v, parent, name);
    RemoveAttachedIff(v, parent, name);
    CommitMountsIff(d, RemoveChild(v, parent, name).value);
  }

  function Tag(oid: nat): Attribute {
    Attribute(oid, 0, 1, 0, 0, 0)
  }

  /** The volume with one attribute on its file. No operation here makes attributes, but a volume may
      carry them. */
  function Tagged(v: Vol, oid: nat): Vol {
    v.(view := v.view.(attributes := [Tag(oid)]), metadataDirty := true)
  }

  /** Such volumes exist as mounted disks, and removing the file and saving unmounts them. */
  lemma AttributeUnmounts(d: Disk, volumeId: nat)
    requires |d| >= 512
    ensures Formatted(d, volumeId).Ok? && Mount(Formatted(d, volumeId).value).Ok?
    ensures var e, v := Formatted(d, volumeId).value, Mount(Formatted(d, volumeId).value).value;
      var oid, saved := v.nextOid, Exec(e, v, Saving(v));
      saved.Some? && Settle(saved.value.0, Tagged(saved.value.1, oid)).Some? &&
      var (g, x) := Settle(saved.value.0, Tagged(saved.value.1, oid)).value;
      && Mount(g) == Ok(x) && Sound(g, x) && x.view.attributes == [Tag(oid)]
      && var y := Edit(g, x, Remove(ROOT_OID, A));
        InBounds(g, y) && Mount(CommitDisk(g, y)).Err? && Exec(g, x, [Remove(ROOT_OID, A), Save]) == None
  {
    hide Sound, Exec, FormatDisk, DiskOk, Mount, Backed, HoldsSaved, Live, Edit, Settle, HoldsTagged;
    FormatSound(d, volumeId);
    var e, v := Formatted(d, volumeId).value, Mount(Formatted(d, volumeId).value).value;
    SavingRuns(e, v);
    var (f, w) := Exec(e, v, Saving(v)).value;
    TaggedSaves(f, w, v.nextOid);
    TaggedMounts(Settle(f, Tagged(w, v.nextOid)).value.0, Settle(f, Tagged(w, v.nextOid)).value.1, v.nextOid);
    RemovalUnmounts(Settle(f, Tagged(w, v.nextOid)).value.0, Settle(f, Tagged(w, v.nextOid)).value.1, v.nextOid);
  }

  ghost predicate HoldsTagged(d: Disk, v: Vol, oid: nat) {
    && Sound(d, v) && v.Clean() && OnlyFile(v, oid) && v.view.attributes == [Tag(oid)]
    && v.Total() >= 512 && 2 * v.HighWater() <= v.Total()
  }

  lemma TaggedSaves(d: Disk, v: Vol, oid: nat)
    requires HoldsSaved(d, v, oid) && v.Total() >= 512
    ensures Settle(d, Tagged(v, oid)).Some?
    ensures HoldsTagged(Settle(d, Tagged(v, oid)).value.0, Settle(d, Tagged(v, oid)).value.1, oid)
  {
    hide Sound, Live, CommitDisk, CommitEnding;
    var w := Tagged(v, oid);
    TaggedSound(d, v, w);
    assert OnlyFile(w, oid) && NewChunks(w, oid) == 1;
    OnlyFileCommits(d, w, oid);
    OneAttribute(CommitEnding(d, w).vol.view.attributes, Tag(oid));
  }

  lemma TaggedSound(d: Disk, v: Vol, w: Vol)
    requires Sound(d, v) && w == v.(view := v.view.(attributes := w.view.attributes), metadataDirty := true)
    ensures Sound(d, w)
  {
    hide Sound, ExtentsOk, NamesOk, ObjectsOk;
    SoundParts(d, v);
    EditSound(d, v, w);
  }

  lemma OneAttribute(l: seq<Attribute>, x: Attribute)
    requires multiset(l) == multiset([x])
    ensures l == [x]
  {
    assert |l| == |multiset(l)| == 1;
    assert l[0] in multiset(l);
  }

  lemma TaggedMounts(d: Disk, v: Vol, oid: nat)
    requires HoldsTagged(d, v, oid)
    ensures Mount(d) == Ok(v) && Sound(d, v) && v.view.attributes == [Tag(oid)]
  {
    hide Sound, Mount;
    CleanMounts(d, v);
  }

  lemma RemovalUnmounts(d: Disk, v: Vol, oid: nat)
    requires HoldsTagged(d, v, oid)
    ensures var y := Edit(d, v, Remove(ROOT_OID, A)); InBounds(d, y) && Mount(CommitDisk(d, y)).Err?
    ensures Exec(d, v, [Remove(ROOT_OID, A), Save]) == None
  {
    hide *;
    RemovalLost(d, v, oid);
    var y := Edit(d, v, Remove(ROOT_OID, A));
    SaveLost(d, y);
    RemoveSteps(d, v, ROOT_OID, A);
    Steps(d, v, Remove(ROOT_OID, A), [Save], d, y);
    assert [Remove(ROOT_OID, A), Save] == [Remove(ROOT_OID, A)] + [Save];
  }

  lemma RemoveSteps(d: Disk, v: Vol, parent: nat, name: Name)
    ensures Step(d, v, Remove(parent, name)) == Some((d, Edit(d, v, Remove(parent, name))))
  {
    hide Edit;
  }

  lemma SaveLost(d: Disk, v: Vol)
    requires Settle(d, v) == None
    ensures Exec(d, v, [Save]) == None
  {
    hide Settle;
    assert [Save][0] == Save;
  }

  lemma RemovalLost(d: Disk, v: Vol, oid: nat)
    requires HoldsTagged(d, v, oid)
    ensures var y := Edit(d, v, Remove(ROOT_OID, A));
      InBounds(d, y) && Mount(CommitDisk(d, y)).Err? && Settle(d, y) == None
  {
    hide Sound, Mount, CommitDisk, Live, RoomFor;
    OnlyFileRemoved(v, oid);
    var y := RemoveChild(v, ROOT_OID, A).value;
    RemovedFits(v, y, oid);
    RemoveTakes(d, v, ROOT_OID, A);
    RemoveUnmounts(d, v, ROOT_OID, A, Tag(oid));
    EndsLost(d, y);
  }

  lemma OnlyFileRemoved(v: Vol, oid: nat)
    requires OnlyFile(v, oid)
    ensures Find(v.view.names, ROOT_OID, A) == Some(0) && RemoveChild(v, ROOT_OID, A).Ok?
    ensures RemoveChild(v, ROOT_OID, A).value ==
            v.(view := v.view.(objects := v.view.objects - {oid}, names := []), dirty := v.dirty - {oid},
                metadataDirty := true)
  {
    assert Find(v.view.names, ROOT_OID, A) == Some(0);
  }

  /** A run ends where a published volume does not mount. */
  lemma EndsLost(d: Disk, v: Vol)
    requires InBounds(d, v) && !v.Clean() && RoomFor(v) && Sound(d, v) && Mount(CommitDisk(d, v)).Err?
    ensures CommitEnding(d, v).Lost? && Settle(d, v) == None
  {
    hide Sound, Mount, Prepare, RoomFor, CommitDisk, MountLeaves;
    RoomIff(d, v);
  }

  lemma RemovedFits(v: Vol, y: Vol, oid: nat)
    requires OnlyFile(v, oid) && v.view.attributes == [Tag(oid)] && v.Total() >= 512 && 2 * v.HighWater() <= v.Total()
    requires y.view.objects == v.view.objects - {oid} && y.view.names == [] && y.view.attributes == v.view.attributes
    requires y.snapshots == [] && y.super == v.super && y.checkpoint == v.checkpoint
    ensures RoomFor(y)
  {
    assert y.view.objects.Keys == {ROOT_OID};
    RootRows(y);
    hide Rows, RoomFor;
    RoomLeftFits(y, 2);
  }
}
