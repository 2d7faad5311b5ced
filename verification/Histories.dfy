/** What clients see over whole histories: from formatting on, and from the taking of a snapshot on. */
module Histories {
  import opened ArcTypes
  import opened Reader
  import opened Soundness
  import opened Operations
  import opened OperationProofs
  import opened Snapshots
  import opened Runs
  import opened Durability
  import opened Format
  import opened TreeRuns

  /** Every state reached from a formatted disk satisfies the invariant. */
  lemma ReachableSound(d: Disk, volumeId: nat, ops: seq<Op>)
    requires Formatted(d, volumeId).Ok?
    ensures Mount(Formatted(d, volumeId).value).Ok?
    ensures var e := Formatted(d, volumeId).value;
      Exec(e, Mount(e).value, ops).Some? ==>
        var (f, w) := Exec(e, Mount(e).value, ops).value; Sound(f, w) && w.Total() == |d|
  {
    hide Formatted, Exec, Sound, DiskOk, Mount, AllRooted;
    FormatSound(d, volumeId);
    FormattedLength(d, volumeId);
    var e := Formatted(d, volumeId).value;
    if Exec(e, Mount(e).value, ops).Some? {
      RunSound(e, Mount(e).value, ops);
    }
  }

  lemma FormattedLength(d: Disk, volumeId: nat)
    requires Formatted(d, volumeId).Ok?
    ensures |Formatted(d, volumeId).value| == |d|
  {
  }

  lemma ListedOnce(d: Disk, v: Vol, s: Snapshot)
    requires Sound(d, v) && Lists(v.snapshots, s)
    ensures FindSnapshot(v.snapshots, s.id).Some?
    ensures AsRead(v.snapshots[FindSnapshot(v.snapshots, s.id).value]) == AsRead(s)
  {
    hide Sound, SnapshotOk, FixedLabel;
    SoundSnapshots(d, v);
    var t :| t in v.snapshots && AsRead(t) == AsRead(s);
    var i :| 0 <= i < |v.snapshots| && v.snapshots[i] == t;
    var j := FindSnapshot(v.snapshots, s.id).value;
    assert i == j;
  }

  /** A file reads, or is refused, as the file system says. */
  lemma ReadsLive(d: Disk, v: Vol, oid: nat, offset: nat, size: nat)
    requires Sound(d, v)
    ensures var fs := Live(d, v);
      ReadFile(d, v, oid, offset, size) ==
        if oid in fs.entities && fs.entities[oid].kind == FILE
        then Ok(Cut(fs.entities[oid].bytes, offset, size)) else Err(NotAFile)
    ensures ReadsAs(ReadFile(d, v, oid, offset, size), Live(d, v), oid, offset, size)
  {
    hide Sound, ReadFile, Live;
    FilesShown(d, v, oid);
    if IsFile(v, oid) {
      ReadReturnsContents(d, v, oid, offset, size);
    } else {
      NoFileRead(d, v, oid, offset, size);
    }
  }

  /** A snapshot is taken and made durable, and stays on the list through a run. */
  ghost predicate KeptThrough(d: Disk, v: Vol, labelText: seq<byte>, now: nat, ops: seq<Op>) {
    TakeSnapshot(v, labelText, now).Ok? && Settle(d, TakeSnapshot(v, labelText, now).value).Some? &&
    var (e, x) := Settle(d, TakeSnapshot(v, labelText, now).value).value;
    OnListThroughout(e, x, ops, Taken(v, labelText, now)) && Exec(e, x, ops).Some?
  }

  /** The disk and the volume at the end of such a run. */
  ghost function AtEnd(d: Disk, v: Vol, labelText: seq<byte>, now: nat, ops: seq<Op>): (Disk, Vol)
    requires KeptThrough(d, v, labelText, now, ops)
  {
    var (e, x) := Settle(d, TakeSnapshot(v, labelText, now).value).value;
    Exec(e, x, ops).value
  }

  /** At the end of any run, through commits, deletions of other snapshots, rollbacks and crashes, a
      snapshot that stayed on the list shows the very objects, entries, extents and attributes the
      volume had when it was taken, and pins the file system it held. */
  lemma SnapshotShowsAsTaken(d: Disk, v: Vol, labelText: seq<byte>, now: nat, ops: seq<Op>)
    requires Sound(d, v) && KeptThrough(d, v, labelText, now, ops)
    ensures var (f, y) := AtEnd(d, v, labelText, now, ops);
      && Sound(f, y) && Lists(y.snapshots, Taken(v, labelText, now))
      && SnapshotView(f, Taken(v, labelText, now), y.Total()) == Ok(v.view)
      && SnapshotFileSystem(f, Taken(v, labelText, now), y.Total()) == Some(Live(d, v))
  {
    hide Sound, Settle, Exec, OnListThroughout, SnapshotFileSystem, SnapshotView, Live, AsRead;
    var w, s := TakeSnapshot(v, labelText, now).value, Taken(v, labelText, now);
    TakePins(d, v, labelText, now);
    TakenView(d, v, labelText, now);
    assert s in w.snapshots;
    FromTaking(d, w, s, ops);
  }

  lemma TakenView(d: Disk, v: Vol, labelText: seq<byte>, now: nat)
    requires Sound(d, v) && TakeSnapshot(v, labelText, now).Ok?
    ensures SnapshotView(d, Taken(v, labelText, now), v.Total()) == Ok(v.view)
  {
    hide Sound, LoadedOk, LoadView, ReadCheckpoint;
    CurrentGeneration(d, v);
  }

  /** The commit that makes a snapshot durable is the first step of its history. */
  lemma FromTaking(d: Disk, w: Vol, s: Snapshot, ops: seq<Op>)
    requires Sound(d, w) && Lists(w.snapshots, s) && Settle(d, w).Some?
    requires OnListThroughout(Settle(d, w).value.0, Settle(d, w).value.1, ops, s)
    requires Exec(Settle(d, w).value.0, Settle(d, w).value.1, ops).Some?
    ensures var (f, y) := Exec(Settle(d, w).value.0, Settle(d, w).value.1, ops).value;
      Sound(f, y) && Lists(y.snapshots, s) && y.Total() == w.Total()
      && SnapshotFileSystem(f, s, y.Total()) == SnapshotFileSystem(d, s, w.Total())
      && SnapshotView(f, s, y.Total()) == SnapshotView(d, s, w.Total())
  {
    hide Sound, Settle, SnapshotFileSystem, SnapshotView;
    var all := [Save] + ops;
    assert all[0] == Save && all[1..] == ops;
    assert Step(d, w, Save) == Settle(d, w);
    hide Step;
    SnapshotImmutable(d, w, all, s);
  }

  /** What a client reads from such a snapshot at the end is what reading the volume returned when it
      was taken. */
  lemma SnapshotReadsAsTaken(d: Disk, v: Vol, labelText: seq<byte>, now: nat, ops: seq<Op>, oid: nat, offset: nat,
                             size: nat)
    requires Sound(d, v) && KeptThrough(d, v, labelText, now, ops)
    ensures var (f, y) := AtEnd(d, v, labelText, now, ops);
      ReadInSnapshot(f, y, Taken(v, labelText, now).id, oid, offset, size) == ReadFile(d, v, oid, offset, size)
  {
    var s := Taken(v, labelText, now);
    hide Sound, KeptThrough, AtEnd, ReadFile, ReadInSnapshot, SnapshotFileSystem, SnapshotView, Live, AsRead, Lists;
    SnapshotShowsAsTaken(d, v, labelText, now, ops);
    var (f, y) := AtEnd(d, v, labelText, now, ops);
    ListedOnce(f, y, s);
    SnapshotReadReturns(f, y, s.id, oid, offset, size);
    SamePins(f, y.snapshots[FindSnapshot(y.snapshots, s.id).value], s, y.Total());
    ReadsLive(d, v, oid, offset, size);
  }

  /** What a snapshot shows does not depend on its label. */
  lemma SamePins(d: Disk, s: Snapshot, t: Snapshot, total: nat)
    requires AsRead(s) == AsRead(t)
    ensures SnapshotView(d, s, total) == SnapshotView(d, t, total)
    ensures SnapshotFileSystem(d, s, total) == SnapshotFileSystem(d, t, total)
  {
    hide FixedLabel, LoadView, ReadCheckpoint;
  }

  /** A path resolved in such a snapshot leads where it led when it was taken. */
  lemma SnapshotResolvesAsTaken(d: Disk, v: Vol, labelText: seq<byte>, now: nat, ops: seq<Op>, path: seq<byte>)
    requires Sound(d, v) && KeptThrough(d, v, labelText, now, ops)
    ensures var (f, y) := AtEnd(d, v, labelText, now, ops);
      ResolveInSnapshot(f, y, Taken(v, labelText, now).id, path) == Ok(ResolvePath(v.view.names, path))
  {
    var s := Taken(v, labelText, now);
    hide Sound, KeptThrough, AtEnd, SnapshotFileSystem, SnapshotView, Live, ResolvePath, AsRead, Lists;
    SnapshotShowsAsTaken(d, v, labelText, now, ops);
    var (f, y) := AtEnd(d, v, labelText, now, ops);
    ListedOnce(f, y, s);
    SamePins(f, y.snapshots[FindSnapshot(y.snapshots, s.id).value], s, y.Total());
  }

  /** Every namespace reached from a formatted disk is a tree, as long as renames stay outside the
      subtree they move. */
  lemma ReachableRooted(d: Disk, volumeId: nat, ops: seq<Op>)
    requires Formatted(d, volumeId).Ok?
    ensures Mount(Formatted(d, volumeId).value).Ok?
    ensures var e := Formatted(d, volumeId).value;
      Exec(e, Mount(e).value, ops).Some? && RenamesOutside(e, Mount(e).value, ops) ==>
        var (f, w) := Exec(e, Mount(e).value, ops).value; AllRooted(f, w)
  {
    hide Formatted, Exec, Sound, DiskOk, Mount, AllRooted, RenamesOutside;
    FormatSound(d, volumeId);
    var e := Formatted(d, volumeId).value;
    if Exec(e, Mount(e).value, ops).Some? && RenamesOutside(e, Mount(e).value, ops) {
      TreeThroughout(e, Mount(e).value, ops);
    }
  }
}
