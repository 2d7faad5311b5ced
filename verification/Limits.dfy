/** A run that goes past the limits of the reader: more directories than it accepts, saved. */
module Limits {
  import opened ArcTypes
  import opened Reader
  import opened Soundness
  import opened CommitProofs
  import opened Commit
  import opened Space
  import opened CommitTheorems
  import opened Crash
  import opened Operations
  import opened OperationProofs
  import opened Runs
  import opened Format
  import opened Witnesses

  /** Make `n` directories, each in the one before; identifiers are given out in order. */
  function Nest(parent: nat, next: nat, n: nat): (ops: seq<Op>)
    ensures |ops| == n
    decreases n
  {
    if n == 0 then [] else [MakeDirectory(parent, A)] + Nest(next, next + 1, n - 1)
  }

  /** Nothing but directories, nothing pending but them. */
  predicate AllDirectories(v: Vol) {
    && (forall k | k in v.view.objects :: v.view.objects[k].kind == DIRECTORY)
    && v.dirty == map[] && v.view.attributes == [] && v.snapshots == []
  }

  /** The end of a chain of directories: one in which `a` is free. */
  ghost predicate Open(d: Disk, v: Vol, parent: nat) {
    Sound(d, v) && AllDirectories(v) && IsDirectory(v, parent) && Find(v.view.names, parent, A).None?
  }

  /** `w` is `v` with `n` more directories. */
  predicate Deeper(v: Vol, w: Vol, n: nat) {
    && (AllDirectories(v) ==> AllDirectories(w)) && w.super == v.super && w.checkpoint == v.checkpoint
    && |w.view.objects| == |v.view.objects| + n && |w.view.names| == |v.view.names| + n
       && (n > 0 || v.metadataDirty ==> w.metadataDirty)
  }

  lemma NoDeeper(v: Vol)
    ensures Deeper(v, v, 0)
  {
  }

  lemma DeeperMore(v: Vol, w: Vol, x: Vol, n: nat)
    requires Deeper(v, w, 1) && Deeper(w, x, n)
    ensures Deeper(v, x, n + 1)
  {
    hide AllDirectories;
  }

  lemma OneDeeper(d: Disk, v: Vol, parent: nat)
    requires Open(d, v, parent)
    ensures var w := Edit(d, v, MakeDirectory(parent, A));
      Open(d, w, v.nextOid) && w.nextOid == v.nextOid + 1 && Deeper(v, w, 1)
  {
    hide Sound, NamesOk, Live;
    CreateAdds(d, v, parent, A, DIRECTORY);
    SoundParts(d, v);
    var w := AddObject(v, parent, A, DIRECTORY);
    assert Edit(d, v, MakeDirectory(parent, A)) == w;
    assert w.view.objects.Keys == v.view.objects.Keys + {v.nextOid};
    assert |w.view.objects| == |w.view.objects.Keys| && |v.view.objects| == |v.view.objects.Keys|;
    NoneBelow(v, parent);
  }

  /** A fresh directory is empty. */
  lemma NoneBelow(v: Vol, parent: nat)
    requires NamesOk(v.view.names, v.view.objects) && FreshOid(v) && parent in v.view.objects
    ensures Find(v.view.names + [DirEntry(parent, A, v.nextOid)], v.nextOid, A).None?
  {
    var names := v.view.names + [DirEntry(parent, A, v.nextOid)];
    forall e | e in names
      ensures e.parent != v.nextOid
    {
      if e in v.view.names {
        assert e.parent in v.view.objects;
      }
    }
  }

  lemma {:induction false} NestRuns(d: Disk, v: Vol, parent: nat, n: nat)
    requires Open(d, v, parent)
    ensures Exec(d, v, Nest(parent, v.nextOid, n)).Some?
    ensures var (e, w) := Exec(d, v, Nest(parent, v.nextOid, n)).value; e == d && Sound(d, w) && Deeper(v, w, n)
    decreases n
  {
    hide Sound, Edit, Exec, AllDirectories, Deeper, Find;
    if n == 0 {
      NoSteps(d, v);
      NoDeeper(v);
    } else {
      hide Open;
      var w := Edit(d, v, MakeDirectory(parent, A));
      OneDeeper(d, v, parent);
      NestRuns(d, w, v.nextOid, n - 1);
      Steps(d, v, MakeDirectory(parent, A), Nest(v.nextOid, v.nextOid + 1, n - 1), d, w);
      DeeperMore(v, w, Exec(d, w, Nest(v.nextOid, v.nextOid + 1, n - 1)).value.1, n - 1);
    }
  }

  lemma {:induction false} DirectoriesTakeNone(v: Vol, keys: seq<nat>)
    requires AllDirectories(v) && forall k | k in keys :: k in v.view.objects
    ensures FreshChunks(v, keys) == 0 && AllChunks(v, keys) == 0
  {
    if |keys| != 0 {
      DirectoriesTakeNone(v, keys[..|keys| - 1]);
    }
  }

  lemma DirectoriesFit(v: Vol)
    requires AllDirectories(v) && RoomLeft(v, |v.view.objects| + |v.view.names|)
    ensures RoomFor(v)
  {
    hide RoomLeft, RoomFor;
    DirectoriesTakeNone(v, AllKeys(v));
    hide FreshChunks, AllChunks, AllKeys;
    RoomLeftFits(v, |v.view.objects| + |v.view.names|);
  }

  /** On a formatted disk of 40000 sectors or more, making 2048 nested directories is accepted, and
      saving them overwrites the ring with a generation the reader refuses: the disk no longer mounts. */
  lemma NestingUnmounts(d: Disk, volumeId: nat)
    requires |d| >= 40000
    ensures Formatted(d, volumeId).Ok? && Mount(Formatted(d, volumeId).value).Ok?
    ensures var e, v := Formatted(d, volumeId).value, Mount(Formatted(d, volumeId).value).value;
      var nest := Nest(ROOT_OID, v.nextOid, MAX_OBJECTS);
      Exec(e, v, nest).Some? &&
      var (f, w) := Exec(e, v, nest).value;
      && f == e && Sound(e, w) && RoomFor(w) && |w.view.objects| == MAX_OBJECTS + 1
      && InBounds(e, w) && Mount(CommitDisk(e, w)).Err? && Exec(e, v, nest + [Save]) == None
  {
    hide Sound, FormatDisk, DiskOk, Mount, Exec, CommitDisk, RoomFor, Nest;
    FormatSound(d, volumeId);
    var e, v := Formatted(d, volumeId).value, Mount(Formatted(d, volumeId).value).value;
    assert Open(e, v, ROOT_OID);
    hide Open, AllDirectories, Backed;
    NestRuns(e, v, ROOT_OID, MAX_OBJECTS);
    var w := Exec(e, v, Nest(ROOT_OID, v.nextOid, MAX_OBJECTS)).value.1;
    assert |v.view.objects| == 1 by {
      assert |{ROOT_OID}| == 1 && v.view.objects.Keys == {ROOT_OID};
      assert |v.view.objects| == |v.view.objects.Keys|;
    }
    DirectoriesFit(w);
    CommitMountsIff(e, w);
    EndsLost(e, w);
    ExecThen(e, v, Nest(ROOT_OID, v.nextOid, MAX_OBJECTS), Save);
  }
}
