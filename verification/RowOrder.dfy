/** The order of the rows a commit writes, told from their fields. */
module RowOrder {
  import opened ArcTypes
  import opened Keys
  import opened Reader
  import opened Writer
  import opened TreeProofs
  import opened Soundness
  import opened StageProofs
  import opened CommitProofs
  import opened Commit
  import opened Space
  import opened CommitTheorems

  /** Objects by identifier. */
  predicate ObjectsAscending(l: seq<Object>) {
    forall i, j | 0 <= i < j < |l| :: l[i].oid < l[j].oid
  }

  /** At the first difference the smaller byte comes first, and a proper prefix before what it begins. */
  predicate NameBefore(a: Name, b: Name) {
    exists k: nat {:trigger a[..k]} :: k <= |a| && k < |b| && a[..k] == b[..k] && (k == |a| || a[k] < b[k])
  }

  /** Entries by parent and, in one directory, by name. */
  predicate NamesAscending(l: seq<DirEntry>) {
    forall i, j | 0 <= i < j < |l| ::
      l[i].parent < l[j].parent || (l[i].parent == l[j].parent && NameBefore(l[i].name, l[j].name))
  }

  /** Extents by data slot and chunk. */
  predicate ExtentsAscending(l: seq<Extent>) {
    forall i, j | 0 <= i < j < |l| :: l[i].slot < l[j].slot || (l[i].slot == l[j].slot && l[i].chunk < l[j].chunk)
  }

  /** Attributes by owner and identifier, which several may share. */
  predicate AttributesAscending(l: seq<Attribute>) {
    forall i, j | 0 <= i < j < |l| :: l[i].oid < l[j].oid || (l[i].oid == l[j].oid && l[i].id <= l[j].id)
  }

  /** Snapshots by identifier. */
  predicate SnapshotsAscending(l: seq<Snapshot>) {
    forall i, j | 0 <= i < j < |l| :: l[i].id < l[j].id
  }

  // ---- Keys and fields ----------------------------------------------------------------------------

  lemma OneField(a: nat, b: nat)
    ensures LexLess([a], [b]) <==> a < b
  {
    assert [a][1..] == [] && [b][1..] == [];
  }

  lemma TwoFields(a: nat, x: nat, b: nat, y: nat)
    ensures LexLess([a, x], [b, y]) <==> a < b || (a == b && x < y)
  {
    assert [a, x][1..] == [x] && [b, y][1..] == [y];
    OneField(x, y);
  }

  lemma FieldAndRest(a: nat, x: seq<nat>, b: nat, y: seq<nat>)
    ensures LexLess([a] + x, [b] + y) <==> a < b || (a == b && LexLess(x, y))
  {
    assert ([a] + x)[1..] == x && ([b] + y)[1..] == y;
  }

  /** Padding with zeros keeps the order of names without NUL. */
  lemma PaddedBefore(a: Name, b: Name)
    requires Readable(a) && Readable(b) && a != b && !LexLess(Padded(b), Padded(a))
    ensures NameBefore(a, b)
  {
    var p, q := Padded(a), Padded(b);
    if !LexLess(p, q) {
      LexTotal(p, q);
      PaddedDiffers(a, b);
      assert false;
    }
    var k := LexFirst(p, q);
    DifferInside(a, b, k);
  }

  /** A longer name shows behind the end of a shorter one. */
  lemma LongerDiffers(a: Name, b: Name, k: nat)
    requires Readable(a) && Readable(b) && |a| < |b| && |a| < k <= MAX_NAME
    ensures Padded(a)[..k] != Padded(b)[..k] && Padded(a) != Padded(b)
  {
    assert Padded(a)[..k][|a|] == 0 && Padded(b)[..k][|a|] == b[|a|] as nat;
  }

  lemma PaddedDiffers(a: Name, b: Name)
    requires Readable(a) && Readable(b) && Padded(a) == Padded(b)
    ensures a == b
  {
    if |a| < |b| {
      LongerDiffers(a, b, MAX_NAME);
    } else if |b| < |a| {
      LongerDiffers(b, a, MAX_NAME);
    } else {
      forall i: nat | i < |a|
        ensures a[i] == b[i]
      {
        assert Padded(a)[i] == Padded(b)[i];
      }
    }
  }

  /** The first difference of the padded names is one of the names. */
  lemma DifferInside(a: Name, b: Name, k: nat)
    requires Readable(a) && Readable(b) && k < MAX_NAME
    requires Padded(a)[..k] == Padded(b)[..k] && Padded(a)[k] < Padded(b)[k]
    ensures NameBefore(a, b)
  {
    var p, q := Padded(a), Padded(b);
    assert k < |b|;
    if k > |a| {
      LongerDiffers(a, b, k);
    }
    forall i: nat | i < k
      ensures a[i] == b[i]
    {
      assert p[..k][i] == q[..k][i];
    }
    assert a[..k] == b[..k];
  }

  // ---- The five lists -------------------------------------------------------------------------------

  lemma ObjectsSorted(objects: map<nat, Object>, keys: seq<nat>)
    requires ObjectsOk(objects) && Increasing(keys) && forall k | k in keys :: k in objects
    ensures ObjectsAscending(SortBy(ObjectsInOrder(objects, keys), ObjectKey))
  {
    var l := ObjectsInOrder(objects, keys);
    assert forall i | 0 <= i < |l| :: keys[i] in keys && l[i].oid == keys[i];
    forall i | 0 < i < |l|
      ensures !LexLess(ObjectKey(l[i]), ObjectKey(l[i - 1]))
    {
      OneField(l[i].oid, l[i - 1].oid);
    }
    SortInOrder(l, ObjectKey);
  }

  lemma NamesSorted(names: seq<DirEntry>, objects: map<nat, Object>)
    requires NamesOk(names, objects)
    ensures NamesAscending(SortBy(names, NameKey))
  {
    var r := SortBy(names, NameKey);
    SortKeeps(names, NameKey);
    SortMembers(names, NameKey);
    SortSorts(names, NameKey);
    forall i, j | 0 <= i < j < |r|
      ensures r[i].parent < r[j].parent || (r[i].parent == r[j].parent && NameBefore(r[i].name, r[j].name))
    {
      var a, b := r[i], r[j];
      assert a in names && b in names;
      assert !LexLess(NameKey(b), NameKey(a));
      FieldAndRest(b.parent, Padded(b.name), a.parent, Padded(a.name));
      OnceApart(r, i, j);
      if a.parent == b.parent {
        PaddedBefore(a.name, b.name);
      }
    }
  }

  lemma ExtentsDiffer(l: seq<Extent>, r: seq<Extent>, i: nat, j: nat)
    requires Distinct(l) && multiset(r) == multiset(l) && i < j < |r| && r[i] in l && r[j] in l
    ensures (r[i].slot, r[i].chunk) != (r[j].slot, r[j].chunk)
  {
    assert forall a, b | 0 <= a < b < |l| :: l[a] != l[b];
    OccursOnce(l, r[i]);
    OnceApart(r, i, j);
    var a :| 0 <= a < |l| && l[a] == r[i];
    var b :| 0 <= b < |l| && l[b] == r[j];
    if a < b {
      assert (l[a].slot, l[a].chunk) != (l[b].slot, l[b].chunk);
    } else {
      assert (l[b].slot, l[b].chunk) != (l[a].slot, l[a].chunk);
    }
  }

  lemma ExtentsSorted(l: seq<Extent>)
    requires Distinct(l)
    ensures ExtentsAscending(SortBy(l, ExtentKey))
  {
    var r := SortBy(l, ExtentKey);
    SortKeeps(l, ExtentKey);
    SortMembers(l, ExtentKey);
    SortSorts(l, ExtentKey);
    forall i, j | 0 <= i < j < |r|
      ensures r[i].slot < r[j].slot || (r[i].slot == r[j].slot && r[i].chunk < r[j].chunk)
    {
      var a, b := r[i], r[j];
      assert !LexLess(ExtentKey(b), ExtentKey(a));
      TwoFields(b.slot, b.chunk, a.slot, a.chunk);
      assert a in l && b in l;
      ExtentsDiffer(l, r, i, j);
    }
  }

  lemma AttributesSorted(l: seq<Attribute>)
    ensures AttributesAscending(SortBy(l, AttributeKey))
  {
    var r := SortBy(l, AttributeKey);
    SortSorts(l, AttributeKey);
    forall i, j | 0 <= i < j < |r|
      ensures r[i].oid < r[j].oid || (r[i].oid == r[j].oid && r[i].id <= r[j].id)
    {
      assert !LexLess(AttributeKey(r[j]), AttributeKey(r[i]));
      TwoFields(r[j].oid, r[j].id, r[i].oid, r[i].id);
    }
  }

  // ---- On the disk ----------------------------------------------------------------------------------

  /** Behind the superblock in slot 0 of `e`, each tree holds the rows of the volume, each as often as
      the volume has it, in ascending order. */
  ghost predicate HoldsInOrder(e: Disk, v: Vol) {
    && |e| >= RING_SLOTS && e[0].Super? && ReadCheckpoint(e, e[0].super.checkpointSector).Ok? &&
    var record := ReadCheckpoint(e, e[0].super.checkpointSector).value;
    && (exists l: seq<Object> ::
          && Collect(e, record.objectRoot, record.objectCount, MAX_OBJECTS) == Ok(ObjectRows(l))
          && ObjectsAscending(l) && |l| == |v.view.objects| && forall o | o in l :: o.oid in v.view.objects)
    && (exists l: seq<DirEntry> ::
          && Collect(e, record.nameRoot, record.nameCount, MAX_NAMES) == Ok(NameRows(l))
          && NamesAscending(l) && multiset(l) == multiset(v.view.names))
    && (exists l: seq<Extent>, max: nat ::
          && Collect(e, record.extentRoot, record.extentCount, max) == Ok(ExtentRows(l))
          && ExtentsAscending(l) && multiset(l) == multiset(FinalStage(v).extents))
    && (exists l: seq<Attribute> ::
          && Collect(e, record.attributeRoot, record.attributeCount, MAX_ATTRIBUTES) == Ok(AttributeRows(l))
          && AttributesAscending(l) && multiset(l) == multiset(v.view.attributes))
    && (exists l: seq<Snapshot> ::
          && Collect(e, record.snapshotRoot, record.snapshotCount, MAX_SNAPSHOTS) == Ok(SnapshotRows(l))
          && SnapshotsAscending(l) && l == v.snapshots)
  }

  /** What a commit leaves on the disk is in order. */
  lemma CommitWritesInOrder(d: Disk, v: Vol)
    requires Sound(d, v) && !v.Clean() && RoomFor(v) && WithinLimits(v)
    ensures RING_SLOTS <= v.HighWater() <= v.Total() <= |d|
    ensures HoldsInOrder(CommitDisk(d, v), v)
  {
    hide Sound, Prepare, RoomFor, FinalStage, Publish, HoldsInOrder, Collected;
    SoundBounds(d, v);
    RoomIff(d, v);
    PrepareCloses(v);
    PublishHolds(d, v, Prepare(v));
    var e := CommitDisk(d, v);
    CommitCollects(d, v, e);
    CheckpointReads(v, Prepare(v), e);
    RowsInOrder(d, v, e, Prepare(v));
  }

  /** The five trees on any disk that holds the body of the commit. */
  lemma CommitCollects(d: Disk, v: Vol, e: Disk)
    requires Sound(d, v) && !Prepare(v).flow.Failed() && WithinLimits(v)
    requires Knows(Core(d, v.HighWater()), e) && Written(e, Prepare(v).flow)
    ensures FinalStage(v).objects.Keys == v.view.objects.Keys && Collected(v, FinalStage(v), Prepare(v).record, e)
    ensures ObjectsOk(FinalStage(v).objects) && Distinct(FinalStage(v).extents)
  {
    hide Sound, DiskOk, Mount, Prepare, WriteForest, WriteObjects, ViewOk, Ready;
    SoundBounds(d, v);
    SoundReady(d, v);
    var core, keys, s, p := Core(d, v.HighWater()), AllKeys(v), FinalStage(v), Prepare(v);
    PrepareShape(v);
    ForestGrows(v, s);
    StageFinishes(v, core, keys);
    StageObjectsOk(v, core, keys, s);
    WrittenBefore(e, WriteForest(v, s).snapshots.flow, p.flow);
    ForestCollects(v, s, p.record, e);
  }

  lemma RowsInOrder(d: Disk, v: Vol, e: Disk, p: Prepared)
    requires Sound(d, v) && |e| >= RING_SLOTS && e[0] == Super(CommitSuper(v, p))
    requires ReadCheckpoint(e, p.checkpointSector) == Ok(p.record)
    requires FinalStage(v).objects.Keys == v.view.objects.Keys && Collected(v, FinalStage(v), p.record, e)
    requires ObjectsOk(FinalStage(v).objects) && Distinct(FinalStage(v).extents)
    ensures HoldsInOrder(e, v)
  {
    var s := FinalStage(v);
    hide FinalStage, Sound, ReadCheckpoint, Collect;
    hide ObjectsAscending, NamesAscending, ExtentsAscending, AttributesAscending;
    hide ObjectsOk, NamesOk, Distinct, ObjectRows, NameRows, ExtentRows, AttributeRows, SnapshotRows;
    SoundOrders(d, v);
    SortedKeysAre(v.view.objects.Keys);
    ObjectsSorted(s.objects, AllKeys(v));
    ObjectsThere(v, s);
    NamesSorted(v.view.names, v.view.objects);
    SortKeeps(v.view.names, NameKey);
    ExtentsSorted(s.extents);
    SortKeeps(s.extents, ExtentKey);
    AttributesSorted(v.view.attributes);
    SortKeeps(v.view.attributes, AttributeKey);
    hide SortBy, SortedKeys, AllKeys;
  }

  lemma SoundOrders(d: Disk, v: Vol)
    requires Sound(d, v)
    ensures NamesOk(v.view.names, v.view.objects)
    ensures SnapshotsAscending(v.snapshots) && SortBy(v.snapshots, SnapshotKey) == v.snapshots
  {
    hide DiskOk, Mount, Select, SnapshotOk, ObjectsOk, NamesOk, Covered, ExtentsOk;
    SnapshotsInOrder(v.snapshots);
  }

  lemma ObjectsThere(v: Vol, s: Stage)
    requires s.objects.Keys == v.view.objects.Keys && ObjectsOk(s.objects)
    ensures |SortedObjects(v, s)| == |v.view.objects|
    ensures forall o | o in SortedObjects(v, s) :: o.oid in v.view.objects
  {
    SortedKeysAre(v.view.objects.Keys);
    assert |v.view.objects.Keys| == |v.view.objects|;
    InOrderMembers(s.objects, AllKeys(v));
    SortMembers(ObjectsInOrder(s.objects, AllKeys(v)), ObjectKey);
  }

  /** And so are the lists of the volume mounted from it. */
  lemma MountedInOrder(d: Disk, v: Vol)
    requires Sound(d, v) && !v.Clean() && RoomFor(v) && Remountable(v)
    ensures RING_SLOTS <= v.HighWater() <= v.Total() <= |d| && CommitEnding(d, v).Done?
    ensures var w := CommitEnding(d, v).vol;
      && NamesAscending(w.view.names) && multiset(w.view.names) == multiset(v.view.names)
      && AttributesAscending(w.view.attributes) && multiset(w.view.attributes) == multiset(v.view.attributes)
      && SnapshotsAscending(w.snapshots)
  {
    hide Sound, RoomFor, Remountable, Prepare, BodyOk, FinalStage;
    hide NamesAscending, AttributesAscending, SnapshotsAscending;
    CommitRefines(d, v);
    RoomIff(d, v);
    PrepareBody(d, v);
    CommitRefinesBody(d, v, Prepare(v), FinalStage(v));
    SoundOrders(d, v);
    NamesSorted(v.view.names, v.view.objects);
    SortKeeps(v.view.names, NameKey);
    AttributesSorted(v.view.attributes);
    SortKeeps(v.view.attributes, AttributeKey);
    SoundOrders(CommitDisk(d, v), CommitEnding(d, v).vol);
  }
}
