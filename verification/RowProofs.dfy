/** Rows decode to what they were made from, whatever order the sort put them in. */
module RowProofs {
  import opened ArcTypes
  import opened Reader
  import opened Writer

  lemma {:induction false} ObjectsDecode(l: seq<Object>)
    requires forall o | o in l :: o.oid != 0 && (o.kind == FILE || o.kind == DIRECTORY)
    requires forall a, b | a in l && b in l && a.oid == b.oid :: a == b
    ensures ObjectsOf(ObjectRows(l)).Ok?
    ensures var m := ObjectsOf(ObjectRows(l)).value;
      (forall o | o in l :: o.oid in m && m[o.oid] == o) && forall k | k in m :: m[k] in l && m[k].oid == k
  {
    if |l| != 0 {
      var t, last := l[..|l| - 1], l[|l| - 1];
      assert l == t + [last];
      assert ObjectRows(l)[..|l| - 1] == ObjectRows(t);
      ObjectsDecode(t);
    }
  }

  lemma {:induction false} NamesDecode(l: seq<DirEntry>, objects: map<nat, Object>)
    requires forall e | e in l :: Readable(e.name) && e.parent in objects && e.child in objects
    ensures NamesOf(NameRows(l), objects) == Ok(l)
  {
    if |l| != 0 {
      var t := l[..|l| - 1];
      assert l == t + [l[|l| - 1]];
      assert NameRows(l)[..|l| - 1] == NameRows(t);
      NamesDecode(t, objects);
    }
  }

  lemma {:induction false} ExtentsDecode(l: seq<Extent>, total: nat)
    requires forall x | x in l :: x.sector != 0 && x.sector + NODE_SECTORS <= total
    requires forall a, b | a in l && b in l && a.slot == b.slot && a.chunk == b.chunk :: a == b
    ensures ExtentsOf(ExtentRows(l), total).Ok?
    ensures var m := ExtentsOf(ExtentRows(l), total).value;
      (forall x | x in l :: (x.slot, x.chunk) in m && m[(x.slot, x.chunk)] == x.sector)
      && forall k | k in m :: Extent(k.0, k.1, m[k]) in l
  {
    if |l| != 0 {
      var t, last := l[..|l| - 1], l[|l| - 1];
      assert l == t + [last];
      assert ExtentRows(l)[..|l| - 1] == ExtentRows(t);
      ExtentsDecode(t, total);
    }
  }

  /** Attribute rows decode exactly when none of them names a missing object. */
  lemma {:induction false} AttributesDecode(l: seq<Attribute>, objects: map<nat, Object>)
    ensures AttributesOf(AttributeRows(l), objects).Ok? <==> forall a | a in l :: a.oid in objects
    ensures AttributesOf(AttributeRows(l), objects).Ok? ==> AttributesOf(AttributeRows(l), objects).value == l
  {
    if |l| != 0 {
      var t, last := l[..|l| - 1], l[|l| - 1];
      assert l == t + [last];
      assert AttributeRows(l)[..|l| - 1] == AttributeRows(t);
      AttributesDecode(t, objects);
    }
  }

  lemma {:induction false} SnapshotsDecode(l: seq<Snapshot>)
    requires forall s | s in l :: s.id != 0 && s.checkpointSector != 0
    ensures SnapshotsOf(SnapshotRows(l)) == Ok(ReadBack(l))
  {
    hide AsRead;
    if |l| != 0 {
      var t := l[..|l| - 1];
      assert l == t + [l[|l| - 1]];
      assert SnapshotRows(l)[..|l| - 1] == SnapshotRows(t);
      SnapshotsDecode(t);
      assert ReadBack(l) == ReadBack(t) + [AsRead(l[|l| - 1])];
    }
  }

  /** Sectors eight apart below a bound are at most an eighth of it. */
  lemma {:induction false} Pigeonhole(s: set<nat>, bound: nat)
    requires forall a | a in s :: a + NODE_SECTORS <= bound
    requires forall a, b | a in s && b in s && a < b :: a + NODE_SECTORS <= b
    ensures NODE_SECTORS * |s| <= bound
    decreases |s|
  {
    if s != {} {
      var top := Greatest(s);
      assert forall a | a in s - {top} :: a + NODE_SECTORS <= top;
      Pigeonhole(s - {top}, top);
      assert |s - {top}| == |s| - 1;
    }
  }

  ghost function Greatest(s: set<nat>): (x: nat)
    requires s != {}
    ensures x in s && forall y | y in s :: y <= x
  {
    GreatestExists(s);
    var x :| x in s && forall y | y in s :: y <= x;
    x
  }

  lemma {:induction false} GreatestExists(s: set<nat>)
    requires s != {}
    ensures exists x :: x in s && forall y | y in s :: y <= x
    decreases |s|
  {
    var x :| x in s;
    if s - {x} == {} {
      assert s == {x};
    } else {
      GreatestExists(s - {x});
      var m :| m in s - {x} && forall y | y in s - {x} :: y <= m;
      var top := if x <= m then m else x;
      forall y | y in s
        ensures y <= top
      {
        assert y == x || y in s - {x};
      }
      assert top in s;
    }
  }
}
