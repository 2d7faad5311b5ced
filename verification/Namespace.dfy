/** The directory tree: every object has one path from the root, and which operations keep that. */
module Namespace {
  import opened ArcTypes
  import opened Soundness
  import opened Operations
  import opened OperationProofs

  /** Parents rank below their children, so there are no cycles. */
  ghost predicate Ranked(view: View, rank: map<nat, nat>) {
    rank.Keys == view.objects.Keys
    && forall e | e in view.names :: e.parent in rank && e.child in rank && rank[e.parent] < rank[e.child]
  }

  ghost predicate HasEntry(names: seq<DirEntry>, oid: nat) {
    exists e :: e in names && e.child == oid
  }

  /** The objects form a tree rooted at object 1. */
  ghost predicate Rooted(view: View) {
    ObjectsOk(view.objects) && NamesOk(view.names, view.objects)
    && (forall k {:trigger HasEntry(view.names, k)} | k in view.objects && k != ROOT_OID :: HasEntry(view.names, k))
    && exists rank :: Ranked(view, rank)
  }

  /** Object `b` is `a` or lies below it. */
  ghost predicate Under(names: seq<DirEntry>, a: nat, b: nat) {
    exists parts :: Resolve(names, a, parts) == Some(b)
  }

  // ---- Resolving --------------------------------------------------------------------------------

  lemma {:induction false} ResolveConcat(names: seq<DirEntry>, current: nat, a: seq<Name>, b: seq<Name>)
    ensures Resolve(names, current, a + b) ==
      match Resolve(names, current, a) case None => None case Some(x) => Resolve(names, x, b)
    decreases |a|
  {
    if |a| == 0 {
      assert a + b == b;
    } else {
      assert (a + b)[1..] == a[1..] + b;
      var i := Find(names, current, a[0]);
      if i.Some? {
        ResolveConcat(names, names[i.value].child, a[1..], b);
      }
    }
  }

  /** With unique names, following an entry's name leads to its child. */
  lemma ResolveEntry(names: seq<DirEntry>, objects: map<nat, Object>, e: DirEntry)
    requires NamesOk(names, objects) && e in names
    ensures Resolve(names, e.parent, [e.name]) == Some(e.child)
  {
    var i := Find(names, e.parent, e.name).value;
    assert names[i] in names && names[i] == e;
  }

  /** The last step of a path. */
  lemma LastStep(names: seq<DirEntry>, current: nat, parts: seq<Name>)
    requires |parts| != 0 && Resolve(names, current, parts).Some?
    ensures var before := Resolve(names, current, parts[..|parts| - 1]);
      before.Some? &&
      var i := Find(names, before.value, parts[|parts| - 1]);
      i.Some? && Resolve(names, current, parts) == Some(names[i.value].child)
  {
    var a, b := parts[..|parts| - 1], [parts[|parts| - 1]];
    assert parts == a + b && b[1..] == [];
    ResolveConcat(names, current, a, b);
  }

  /** Every object of a tree has a path from the root. */
  lemma {:induction false} ObjectReached(view: View, rank: map<nat, nat>, oid: nat)
    requires Rooted(view) && Ranked(view, rank) && oid in view.objects
    ensures Under(view.names, ROOT_OID, oid)
    decreases rank[oid]
  {
    if oid == ROOT_OID {
      assert Resolve(view.names, ROOT_OID, []) == Some(ROOT_OID);
    } else {
      assert HasEntry(view.names, oid);
      var e :| e in view.names && e.child == oid;
      ObjectReached(view, rank, e.parent);
      var parts :| Resolve(view.names, ROOT_OID, parts) == Some(e.parent);
      ResolveEntry(view.names, view.objects, e);
      ResolveConcat(view.names, ROOT_OID, parts, [e.name]);
      assert Resolve(view.names, ROOT_OID, parts + [e.name]) == Some(oid);
    }
  }

  /** No two paths from the root lead to the same object. */
  lemma {:induction false} PathUnique(view: View, p: seq<Name>, q: seq<Name>)
    requires NamesOk(view.names, view.objects)
    requires Resolve(view.names, ROOT_OID, p).Some?
    requires Resolve(view.names, ROOT_OID, p) == Resolve(view.names, ROOT_OID, q)
    ensures p == q
    decreases |p|
  {
    var names := view.names;
    if |p| != 0 {
      LastStep(names, ROOT_OID, p);
    }
    if |q| != 0 {
      LastStep(names, ROOT_OID, q);
    }
    if |p| != 0 && |q| != 0 {
      var a, b := Resolve(names, ROOT_OID, p[..|p| - 1]).value, Resolve(names, ROOT_OID, q[..|q| - 1]).value;
      var i, j := Find(names, a, p[|p| - 1]).value, Find(names, b, q[|q| - 1]).value;
      assert names[i] in names && names[j] in names;
      PathUnique(view, p[..|p| - 1], q[..|q| - 1]);
      assert p == p[..|p| - 1] + [p[|p| - 1]] && q == q[..|q| - 1] + [q[|q| - 1]];
    }
  }

  /** In a tree each object has exactly one path from the root, and `resolve` finds it. */
  lemma PathsExactlyOne(view: View, oid: nat)
    requires Rooted(view) && oid in view.objects
    ensures exists p ::
              (Resolve(view.names, ROOT_OID, p) == Some(oid)
               && forall q :: Resolve(view.names, ROOT_OID, q) == Some(oid) ==> q == p)
  {
    var rank :| Ranked(view, rank);
    ObjectReached(view, rank, oid);
    var p :| Resolve(view.names, ROOT_OID, p) == Some(oid);
    forall q | Resolve(view.names, ROOT_OID, q) == Some(oid)
      ensures q == p
    {
      PathUnique(view, q, p);
    }
  }

  // ---- Splitting a path string --------------------------------------------------------------------

  /** A path string: each part after a slash. */
  function JoinPath(parts: seq<Name>): seq<byte> {
    if |parts| == 0 then [] else [SLASH] + parts[0] + JoinPath(parts[1..])
  }

  lemma SplitStep(path: seq<byte>, n: nat)
    requires path != [] && n == PartLength(path)
    ensures path[0] == SLASH ==> SplitPath(path) == SplitPath(path[1..])
    ensures path[0] != SLASH ==> SplitPath(path) == [path[..n]] + SplitPath(path[n..])
  {
  }

  lemma CutJoined(p: seq<byte>, q: seq<byte>, n: nat)
    requires n <= |p|
    ensures (p + [SLASH] + q)[..n] == p[..n] && (p + [SLASH] + q)[n..] == p[n..] + [SLASH] + q
  {
  }

  /** A slash separates, wherever it stands: the parts before it come before the parts behind it. */
  lemma {:induction false} SplitAt(p: seq<byte>, q: seq<byte>)
    ensures SplitPath(p + [SLASH] + q) == SplitPath(p) + SplitPath(q)
    decreases |p|
  {
    var path := p + [SLASH] + q;
    if |p| == 0 {
      assert path[0] == SLASH && path[1..] == q;
    } else if p[0] == SLASH {
      SplitStep(path, PartLength(path));
      SplitStep(p, PartLength(p));
      hide SplitPath;
      CutJoined(p, q, 1);
      SplitAt(p[1..], q);
    } else {
      var n := PartLength(p);
      assert n > 0;
      PartStops(path, n);
      SplitStep(path, n);
      SplitStep(p, n);
      hide SplitPath, PartLength;
      CutJoined(p, q, n);
      SplitAt(p[n..], q);
    }
  }

  lemma {:induction false} PartStops(path: seq<byte>, n: nat)
    requires n < |path| && path[n] == SLASH && forall i | 0 <= i < n :: path[i] != SLASH
    ensures PartLength(path) == n
  {
    if n != 0 {
      PartStops(path[1..], n - 1);
    }
  }

  /** Without a slash there is one part, or none. */
  lemma SplitOne(p: seq<byte>)
    requires SLASH !in p
    ensures SplitPath(p) == if p == [] then [] else [p]
  {
    if p != [] {
      assert PartLength(p) == |p|;
      assert p[..|p|] == p && p[|p|..] == [];
    }
  }

  /** A leading slash changes nothing. */
  lemma SplitRooted(p: seq<byte>)
    ensures SplitPath([SLASH] + p) == SplitPath(p)
  {
    SplitAt([], p);
    assert [] + [SLASH] + p == [SLASH] + p && SplitPath([]) + SplitPath(p) == SplitPath(p);
  }

  /** Splitting a joined path returns its parts. */
  lemma {:induction false} SplitJoin(parts: seq<Name>)
    requires forall i | 0 <= i < |parts| :: parts[i] != [] && SLASH !in parts[i]
    ensures SplitPath(JoinPath(parts)) == parts
  {
    if |parts| != 0 {
      var first, rest := parts[0], JoinPath(parts[1..]);
      SplitJoin(parts[1..]);
      hide SplitPath;
      assert JoinPath(parts) == [SLASH] + (first + rest);
      SplitRooted(first + rest);
      hide JoinPath;
      JoinedRest(parts[1..]);
      SplitFirst(first, rest);
    }
  }

  lemma JoinedRest(parts: seq<Name>)
    ensures JoinPath(parts) == [] || JoinPath(parts)[0] == SLASH
  {
  }

  lemma SplitFirst(first: Name, rest: seq<byte>)
    requires first != [] && SLASH !in first && (rest == [] || rest[0] == SLASH)
    ensures SplitPath(first + rest) == [first] + SplitPath(rest)
  {
    SplitOne(first);
    if rest == [] {
      assert first + rest == first;
    } else {
      hide SplitPath;
      assert rest == [SLASH] + rest[1..];
      SplitRooted(rest[1..]);
      SplitAt(first, rest[1..]);
      assert first + [SLASH] + rest[1..] == first + rest;
    }
  }

  /** How a path string is followed: from object 1, and for each part behind a slash to the child of the
      first entry of that name; an empty part leads nowhere else, and a leading slash changes nothing. */
  lemma PathSteps(names: seq<DirEntry>, p: seq<byte>, n: Name)
    requires SLASH !in n
    ensures ResolvePath(names, []) == Some(1) && ResolvePath(names, [SLASH] + p) == ResolvePath(names, p)
    ensures n == [] ==> ResolvePath(names, p + [SLASH] + n) == ResolvePath(names, p)
    ensures n != [] && ResolvePath(names, p).None? ==> ResolvePath(names, p + [SLASH] + n).None?
    ensures n != [] && ResolvePath(names, p).Some? ==>
              var i := Find(names, ResolvePath(names, p).value, n);
              ResolvePath(names, p + [SLASH] + n) == if i.Some? then Some(names[i.value].child) else None
  {
    SplitAt(p, n);
    SplitOne(n);
    SplitOne([]);
    SplitRooted(p);
    hide SplitPath;
    if n == [] {
      assert SplitPath(p) + [] == SplitPath(p);
    } else {
      ResolveConcat(names, ROOT_OID, SplitPath(p), [n]);
      assert [n][1..] == [];
    }
  }

  // ---- Create and remove keep the tree ------------------------------------------------------------

  lemma EntryKept(names: seq<DirEntry>, more: seq<DirEntry>, k: nat)
    requires HasEntry(names, k) && forall e | e in names :: e in more
    ensures HasEntry(more, k)
  {
    var e :| e in names && e.child == k;
    assert e in more;
  }

  lemma AddedRanks(view: View, after: View, e: DirEntry)
    requires Rooted(view) && NamesOk(after.names, after.objects) && ObjectsOk(after.objects)
    requires after.names == view.names + [e] && after.objects.Keys == view.objects.Keys + {e.child}
    requires e.child !in view.objects && e.parent in view.objects
    ensures Rooted(after)
  {
    hide NamesOk, ObjectsOk;
    PlusOne(view.names, e);
    var rank :| Ranked(view, rank);
    assert Ranked(after, rank[e.child := rank[e.parent] + 1]);
    forall k | k in after.objects && k != ROOT_OID
      ensures HasEntry(after.names, k)
    {
      if k == e.child {
        assert e in after.names;
      } else {
        EntryKept(view.names, after.names, k);
      }
    }
  }

  /** Creating an object keeps the tree. */
  lemma CreateRooted(d: Disk, v: Vol, parent: nat, name: Name, kind: nat)
    requires Sound(d, v) && Rooted(v.view) && ValidName(name)
    requires IsDirectory(v, parent) && Find(v.view.names, parent, name).None?
    requires kind == FILE || kind == DIRECTORY
    ensures Rooted(AddObject(v, parent, name, kind).view)
  {
    hide Sound, ExtentsOk, Rooted, NamesOk;
    SoundParts(d, v);
    var w, e := AddObject(v, parent, name, kind), DirEntry(parent, name, v.nextOid);
    NamesAdded(v.view.names, v.view.objects, w.view.objects, e);
    AddedRanks(v.view, w.view, e);
  }

  /** What is left after removing entry `i`: every other entry, none of which leads to its child. */
  lemma LeftOver(names: seq<DirEntry>, objects: map<nat, Object>, i: nat)
    requires NamesOk(names, objects) && i < |names|
    ensures forall x :: x in Without(names, i) <==> x in names && x != names[i]
    ensures forall x | x in names && x != names[i] :: x.child != names[i].child
    ensures names[i] in names && names[i].child != ROOT_OID
  {
    hide Find;
    assert names[i] in names && multiset(names)[names[i]] == 1;
    MinusOne(names, i);
    Members(names);
    Members(Without(names, i));
  }

  lemma RemovedRanks(view: View, after: View, i: nat)
    requires Rooted(view) && i < |view.names| && (forall e | e in view.names :: e.parent != view.names[i].child)
    requires NamesOk(after.names, after.objects) && ObjectsOk(after.objects)
    requires after.names == Without(view.names, i) && after.objects == view.objects - {view.names[i].child}
    ensures Rooted(after)
  {
    hide ObjectsOk, NamesOk, Without;
    var e, names := view.names[i], view.names;
    LeftOver(names, view.objects, i);
    var rank :| Ranked(view, rank);
    assert Ranked(after, rank - {e.child});
    forall k | k in after.objects && k != ROOT_OID
      ensures HasEntry(after.names, k)
    {
      assert HasEntry(names, k);
      var x :| x in names && x.child == k;
      assert x in after.names;
    }
  }

  /** Removing a child keeps the tree. */
  lemma RemoveRooted(d: Disk, v: Vol, parent: nat, name: Name)
    requires Sound(d, v) && Rooted(v.view) && RemoveChild(v, parent, name).Ok?
    ensures Rooted(RemoveChild(v, parent, name).value.view)
  {
    hide Sound, ExtentsOk, Rooted;
    SoundParts(d, v);
    var w, i := RemoveChild(v, parent, name).value, Find(v.view.names, parent, name).value;
    assert v.view.names[i] in v.view.names;
    NoChildren(v, v.view.names[i].child);
    NamesRemoved(v.view.names, v.view.objects, i);
    RemovedRanks(v.view, w.view, i);
  }

  // ---- Rename -------------------------------------------------------------------------------------

  /** One step further down is still below. */
  lemma UnderStep(view: View, a: nat, e: DirEntry)
    requires NamesOk(view.names, view.objects) && e in view.names
    ensures Under(view.names, a, e.parent) ==> Under(view.names, a, e.child)
    ensures Under(view.names, a, e.child) && e.child != a ==> Under(view.names, a, e.parent)
  {
    hide NamesOk, Resolve, Find;
    if Under(view.names, a, e.parent) {
      var parts :| Resolve(view.names, a, parts) == Some(e.parent);
      ResolveEntry(view.names, view.objects, e);
      ResolveConcat(view.names, a, parts, [e.name]);
      assert Resolve(view.names, a, parts + [e.name]) == Some(e.child);
    }
    if Under(view.names, a, e.child) && e.child != a {
      var parts :| Resolve(view.names, a, parts) == Some(e.child);
      StepUp(view, a, parts, e);
    }
  }

  /** The last step of a path to a child comes from its parent. */
  lemma StepUp(view: View, a: nat, parts: seq<Name>, e: DirEntry)
    requires NamesOk(view.names, view.objects) && e in view.names
    requires Resolve(view.names, a, parts) == Some(e.child) && e.child != a
    ensures |parts| != 0 && Resolve(view.names, a, parts[..|parts| - 1]) == Some(e.parent)
  {
    assert |parts| != 0;
    LastStep(view.names, a, parts);
    hide Resolve;
    var before := Resolve(view.names, a, parts[..|parts| - 1]).value;
    var i := Find(view.names, before, parts[|parts| - 1]).value;
    assert view.names[i] in view.names && view.names[i] == e;
  }

  /** The ranks after moving the subtree of `c` below `p`: lift the subtree above `p`. */
  ghost function Lifted(view: View, rank: map<nat, nat>, c: nat, p: nat): map<nat, nat>
    requires p in rank
  {
    map k | k in rank :: if Under(view.names, c, k) then rank[k] + rank[p] + 1 else rank[k]
  }

  lemma LiftedRanks(view: View, rank: map<nat, nat>, i: nat, b: DirEntry)
    requires NamesOk(view.names, view.objects) && Ranked(view, rank) && i < |view.names|
    requires b.child == view.names[i].child && b.parent in rank && !Under(view.names, b.child, b.parent)
    ensures Ranked(view.(names := view.names[i := b]), Lifted(view, rank, b.child, b.parent))
  {
    var names, c := view.names, b.child;
    var lifted := Lifted(view, rank, c, b.parent);
    Replaced(names, i, b);
    Members(names);
    Members(names[i := b]);
    assert names[i] in names;
    assert Under(names, c, c) by {
      assert Resolve(names, c, []) == Some(c);
    }
    forall e | e in names[i := b]
      ensures e.parent in lifted && e.child in lifted && lifted[e.parent] < lifted[e.child]
    {
      if e != b {
        assert multiset(names)[names[i]] == 1;
        assert e in names && e != names[i];
        UnderStep(view, c, e);
      }
    }
  }

  /** Renaming into the moved subtree makes a cycle: no ranking of the new entries exists. */
  lemma CycleHasNoRank(view: View, rank: map<nat, nat>, i: nat, b: DirEntry, after: map<nat, nat>)
    requires NamesOk(view.names, view.objects) && Ranked(view, rank) && i < |view.names|
    requires b.child == view.names[i].child && Under(view.names, b.child, b.parent)
    ensures !Ranked(view.(names := view.names[i := b]), after)
  {
    if Ranked(view.(names := view.names[i := b]), after) {
      var parts :| Resolve(view.names, b.child, parts) == Some(b.parent);
      assert view.names[i] in view.names;
      assert view.names[i := b][i] == b;
      DescendKept(view, rank, i, b, after, b.child, parts);
    }
  }

  lemma {:induction false} DescendKept(view: View, rank: map<nat, nat>, i: nat, b: DirEntry, after: map<nat, nat>,
                                       a: nat, parts: seq<Name>)
    requires NamesOk(view.names, view.objects) && Ranked(view, rank) && i < |view.names|
    requires b.child == view.names[i].child && Ranked(view.(names := view.names[i := b]), after)
    requires a in rank && b.child in rank && rank[b.child] <= rank[a] && Resolve(view.names, a, parts).Some?
    ensures Resolve(view.names, a, parts).value in after && a in after
    ensures after[a] <= after[Resolve(view.names, a, parts).value]
    decreases |parts|
  {
    if |parts| != 0 {
      var j := Find(view.names, a, parts[0]).value;
      var e := view.names[j];
      assert e in view.names && j != i;
      assert view.names[i := b][j] == e;
      DescendKept(view, rank, i, b, after, e.child, parts[1..]);
    }
  }

  /** Exactly when a rename keeps the tree: when the new parent is neither the moved object nor below
      it. `rename_child` does not check this; otherwise the moved objects form a cycle that no path
      from the root reaches. */
  lemma RenameRootedIff(d: Disk, v: Vol, parent: nat, name: Name, newParent: nat, newName: Name)
    requires Sound(d, v) && Rooted(v.view) && RenameChild(v, parent, name, newParent, newName).Ok?
    ensures var moved := v.view.names[Find(v.view.names, parent, name).value].child;
      Rooted(RenameChild(v, parent, name, newParent, newName).value.view) <==> !Under(v.view.names, moved, newParent)
  {
    hide Sound, ExtentsOk, Under;
    SoundParts(d, v);
    var w, i := RenameChild(v, parent, name, newParent, newName).value, Find(v.view.names, parent, name).value;
    var b := DirEntry(newParent, newName, v.view.names[i].child);
    var rank :| Ranked(v.view, rank);
    if Under(v.view.names, b.child, newParent) {
      forall after
        ensures !Ranked(w.view, after)
      {
        CycleHasNoRank(v.view, rank, i, b, after);
      }
    } else {
      NamesRenamed(v.view.names, v.view.objects, i, b);
      LiftedRanks(v.view, rank, i, b);
      forall k | k in w.view.objects && k != ROOT_OID
        ensures HasEntry(w.view.names, k)
      {
        RenamedEntry(v.view.names, i, b, k);
      }
    }
  }

  lemma RenamedEntry(names: seq<DirEntry>, i: nat, b: DirEntry, k: nat)
    requires i < |names| && b.child == names[i].child && HasEntry(names, k)
    ensures HasEntry(names[i := b], k)
  {
    var e :| e in names && e.child == k;
    var j :| 0 <= j < |names| && names[j] == e;
    assert names[i := b][j] in names[i := b];
  }

  /** A tree is a matter of which objects, kinds and entries there are, not of their order. */
  lemma RootedSame(a: View, b: View)
    requires Rooted(a) && ObjectsOk(b.objects) && a.objects.Keys == b.objects.Keys
    requires multiset(a.names) == multiset(b.names)
    requires forall k | k in a.objects :: a.objects[k].kind == b.objects[k].kind
    ensures Rooted(b)
  {
    Members(a.names);
    Members(b.names);
    var rank :| Ranked(a, rank);
    assert Ranked(b, rank);
    forall k | k in b.objects && k != ROOT_OID
      ensures HasEntry(b.names, k)
    {
      EntryKept(a.names, b.names, k);
    }
  }
}
