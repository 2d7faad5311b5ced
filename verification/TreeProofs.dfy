/** A tree written by a commit reads back as the rows it was written from, in order. */
module TreeProofs {
  import opened ArcTypes
  import opened Reader
  import opened Writer

  /** The disk holds what the flow has written so far. */
  ghost predicate Written(d: Disk, f: Flow) {
    f.Cursor() <= |d| && d[f.start..f.Cursor()] == f.out
  }

  lemma WrittenBefore(d: Disk, f: Flow, g: Flow)
    requires Written(d, g) && f.out <= g.out && f.start == g.start
    ensures Written(d, f)
  {
    assert d[f.start..f.Cursor()] == d[g.start..g.Cursor()][..|f.out|];
  }

  /** Reading the tree rooted at `s` yields `rows`, whatever was collected before, as long as the
      limit allows; `s` levels of recursion are more than enough because children lie below. */
  ghost predicate Yields(d: Disk, s: nat, rows: seq<Row>) {
    s != 0 &&
    forall max: nat, have: nat, fuel: nat {:trigger CollectNode(d, s, max, have, fuel)} ::
      fuel > s && have + |rows| <= max ==> CollectNode(d, s, max, have, fuel) == Ok(rows)
  }

  function Flatten<T>(parts: seq<seq<T>>): seq<T> {
    if |parts| == 0 then [] else Flatten(parts[..|parts| - 1]) + parts[|parts| - 1]
  }

  lemma {:induction false} FlattenConcat<T>(a: seq<seq<T>>, b: seq<seq<T>>)
    ensures Flatten(a + b) == Flatten(a) + Flatten(b)
  {
    if |b| == 0 {
      assert a + b == a;
    } else {
      FlattenConcat(a, b[..|b| - 1]);
      assert (a + b)[..|a + b| - 1] == a + b[..|b| - 1];
    }
  }

  /** The first `n` groups of a sequence. */
  function GroupsOf<T>(s: seq<T>, n: nat): (g: seq<seq<T>>)
    requires n <= Groups(|s|)
    ensures |g| == n && forall i | 0 <= i < n :: g[i] == Group(s, i)
  {
    seq(n, i requires 0 <= i < n => Group(s, i))
  }

  /** Grouping loses nothing. */
  lemma {:induction false} GroupsCover<T>(s: seq<T>, n: nat)
    requires n <= Groups(|s|)
    ensures Flatten(GroupsOf(s, n)) == s[..Min(FANOUT * n, |s|)]
  {
    if n != 0 {
      GroupsCover(s, n - 1);
      assert GroupsOf(s, n)[..n - 1] == GroupsOf(s, n - 1);
    }
  }

  /** Flatten each group of parts. */
  function FlattenGroups(parts: seq<seq<Row>>, n: nat): (r: seq<seq<Row>>)
    requires n <= Groups(|parts|)
    ensures |r| == n && forall i | 0 <= i < n :: r[i] == Flatten(Group(parts, i))
  {
    seq(n, i requires 0 <= i < n => Flatten(Group(parts, i)))
  }

  lemma {:induction false} FlattenGroupsCover(parts: seq<seq<Row>>, n: nat)
    requires n <= Groups(|parts|)
    ensures Flatten(FlattenGroups(parts, n)) == Flatten(parts[..Min(FANOUT * n, |parts|)])
  {
    if n != 0 {
      FlattenGroupsCover(parts, n - 1);
      assert FlattenGroups(parts, n)[..n - 1] == FlattenGroups(parts, n - 1);
      var before := parts[..FANOUT * (n - 1)];
      FlattenConcat(before, Group(parts, n - 1));
      assert parts[..Min(FANOUT * n, |parts|)] == before + Group(parts, n - 1);
    }
  }

  /** Each node of a level yields its part, and lies below `limit`. */
  ghost predicate Carries(d: Disk, nodes: seq<Placed>, parts: seq<seq<Row>>, limit: nat) {
    |nodes| == |parts| &&
    forall i | 0 <= i < |nodes| :: nodes[i].sector < limit && Yields(d, nodes[i].sector, parts[i])
  }

  lemma CarriesMore(d: Disk, nodes: seq<Placed>, parts: seq<seq<Row>>, limit: nat, x: Placed, part: seq<Row>,
                    above: nat)
    requires Carries(d, nodes, parts, limit) && limit <= above && x.sector < above && Yields(d, x.sector, part)
    ensures Carries(d, nodes + [x], parts + [part], above)
  {
    hide Yields;
  }

  lemma CarriesGroup(d: Disk, nodes: seq<Placed>, parts: seq<seq<Row>>, limit: nat, i: nat, above: nat)
    requires Carries(d, nodes, parts, limit) && limit <= above && i < Groups(|nodes|)
    ensures Carries(d, Group(nodes, i), Group(parts, i), above)
  {
    hide Yields;
  }

  lemma PlacedReads(d: Disk, f: Flow, node: Node)
    requires !f.Failed() && !Append(f, NodeRun(node)).Failed() && Written(d, Append(f, NodeRun(node)))
    ensures ReadNode(d, f.Cursor()) == Ok(node)
  {
    var g := Append(f, NodeRun(node));
    var s := f.Cursor();
    assert d[s..s + NODE_SECTORS] == d[g.start..g.Cursor()][|f.out|..];
    assert d[s..s + NODE_SECTORS] == NodeRun(node);
    assert d[s] == d[s..s + NODE_SECTORS][0] == NodePart(node, 0);
  }

  lemma LeafYields(d: Disk, s: nat, rows: seq<Row>)
    requires s != 0 && ReadNode(d, s) == Ok(Leaf(rows)) && |rows| <= FANOUT
    ensures Yields(d, s, rows)
  {
  }

  lemma {:induction false} ChildrenYield(d: Disk, nodes: seq<Placed>, parts: seq<seq<Row>>, limit: nat, max: nat,
                                         have: nat, fuel: nat)
    requires Carries(d, nodes, parts, limit) && fuel >= limit && have + |Flatten(parts)| <= max
    ensures CollectChildren(d, Sectors(nodes), max, have, fuel) == Ok(Flatten(parts))
    decreases |nodes|
  {
    if |nodes| != 0 {
      var first, rest := parts[0], parts[1..];
      assert parts == [first] + rest;
      FlattenConcat([first], rest);
      assert Flatten([first]) == first by {
        assert [first][..0] == [];
      }
      assert CollectNode(d, nodes[0].sector, max, have, fuel) == Ok(first);
      assert Sectors(nodes)[1..] == Sectors(nodes[1..]);
      ChildrenYield(d, nodes[1..], rest, limit, max, have + |first|, fuel);
    }
  }

  lemma InnerYields(d: Disk, s: nat, keys: seq<nat>, nodes: seq<Placed>, parts: seq<seq<Row>>)
    requires ReadNode(d, s) == Ok(Inner(keys, Sectors(nodes))) && s != 0 && |nodes| <= FANOUT
    requires Carries(d, nodes, parts, s)
    ensures Yields(d, s, Flatten(parts))
  {
    forall max: nat, have: nat, fuel: nat | fuel > s && have + |Flatten(parts)| <= max
      ensures CollectNode(d, s, max, have, fuel) == Ok(Flatten(parts))
    {
      ChildrenYield(d, nodes, parts, s, max, have, fuel - 1);
    }
  }

  /** Placing a node that fits: what came before stands, and the node is read where it was put. */
  lemma PlaceReads(d: Disk, before: Level, node: Node, key: nat)
    requires !Place(before, node, key).flow.Failed() && Written(d, Place(before, node, key).flow)
    ensures !before.flow.Failed() && Written(d, before.flow) && ReadNode(d, before.flow.Cursor()) == Ok(node)
    ensures Place(before, node, key).nodes == before.nodes + [Placed(key, before.flow.Cursor())]
    ensures before.flow.Cursor() < Place(before, node, key).flow.Cursor() && before.flow.start <= before.flow.Cursor()
  {
    hide ReadNode, Written;
    PlacedReads(d, before.flow, node);
    WrittenBefore(d, before.flow, Place(before, node, key).flow);
  }

  lemma {:induction false} LeavesCarry(d: Disk, f: Flow, rows: seq<Row>, n: nat)
    requires n <= Groups(|rows|) && f.start > 0 && !f.Failed()
    requires !Leaves(f, rows, n).flow.Failed() && Written(d, Leaves(f, rows, n).flow)
    ensures Carries(d, Leaves(f, rows, n).nodes, GroupsOf(rows, n), Leaves(f, rows, n).flow.Cursor())
  {
    hide Yields, ReadNode, Written, RowKey, NodeRun, Place;
    if n != 0 {
      var before, after := Leaves(f, rows, n - 1), Leaves(f, rows, n);
      var group := Group(rows, n - 1);
      PlaceReads(d, before, Leaf(group), RowKey(group[0]));
      LeavesCarry(d, f, rows, n - 1);
      LeafYields(d, before.flow.Cursor(), group);
      assert GroupsOf(rows, n) == GroupsOf(rows, n - 1) + [group];
      hide Carries;
      CarriesMore(d, before.nodes, GroupsOf(rows, n - 1), before.flow.Cursor(),
          Placed(RowKey(group[0]), before.flow.Cursor()), group,
                  after.flow.Cursor());
    }
  }

  lemma {:induction false} ParentsCarry(d: Disk, f: Flow, below: seq<Placed>, parts: seq<seq<Row>>, n: nat)
    requires n <= Groups(|below|) && f.start > 0 && !f.Failed()
    requires Carries(d, below, parts, f.Cursor())
    requires !Parents(f, below, n).flow.Failed() && Written(d, Parents(f, below, n).flow)
    ensures Carries(d, Parents(f, below, n).nodes, FlattenGroups(parts, n), Parents(f, below, n).flow.Cursor())
    ensures |Parents(f, below, n).nodes| == n
  {
    hide Yields, ReadNode, Written, SeparatorKeys, NodeRun, Place;
    if n != 0 {
      var before, after := Parents(f, below, n - 1), Parents(f, below, n);
      var group, groupParts := Group(below, n - 1), Group(parts, n - 1);
      PlaceReads(d, before, Inner(SeparatorKeys(group), Sectors(group)), group[0].key);
      ParentsCarry(d, f, below, parts, n - 1);
      hide Carries;
      CarriesGroup(d, below, parts, f.Cursor(), n - 1, before.flow.Cursor());
      InnerYields(d, before.flow.Cursor(), SeparatorKeys(group), group, groupParts);
      assert FlattenGroups(parts, n) == FlattenGroups(parts, n - 1) + [Flatten(groupParts)];
      CarriesMore(d, before.nodes, FlattenGroups(parts, n - 1), before.flow.Cursor(),
                  Placed(group[0].key, before.flow.Cursor()), Flatten(groupParts), after.flow.Cursor());
    }
  }

  lemma {:induction false} AscendYields(d: Disk, l: Level, parts: seq<seq<Row>>)
    requires |l.nodes| > 0 && l.flow.start > 0 && !Ascend(l).flow.Failed() && Written(d, Ascend(l).flow)
    requires Carries(d, l.nodes, parts, l.flow.Cursor())
    ensures |Ascend(l).nodes| == 1
    ensures Yields(d, Ascend(l).nodes[0].sector, Flatten(parts))
    ensures Ascend(l).nodes[0].sector < Ascend(l).flow.Cursor()
    decreases |l.nodes|
  {
    if |l.nodes| == 1 {
      assert parts[..|parts| - 1] == [];
      assert Flatten(parts) == parts[0];
    } else {
      var n := Groups(|l.nodes|);
      var next := Parents(l.flow, l.nodes, n);
      WrittenBefore(d, next.flow, Ascend(l).flow);
      ParentsCarry(d, l.flow, l.nodes, parts, n);
      AscendYields(d, next, FlattenGroups(parts, n));
      FlattenGroupsCover(parts, n);
      assert parts[..Min(FANOUT * n, |parts|)] == parts;
    }
  }

  /** The tree round trip: on any disk that holds what was written, collecting the tree returns the
      rows it was built from, in order, for any number of rows. */
  lemma TreeRoundTrip(d: Disk, f: Flow, rows: seq<Row>, max: nat)
    requires f.start > 0 && !WriteTree(f, rows).flow.Failed() && Written(d, WriteTree(f, rows).flow)
    requires |rows| <= max
    ensures Collect(d, WriteTree(f, rows).root, |rows|, max) == Ok(rows)
  {
    hide Leaves, CollectNode;
    if |rows| != 0 {
      var n := Groups(|rows|);
      var leaves := Leaves(f, rows, n);
      var top := Ascend(leaves);
      WrittenBefore(d, leaves.flow, top.flow);
      LeavesCarry(d, f, rows, n);
      AscendYields(d, leaves, GroupsOf(rows, n));
      GroupsCover(rows, n);
      assert rows[..Min(FANOUT * n, |rows|)] == rows;
    }
  }
}
