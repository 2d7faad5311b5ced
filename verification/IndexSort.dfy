/** Sorting an array by keys: a stable insertion sort of the indices, the reordering by it, and the
    search for the best key. The element and key kinds share one body in the model; `less` is the
    comparison of the keys. */
module IndexSort {
  import opened ArcTypes

  ghost predicate StrictWeakOrder<K(!new)>(less: (K, K) -> bool) {
    && (forall a :: !less(a, a))
    && (forall a, b, c :: less(a, b) && less(b, c) ==> less(a, c))
    && (forall a, b, c :: !less(a, b) && !less(b, c) ==> !less(a, c))
  }

  /** Key `a` belongs strictly ahead of key `b`. */
  predicate Ahead<K>(less: (K, K) -> bool, descending: bool, a: K, b: K) {
    if descending then less(b, a) else less(a, b)
  }

  /** Index `p` belongs before index `q`: a better key, or an equal key that came first. */
  predicate Before<K>(less: (K, K) -> bool, descending: bool, keys: seq<K>, p: nat, q: nat)
    requires p < |keys| && q < |keys|
  {
    || Ahead(less, descending, keys[p], keys[q])
    || (!Ahead(less, descending, keys[q], keys[p]) && p < q)
  }

  function Iota(n: nat): (s: seq<nat>)
    ensures |s| == n && forall i: nat | i < n :: s[i] == i
  {
    seq(n, i requires 0 <= i => i)
  }

  predicate InRange(order: seq<nat>, n: nat) {
    forall i: nat | i < |order| :: order[i] < n
  }

  ghost predicate InOrder<K>(less: (K, K) -> bool, descending: bool, keys: seq<K>, order: seq<nat>)
    requires InRange(order, |keys|)
  {
    forall i: nat, j: nat | i < j < |order| :: Before(less, descending, keys, order[i], order[j])
  }

  /** The stable order of the keys: every index once, each before all that follow. */
  ghost predicate StableOrder<K>(less: (K, K) -> bool, descending: bool, keys: seq<K>, order: seq<nat>) {
    && multiset(order) == multiset(Iota(|keys|))
    && InRange(order, |keys|)
    && InOrder(less, descending, keys, order)
  }

  // ---- The order is a strict total order, so the stable order is unique -------------------------------

  lemma Asymmetric<K(!new)>(less: (K, K) -> bool, descending: bool, keys: seq<K>, p: nat, q: nat)
    requires StrictWeakOrder(less) && p < |keys| && q < |keys|
    requires Before(less, descending, keys, p, q)
    ensures !Before(less, descending, keys, q, p)
  {
    var a, b := keys[p], keys[q];
    assert !less(a, a);
  }

  lemma TakeOut(p: seq<nat>, m: nat)
    requires m < |p|
    ensures multiset(p[..m] + p[m + 1..]) == multiset(p) - multiset{p[m]}
  {
    assert p == p[..m] + [p[m]] + p[m + 1..];
  }

  lemma HeadUnique<K(!new)>(less: (K, K) -> bool, descending: bool, keys: seq<K>, p: seq<nat>, q: seq<nat>)
    requires StrictWeakOrder(less) && InRange(p, |keys|) && InRange(q, |keys|)
    requires InOrder(less, descending, keys, p) && InOrder(less, descending, keys, q)
    requires |p| > 0 && |q| > 0 && p[0] in q && q[0] in p
    ensures p[0] == q[0]
  {
    hide StrictWeakOrder, Before;
    if p[0] != q[0] {
      var m: nat :| m < |q| && q[m] == p[0];
      var k: nat :| k < |p| && p[k] == q[0];
      Asymmetric(less, descending, keys, p[0], p[k]);
      assert false;
    }
  }

  lemma TailOrdered<K>(less: (K, K) -> bool, descending: bool, keys: seq<K>, p: seq<nat>)
    requires InRange(p, |keys|) && InOrder(less, descending, keys, p) && |p| > 0
    ensures InRange(p[1..], |keys|) && InOrder(less, descending, keys, p[1..])
  {
    hide Before;
    var t := p[1..];
    forall i: nat, j: nat | i < j < |t|
      ensures Before(less, descending, keys, t[i], t[j])
    {
      assert t[i] == p[i + 1] && t[j] == p[j + 1];
    }
  }

  lemma TakeFirst(p: seq<nat>)
    requires |p| > 0
    ensures multiset(p[1..]) == multiset(p) - multiset{p[0]}
  {
    assert p == [p[0]] + p[1..];
  }

  lemma {:induction false} OrderUnique<K(!new)>(less: (K, K) -> bool, descending: bool, keys: seq<K>, p: seq<nat>,
                                         q: seq<nat>)
    requires StrictWeakOrder(less) && InRange(p, |keys|) && InRange(q, |keys|)
    requires InOrder(less, descending, keys, p) && InOrder(less, descending, keys, q)
    requires multiset(p) == multiset(q)
    ensures p == q
    decreases |p|
  {
    hide StrictWeakOrder, InOrder;
    assert |p| == |multiset(p)| == |multiset(q)| == |q|;
    if |p| > 0 {
      assert p[0] in multiset(q) && q[0] in multiset(p);
      HeadUnique(less, descending, keys, p, q);
      TailOrdered(less, descending, keys, p);
      TailOrdered(less, descending, keys, q);
      TakeFirst(p);
      TakeFirst(q);
      OrderUnique(less, descending, keys, p[1..], q[1..]);
    }
  }

  /** There is one stable order. */
  lemma StableOrderUnique<K(!new)>(less: (K, K) -> bool, descending: bool, keys: seq<K>, p: seq<nat>, q: seq<nat>)
    requires StrictWeakOrder(less)
    requires StableOrder(less, descending, keys, p) && StableOrder(less, descending, keys, q)
    ensures p == q
  {
    OrderUnique(less, descending, keys, p, q);
  }

  // ---- One insertion ------------------------------------------------------------------------------------

  function Inserted(order: seq<nat>, pos: nat, x: nat): seq<nat>
    requires pos <= |order|
  {
    order[..pos] + [x] + order[pos..]
  }

  lemma InsertOrdered<K(!new)>(less: (K, K) -> bool, descending: bool, keys: seq<K>, order: seq<nat>, pos: nat)
    requires StrictWeakOrder(less) && pos <= |order| < |keys| && InRange(order, |order|)
    requires InOrder(less, descending, keys, order)
    requires forall k: nat | pos <= k < |order| :: Ahead(less, descending, keys[|order|], keys[order[k]])
    requires pos > 0 ==> !Ahead(less, descending, keys[|order|], keys[order[pos - 1]])
    ensures InRange(Inserted(order, pos, |order|), |order| + 1)
    ensures InOrder(less, descending, keys, Inserted(order, pos, |order|))
  {
    var x := |order|;
    forall k: nat | k < pos
      ensures Before(less, descending, keys, order[k], x)
    {
      if k < pos - 1 {
        assert Before(less, descending, keys, order[k], order[pos - 1]);
        assert !less(keys[order[k]], keys[order[k]]);
        assert !Ahead(less, descending, keys[order[pos - 1]], keys[order[k]]);
      }
      assert !Ahead(less, descending, keys[x], keys[order[k]]);
    }
    var new_ := Inserted(order, pos, x);
    forall i: nat, j: nat | i < j < |new_|
      ensures Before(less, descending, keys, new_[i], new_[j])
    {
      if i != pos && j != pos {
        var a, b := if i < pos then i else i - 1, if j < pos then j else j - 1;
        assert new_[i] == order[a] && new_[j] == order[b];
        assert Before(less, descending, keys, order[a], order[b]);
      }
    }
  }

  lemma InsertCounts(order: seq<nat>, pos: nat)
    requires pos <= |order| && multiset(order) == multiset(Iota(|order|))
    ensures multiset(Inserted(order, pos, |order|)) == multiset(Iota(|order| + 1))
  {
    assert order == order[..pos] + order[pos..];
    assert Iota(|order| + 1) == Iota(|order|) + [|order|];
  }

  lemma InsertedFrom(order: seq<nat>, pos: nat, x: nat, now: seq<nat>)
    requires pos <= |order| && |now| == |order| + 1 && now[..pos] == order[..pos] && now[pos] == x
    requires forall k: nat | pos <= k < |order| :: now[k + 1] == order[k]
    ensures now == Inserted(order, pos, x)
  {
    forall k: nat | k < |now|
      ensures now[k] == Inserted(order, pos, x)[k]
    {
      if k < pos { assert now[k] == now[..pos][k]; }
    }
  }

  /** The stable order of the first keys, as many as `order` has indices. */
  ghost predicate SortedUpTo<K>(less: (K, K) -> bool, descending: bool, keys: seq<K>, order: seq<nat>) {
    && |order| <= |keys| && InRange(order, |order|)
    && multiset(order) == multiset(Iota(|order|))
    && InOrder(less, descending, keys, order)
  }

  lemma UpTo<K>(less: (K, K) -> bool, descending: bool, keys: seq<K>, order: seq<nat>)
    requires SortedUpTo(less, descending, keys, order)
    ensures InRange(order, |order|)
  {
  }

  lemma NothingToSort<K>(less: (K, K) -> bool, descending: bool, keys: seq<K>)
    requires |keys| == 0
    ensures StableOrder(less, descending, keys, [])
  {
    assert Iota(0) == [];
  }

  lemma FirstSorted<K>(less: (K, K) -> bool, descending: bool, keys: seq<K>)
    requires |keys| > 0
    ensures SortedUpTo(less, descending, keys, Iota(1))
  {
  }

  lemma AllSorted<K>(less: (K, K) -> bool, descending: bool, keys: seq<K>, order: seq<nat>)
    requires |order| == |keys| && SortedUpTo(less, descending, keys, order)
    ensures StableOrder(less, descending, keys, order)
  {
    hide InOrder;
  }

  /** One more index, in its place. */
  lemma InsertSorts<K(!new)>(less: (K, K) -> bool, descending: bool, keys: seq<K>, order: seq<nat>, pos: nat)
    requires StrictWeakOrder(less) && pos <= |order| < |keys|
    requires SortedUpTo(less, descending, keys, order) && InRange(order, |order|)
    requires forall k: nat | pos <= k < |order| :: Ahead(less, descending, keys[|order|], keys[order[k]])
    requires pos > 0 ==> !Ahead(less, descending, keys[|order|], keys[order[pos - 1]])
    ensures SortedUpTo(less, descending, keys, Inserted(order, pos, |order|))
  {
    InsertOrdered(less, descending, keys, order, pos);
    InsertCounts(order, pos);
    assert |Inserted(order, pos, |order|)| == |order| + 1;
    hide StrictWeakOrder, InOrder, Ahead, Inserted;
  }

  /** The inner loop: the indices with worse keys move up by one, and the new index takes their place. */
  method InsertIndex<K>(keys: seq<K>, less: (K, K) -> bool, descending: bool, idx: array<nat>, i: nat,
                        ghost order: seq<nat>)
    returns (pos: nat)
    requires i < idx.Length == |keys| && idx[..i] == order && InRange(order, i) && idx[i] == i
    modifies idx
    ensures pos <= i && idx[..i + 1] == Inserted(order, pos, i)
    ensures forall k: nat | i < k < idx.Length :: idx[k] == old(idx[k])
    ensures forall k: nat | pos <= k < i :: Ahead(less, descending, keys[i], keys[order[k]])
    ensures pos > 0 ==> !Ahead(less, descending, keys[i], keys[order[pos - 1]])
  {
    hide Inserted, Ahead;
    var current := idx[i];
    var j := i - 1;
    while j >= 0 && Ahead(less, descending, keys[current], keys[idx[j]])
      invariant -1 <= j < i
      invariant idx[..j + 1] == order[..j + 1]
      invariant forall k: nat | j + 1 <= k < i :: idx[k + 1] == order[k]
      invariant forall k: nat | j + 1 <= k < i :: Ahead(less, descending, keys[i], keys[order[k]])
      invariant forall k: nat | i < k < idx.Length :: idx[k] == old(idx[k])
    {
      assert idx[j] == order[j];
      idx[j + 1] := idx[j];
      j := j - 1;
    }
    idx[j + 1] := current;
    pos := j + 1;
    InsertedFrom(order, pos, i, idx[..i + 1]);
  }

  /** `Array.SortBy`: insert each index into the sorted ones before it, moving worse ones up. */
  method SortIndices<K(!new)>(keys: seq<K>, less: (K, K) -> bool, descending: bool) returns (idx: array<nat>)
    requires StrictWeakOrder(less)
    ensures fresh(idx) && StableOrder(less, descending, keys, idx[..])
  {
    hide *;
    var count := |keys|;
    idx := new nat[count](i requires 0 <= i => i);
    assert idx[..] == Iota(count);
    if count == 0 {
      NothingToSort(less, descending, keys);
      return;
    }
    var i := 1;
    assert idx[..1] == Iota(1);
    FirstSorted(less, descending, keys);
    while i < count
      invariant 1 <= i <= count == idx.Length
      invariant SortedUpTo(less, descending, keys, idx[..i])
      invariant forall k: nat | i <= k < count :: idx[k] == k
    {
      ghost var order := idx[..i];
      UpTo(less, descending, keys, order);
      var pos := InsertIndex(keys, less, descending, idx, i, order);
      InsertSorts(less, descending, keys, order, pos);
      i := i + 1;
    }
    assert idx[..count] == idx[..];
    AllSorted(less, descending, keys, idx[..]);
  }

  // ---- Reordering ------------------------------------------------------------------------------------------

  function Reordered<T>(s: seq<T>, order: seq<nat>): (r: seq<T>)
    requires InRange(order, |s|)
    ensures |r| == |order| && forall i: nat | i < |r| :: r[i] == s[order[i]]
  {
    seq(|order|, i requires 0 <= i < |order| => s[order[i]])
  }

  lemma ReorderTakeOut<T>(s: seq<T>, p: seq<nat>, m: nat)
    requires InRange(p, |s|) && m < |p|
    ensures InRange(p[..m] + p[m + 1..], |s|)
    ensures multiset(Reordered(s, p)) == multiset(Reordered(s, p[..m] + p[m + 1..])) + multiset{s[p[m]]}
  {
    var r := Reordered(s, p);
    assert r == r[..m] + [r[m]] + r[m + 1..];
    assert Reordered(s, p[..m] + p[m + 1..]) == r[..m] + r[m + 1..];
  }

  lemma {:induction false} ReorderCounts<T>(s: seq<T>, p: seq<nat>, q: seq<nat>)
    requires InRange(p, |s|) && InRange(q, |s|) && multiset(p) == multiset(q)
    ensures multiset(Reordered(s, p)) == multiset(Reordered(s, q))
    decreases |p|
  {
    hide *;
    assert |p| == |multiset(p)| == |multiset(q)| == |q|;
    if |p| > 0 {
      assert p[0] in multiset(q);
      var m: nat :| m < |q| && q[m] == p[0];
      TakeOut(p, 0);
      TakeOut(q, m);
      ReorderTakeOut(s, p, 0);
      ReorderTakeOut(s, q, m);
      ReorderCounts(s, p[..0] + p[0 + 1..], q[..m] + q[m + 1..]);
    }
  }

  /** Reordering by the stable order keeps the elements, with their multiplicities, and sorts their
      keys; equal keys stay in their first order. */
  lemma ReorderSorts<T, K(!new)>(s: seq<T>, keys: seq<K>, less: (K, K) -> bool, descending: bool, order: seq<nat>)
    requires StrictWeakOrder(less) && |s| == |keys| && StableOrder(less, descending, keys, order)
    ensures multiset(Reordered(s, order)) == multiset(s)
    ensures forall i: nat, j: nat | i < j < |order| ::
              (var sorted := Reordered(keys, order);
               && !Ahead(less, descending, sorted[j], sorted[i])
               && (!Ahead(less, descending, sorted[i], sorted[j]) ==> order[i] < order[j]))
  {
    ReorderCounts(s, order, Iota(|s|));
    assert Reordered(s, Iota(|s|)) == s;
    forall i: nat, j: nat | i < j < |order|
      ensures !Ahead(less, descending, keys[order[j]], keys[order[i]])
      ensures !Ahead(less, descending, keys[order[i]], keys[order[j]]) ==> order[i] < order[j]
    {
      assert Before(less, descending, keys, order[i], order[j]);
      assert !less(keys[order[i]], keys[order[i]]);
    }
  }

  method Reorder<T(0)>(s: seq<T>, order: seq<nat>) returns (data: array<T>)
    requires InRange(order, |s|)
    ensures fresh(data) && data[..] == Reordered(s, order)
  {
    data := new T[|order|];
    var i := 0;
    while i < |order|
      invariant i <= |order| && forall k: nat | k < i :: data[k] == s[order[k]]
    {
      data[i] := s[order[i]];
      i := i + 1;
    }
  }

  // ---- The best key ------------------------------------------------------------------------------------------

  /** `Array.MinBy` and `Array.MaxBy`: the first of the best keys, 0 for no keys. */
  method ArgBest<K(!new)>(keys: seq<K>, less: (K, K) -> bool, maximum: bool) returns (best: nat)
    requires StrictWeakOrder(less)
    ensures |keys| == 0 ==> best == 0
    ensures |keys| > 0 ==>
      best < |keys| && forall k: nat | k < |keys| && k != best :: Before(less, maximum, keys, best, k)
  {
    if |keys| == 0 {
      return 0;
    }
    best := 0;
    var i := 1;
    while i < |keys|
      invariant best < i <= |keys|
      invariant forall k: nat | k < i && k != best :: Before(less, maximum, keys, best, k)
    {
      if Ahead(less, maximum, keys[i], keys[best]) {
        forall k: nat | k < i && k != best
          ensures Before(less, maximum, keys, i, k)
        {
          assert Before(less, maximum, keys, best, k);
        }
        best := i;
      }
      i := i + 1;
    }
  }

  /** The best index is the first of the stable order for the same direction. */
  lemma BestIsFirst<K(!new)>(less: (K, K) -> bool, descending: bool, keys: seq<K>, order: seq<nat>, best: nat)
    requires StrictWeakOrder(less) && StableOrder(less, descending, keys, order) && best < |keys|
    ensures |order| == |keys|
    ensures (forall k: nat | k < |keys| && k != best :: Before(less, descending, keys, best, k)) <==> best == order[0]
  {
    assert |order| == |multiset(order)| == |multiset(Iota(|keys|))| == |keys|;
    var first := order[0];
    forall k: nat | k < |keys| && k != first
      ensures Before(less, descending, keys, first, k)
    {
      assert Iota(|keys|)[k] == k;
      assert k in multiset(Iota(|keys|));
      assert k in multiset(order);
      var m: nat :| m < |order| && order[m] == k;
    }
    if best != first && forall k: nat | k < |keys| && k != best :: Before(less, descending, keys, best, k) {
      Asymmetric(less, descending, keys, best, first);
      assert false;
    }
  }

  // ---- The two comparisons --------------------------------------------------------------------------------------

  predicate NumberLess(a: int, b: int) { a < b }

  lemma NumberOrder()
    ensures StrictWeakOrder(NumberLess)
  {
  }

  /** Byte order, a proper prefix first. */
  predicate TextLess(a: seq<byte>, b: seq<byte>) {
    if |b| == 0 then false
    else if |a| == 0 then true
    else if a[0] != b[0] then a[0] < b[0]
    else TextLess(a[1..], b[1..])
  }

  /** At the first difference the smaller byte comes first, and a proper prefix before what it begins. */
  ghost predicate ByteOrder(a: seq<byte>, b: seq<byte>) {
    exists n: nat {:trigger a[..n]} ::
      && n <= |a| && n < |b| && a[..n] == b[..n]
      && (n == |a| || (n < |a| && a[n] < b[n]))
  }

  lemma {:induction false} TextLessIff(a: seq<byte>, b: seq<byte>)
    ensures TextLess(a, b) <==> ByteOrder(a, b)
  {
    if |a| > 0 && |b| > 0 && a[0] == b[0] {
      TextLessIff(a[1..], b[1..]);
      if n: nat :| n <= |a[1..]| && n < |b[1..]| && a[1..][..n] == b[1..][..n]
                   && (n == |a[1..]| || (n < |a[1..]| && a[1..][n] < b[1..][n])) {
        assert a[..n + 1] == [a[0]] + a[1..][..n] && b[..n + 1] == [b[0]] + b[1..][..n];
      }
      if n: nat :| n <= |a| && n < |b| && a[..n] == b[..n] && (n == |a| || (n < |a| && a[n] < b[n])) {
        assert a[1..][..n - 1] == a[..n][1..] && b[1..][..n - 1] == b[..n][1..];
      }
    } else if |b| > 0 {
      assert a[..0] == b[..0];
    }
  }

  /** Of two different strings one comes first. */
  lemma {:induction false} TextTotal(a: seq<byte>, b: seq<byte>)
    ensures !TextLess(a, b) && !TextLess(b, a) ==> a == b
  {
    if |a| > 0 && |b| > 0 {
      TextTotal(a[1..], b[1..]);
      assert a == [a[0]] + a[1..] && b == [b[0]] + b[1..];
    }
  }

  lemma {:induction false} TextIrreflexive(a: seq<byte>)
    ensures !TextLess(a, a)
  {
    if |a| > 0 { TextIrreflexive(a[1..]); }
  }

  lemma {:induction false} TextTransitive(a: seq<byte>, b: seq<byte>, c: seq<byte>)
    ensures TextLess(a, b) && TextLess(b, c) ==> TextLess(a, c)
    ensures !TextLess(a, b) && !TextLess(b, c) ==> !TextLess(a, c)
  {
    if |a| > 0 && |b| > 0 && |c| > 0 {
      TextTransitive(a[1..], b[1..], c[1..]);
    }
  }

  lemma TextOrder()
    ensures StrictWeakOrder(TextLess)
  {
    forall a: seq<byte> ensures !TextLess(a, a) { TextIrreflexive(a); }
    forall a: seq<byte>, b: seq<byte>, c: seq<byte>
      ensures TextLess(a, b) && TextLess(b, c) ==> TextLess(a, c)
      ensures !TextLess(a, b) && !TextLess(b, c) ==> !TextLess(a, c)
    {
      TextTransitive(a, b, c);
    }
  }

  /** Both strings end in their terminator, which no other byte equals. */
  predicate Terminated(a: seq<byte>) {
    |a| > 0 && a[|a| - 1] == 0 && forall i: nat | i < |a| - 1 :: a[i] != 0
  }

  lemma {:induction false} TextLessSkips(a: seq<byte>, b: seq<byte>, i: nat)
    requires i <= |a| && i <= |b| && a[..i] == b[..i]
    ensures TextLess(a, b) == TextLess(a[i..], b[i..])
  {
    if i == 0 {
      assert a[0..] == a && b[0..] == b;
    } else {
      assert a[0] == a[..i][0] && b[0] == b[..i][0];
      assert a[1..][..i - 1] == a[..i][1..] && b[1..][..i - 1] == b[..i][1..];
      TextLessSkips(a[1..], b[1..], i - 1);
      assert a[1..][i - 1..] == a[i..] && b[1..][i - 1..] == b[i..];
    }
  }

  /** The byte loop that stops at either terminator. */
  method StringsLessThan(a: seq<byte>, b: seq<byte>) returns (less: bool)
    requires Terminated(a) && Terminated(b)
    ensures less == TextLess(a[..|a| - 1], b[..|b| - 1])
    ensures less <==> ByteOrder(a[..|a| - 1], b[..|b| - 1])
  {
    ghost var s, t := a[..|a| - 1], b[..|b| - 1];
    TextLessIff(s, t);
    hide ByteOrder;
    var i := 0;
    while a[i] != 0 && b[i] != 0
      invariant i < |a| && i < |b| && s[..i] == t[..i]
      decreases |a| - i
    {
      if a[i] != b[i] {
        TextLessSkips(s, t, i);
        return a[i] < b[i];
      }
      i := i + 1;
    }
    TextLessSkips(s, t, i);
    less := a[i] < b[i];
  }

  // ---- The number and the string variants --------------------------------------------------------------

  /** The numbers in order, equal ones as they came. */
  ghost predicate NumbersInOrder(keys: seq<int>, descending: bool, order: seq<nat>) {
    && multiset(order) == multiset(Iota(|keys|)) && InRange(order, |keys|)
    && forall i: nat, j: nat | i < j < |order| ::
         || (if descending then keys[order[i]] > keys[order[j]] else keys[order[i]] < keys[order[j]])
         || (keys[order[i]] == keys[order[j]] && order[i] < order[j])
  }

  method SortIndicesNumber(keys: seq<int>, descending: bool) returns (idx: array<nat>)
    ensures fresh(idx) && StableOrder(NumberLess, descending, keys, idx[..])
    ensures NumbersInOrder(keys, descending, idx[..])
  {
    NumberOrder();
    idx := SortIndices(keys, NumberLess, descending);
    NumbersStable(keys, descending, idx[..]);
  }

  lemma NumbersStable(keys: seq<int>, descending: bool, order: seq<nat>)
    ensures StableOrder(NumberLess, descending, keys, order) <==> NumbersInOrder(keys, descending, order)
  {
  }

  /** String `p` comes before string `q`, by bytes and then by position. */
  ghost predicate Comes(keys: seq<seq<byte>>, descending: bool, p: nat, q: nat)
    requires p < |keys| && q < |keys|
  {
    || (if descending then ByteOrder(keys[q], keys[p]) else ByteOrder(keys[p], keys[q]))
    || (keys[p] == keys[q] && p < q)
  }

  /** The strings in byte order, equal ones as they came. */
  ghost predicate StringsInOrder(keys: seq<seq<byte>>, descending: bool, order: seq<nat>) {
    && multiset(order) == multiset(Iota(|keys|)) && InRange(order, |keys|)
    && forall i: nat, j: nat | i < j < |order| :: Comes(keys, descending, order[i], order[j])
  }

  method SortIndicesString(keys: seq<seq<byte>>, descending: bool) returns (idx: array<nat>)
    ensures fresh(idx) && StableOrder(TextLess, descending, keys, idx[..])
    ensures StringsInOrder(keys, descending, idx[..])
  {
    TextOrder();
    idx := SortIndices(keys, TextLess, descending);
    StringsStable(keys, descending, idx[..]);
  }

  /** One string before another, as the sort has it and as bytes have it. */
  lemma StringBefore(keys: seq<seq<byte>>, descending: bool, p: nat, q: nat)
    requires p < |keys| && q < |keys|
    ensures Before(TextLess, descending, keys, p, q) <==> Comes(keys, descending, p, q)
  {
    var a, b := keys[p], keys[q];
    TextLessIff(a, b);
    TextLessIff(b, a);
    TextTotal(a, b);
    TextIrreflexive(a);
    hide ByteOrder, TextLess;
  }

  lemma StringsStable(keys: seq<seq<byte>>, descending: bool, order: seq<nat>)
    ensures StableOrder(TextLess, descending, keys, order) <==> StringsInOrder(keys, descending, order)
  {
    hide Before, Comes, TextLess;
    if InRange(order, |keys|) {
      forall i: nat, j: nat | i < j < |order|
        ensures order[i] < |keys| && order[j] < |keys|
        ensures Before(TextLess, descending, keys, order[i], order[j]) <==> Comes(keys, descending, order[i], order[j])
      {
        StringBefore(keys, descending, order[i], order[j]);
      }
    }
  }

  /** The best number: no other is greater, or smaller, and the first of equals is meant. */
  method ArgBestNumber(keys: seq<int>, maximum: bool) returns (best: nat)
    ensures |keys| == 0 ==> best == 0
    ensures |keys| > 0 ==>
      best < |keys| && forall k: nat | k < |keys| && k != best ::
        || (if maximum then keys[best] > keys[k] else keys[best] < keys[k])
        || (keys[best] == keys[k] && best < k)
  {
    NumberOrder();
    best := ArgBest(keys, NumberLess, maximum);
    forall k: nat | k < |keys| && k != best
      ensures || (if maximum then keys[best] > keys[k] else keys[best] < keys[k])
              || (keys[best] == keys[k] && best < k)
    {
      assert Before(NumberLess, maximum, keys, best, k);
    }
  }

  method ArgBestString(keys: seq<seq<byte>>, maximum: bool) returns (best: nat)
    ensures |keys| == 0 ==> best == 0
    ensures |keys| > 0 ==>
      best < |keys| && forall k: nat | k < |keys| && k != best :: Comes(keys, maximum, best, k)
  {
    TextOrder();
    best := ArgBest(keys, TextLess, maximum);
    hide Before, Comes;
    forall k: nat | k < |keys| && k != best
      ensures Comes(keys, maximum, best, k)
    {
      StringBefore(keys, maximum, best, k);
    }
  }
}
