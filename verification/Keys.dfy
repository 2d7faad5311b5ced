/** Ordered traversal of a map and sorting of rows, as `std::map` and `std::sort` provide them. */
module Keys {
  lemma LeastBelow(s: set<nat>, x: nat)
    requires x in s
    ensures exists m :: m in s && forall y | y in s :: m <= y
  {
    if y :| y in s && y < x {
      LeastBelow(s, y);
    }
  }

  lemma LeastExists(s: set<nat>)
    requires s != {}
    ensures exists x :: x in s && forall y | y in s :: x <= y
  {
    var x :| x in s;
    LeastBelow(s, x);
  }

  function Least(s: set<nat>): (x: nat)
    requires s != {}
    ensures x in s && forall y | y in s :: x <= y
  {
    LeastExists(s);
    var x :| x in s && forall y | y in s :: x <= y;
    x
  }

  /** Strictly increasing. */
  predicate Increasing(keys: seq<nat>) {
    forall i, j | 0 <= i < j < |keys| :: keys[i] < keys[j]
  }

  lemma LeastFirst(s: set<nat>, x: nat, rest: seq<nat>)
    requires x in s && forall y | y in s :: x <= y
    requires Increasing(rest) && |rest| == |s - {x}| && forall y :: y in rest <==> y in s - {x}
    ensures Increasing([x] + rest) && |[x] + rest| == |s|
    ensures forall y :: y in [x] + rest <==> y in s
  {
    var all := [x] + rest;
    forall i, j | 0 <= i < j < |all|
      ensures all[i] < all[j]
    {
      assert rest[j - 1] in rest;
    }
    forall y
      ensures y in all <==> y in s
    {
      assert y in all <==> y == x || y in rest;
    }
  }

  /** The elements of a set in increasing order: the iteration order of `std::map`. */
  function SortedKeys(s: set<nat>): (keys: seq<nat>)
    ensures forall x :: x in keys ==> x in s
  {
    if s == {} then [] else
      var x := Least(s);
      [x] + SortedKeys(s - {x})
  }

  /** They are all the elements, each once, in increasing order. */
  lemma {:induction false} SortedKeysAre(s: set<nat>)
    ensures |SortedKeys(s)| == |s| && Increasing(SortedKeys(s))
    ensures forall x :: x in SortedKeys(s) <==> x in s
  {
    if s != {} {
      var x := Least(s);
      SortedKeysAre(s - {x});
      LeastFirst(s, x, SortedKeys(s - {x}));
    }
  }

  /** Lexicographic order on key vectors. */
  predicate LexLess(a: seq<nat>, b: seq<nat>) {
    if |b| == 0 then false
    else if |a| == 0 then true
    else if a[0] != b[0] then a[0] < b[0]
    else LexLess(a[1..], b[1..])
  }

  /** Insert `x` after every element that is not greater. */
  function Insert<T>(s: seq<T>, x: T, key: T -> seq<nat>): (r: seq<T>)
  {
    if |s| == 0 then [x]
    else if LexLess(key(x), key(s[|s| - 1])) then Insert(s[..|s| - 1], x, key) + [s[|s| - 1]]
    else s + [x]
  }

  /** Sort by key vector. */
  function SortBy<T>(s: seq<T>, key: T -> seq<nat>): (r: seq<T>)
  {
    if |s| == 0 then [] else Insert(SortBy(s[..|s| - 1], key), s[|s| - 1], key)
  }

  lemma {:induction false} InsertKeeps<T>(s: seq<T>, x: T, key: T -> seq<nat>)
    ensures multiset(Insert(s, x, key)) == multiset(s + [x])
    ensures |Insert(s, x, key)| == |s| + 1
  {
    if |s| != 0 && LexLess(key(x), key(s[|s| - 1])) {
      InsertKeeps(s[..|s| - 1], x, key);
      assert s == s[..|s| - 1] + [s[|s| - 1]];
    }
  }

  /** Sorting permutes. */
  lemma {:induction false} SortKeeps<T>(s: seq<T>, key: T -> seq<nat>)
    ensures multiset(SortBy(s, key)) == multiset(s)
    ensures |SortBy(s, key)| == |s|
  {
    if |s| != 0 {
      SortKeeps(s[..|s| - 1], key);
      InsertKeeps(SortBy(s[..|s| - 1], key), s[|s| - 1], key);
      assert s == s[..|s| - 1] + [s[|s| - 1]];
    }
  }

  /** Sorting keeps membership both ways. */
  lemma SortMembers<T(!new)>(s: seq<T>, key: T -> seq<nat>)
    ensures forall x :: x in SortBy(s, key) <==> x in s
    ensures |SortBy(s, key)| == |s|
  {
    SortKeeps(s, key);
    forall x
      ensures x in SortBy(s, key) <==> x in s
    {
      assert x in multiset(SortBy(s, key)) <==> x in multiset(s);
    }
  }

  /** Sorting a list already in order changes nothing. */
  lemma {:induction false} SortInOrder<T>(s: seq<T>, key: T -> seq<nat>)
    requires forall i | 0 < i < |s| :: !LexLess(key(s[i]), key(s[i - 1]))
    ensures SortBy(s, key) == s
  {
    if |s| != 0 {
      SortInOrder(s[..|s| - 1], key);
      assert s == s[..|s| - 1] + [s[|s| - 1]];
    }
  }

  // ---- Sorting sorts --------------------------------------------------------------------------------

  lemma {:induction false} LexAsymmetric(a: seq<nat>, b: seq<nat>)
    ensures LexLess(a, b) ==> !LexLess(b, a)
  {
    if |a| != 0 && |b| != 0 {
      LexAsymmetric(a[1..], b[1..]);
    }
  }

  /** What is not greater is passed on. */
  lemma {:induction false} LexPasses(a: seq<nat>, b: seq<nat>, c: seq<nat>)
    ensures !LexLess(b, a) && !LexLess(c, b) ==> !LexLess(c, a)
  {
    if |a| != 0 && |b| != 0 && |c| != 0 {
      LexPasses(a[1..], b[1..], c[1..]);
    }
  }

  /** Of two different vectors one is less. */
  lemma {:induction false} LexTotal(a: seq<nat>, b: seq<nat>)
    ensures !LexLess(a, b) && !LexLess(b, a) ==> a == b
  {
    if |a| != 0 && |b| != 0 {
      LexTotal(a[1..], b[1..]);
      assert a == [a[0]] + a[1..] && b == [b[0]] + b[1..];
    }
  }

  /** The first difference decides. */
  lemma {:induction false} LexFirst(a: seq<nat>, b: seq<nat>) returns (k: nat)
    requires LexLess(a, b)
    ensures k <= |a| && k < |b| && a[..k] == b[..k] && (k == |a| || a[k] < b[k])
  {
    if |a| == 0 || a[0] != b[0] {
      k := 0;
    } else {
      k := LexFirst(a[1..], b[1..]);
      assert a[..k + 1] == [a[0]] + a[1..][..k] && b[..k + 1] == [b[0]] + b[1..][..k];
      k := k + 1;
    }
  }

  /** No element has a smaller key than one before it. */
  predicate InOrder<T>(s: seq<T>, key: T -> seq<nat>) {
    forall i, j | 0 <= i < j < |s| :: !LexLess(key(s[j]), key(s[i]))
  }

  lemma {:induction false} InsertInOrder<T>(s: seq<T>, x: T, key: T -> seq<nat>)
    requires InOrder(s, key)
    ensures InOrder(Insert(s, x, key), key)
  {
    if |s| != 0 {
      var front, last := s[..|s| - 1], s[|s| - 1];
      if LexLess(key(x), key(last)) {
        InsertInOrder(front, x, key);
        var r := Insert(front, x, key);
        InsertKeeps(front, x, key);
        LexAsymmetric(key(x), key(last));
        forall i | 0 <= i < |r|
          ensures !LexLess(key(last), key(r[i]))
        {
          assert r[i] in multiset(front + [x]);
          assert r[i] in front || r[i] == x;
        }
      } else {
        forall i | 0 <= i < |s|
          ensures !LexLess(key(x), key(s[i]))
        {
          LexPasses(key(s[i]), key(last), key(x));
        }
      }
    }
  }

  lemma {:induction false} SortSorts<T>(s: seq<T>, key: T -> seq<nat>)
    ensures InOrder(SortBy(s, key), key)
  {
    if |s| != 0 {
      SortSorts(s[..|s| - 1], key);
      InsertInOrder(SortBy(s[..|s| - 1], key), s[|s| - 1], key);
    }
  }

  /** An element that occurs once stands at one position. */
  lemma OnceApart<T>(s: seq<T>, i: nat, j: nat)
    requires i < j < |s| && multiset(s)[s[i]] == 1
    ensures s[i] != s[j]
  {
    assert s == s[..i] + [s[i]] + s[i + 1..j] + [s[j]] + s[j + 1..];
  }

  lemma {:induction false} OccursOnce<T>(s: seq<T>, x: T)
    requires x in s && forall i, j | 0 <= i < j < |s| :: s[i] != s[j]
    ensures multiset(s)[x] == 1
  {
    var t, last := s[..|s| - 1], s[|s| - 1];
    assert s == t + [last];
    if x in t {
      OccursOnce(t, x);
    }
  }

  /** The values of a list. */
  function Values(s: seq<nat>): set<nat> {
    set x | x in s
  }

  /** A list with distinct values has as many values as positions. */
  lemma {:induction false} DistinctCount(s: seq<nat>)
    requires forall i, j | 0 <= i < j < |s| :: s[i] != s[j]
    ensures |Values(s)| == |s|
  {
    if |s| == 0 {
      assert Values(s) == {};
    } else {
      var t, last := s[..|s| - 1], s[|s| - 1];
      DistinctCount(t);
      assert s == t + [last];
      assert last !in Values(t);
      assert Values(s) == Values(t) + {last};
    }
  }
}
