/** Fisher-Yates: shuffling and sampling, as functions of the draws they consume. */
module Shuffle {

  function Swap<T>(s: seq<T>, i: nat, j: nat): (r: seq<T>)
    requires i < |s| && j < |s|
    ensures |r| == |s| && r[i] == s[j] && r[j] == s[i]
    ensures forall k | 0 <= k < |s| && k != i && k != j :: r[k] == s[k]
  {
    s[i := s[j]][j := s[i]]
  }

  /** A permutation. */
  ghost predicate Permutation<T>(s: seq<T>, t: seq<T>) {
    multiset(s) == multiset(t)
  }

  lemma UpdateCounts<T>(s: seq<T>, i: nat, x: T)
    requires i < |s|
    ensures multiset(s[i := x]) == multiset(s) - multiset{s[i]} + multiset{x}
  {
    assert s[i := x] == s[..i] + [x] + s[i + 1..];
    assert s == s[..i] + [s[i]] + s[i + 1..];
  }

  lemma SwapPermutes<T>(s: seq<T>, i: nat, j: nat)
    requires i < |s| && j < |s|
    ensures Permutation(Swap(s, i, j), s)
  {
    UpdateCounts(s, i, s[j]);
    UpdateCounts(s[i := s[j]], j, s[i]);
    assert s[i := s[j]][j] == s[j];
    assert s[i] in multiset(s);
  }

  /** One draw for each remaining count from `n` down to two, each below that count. */
  predicate Draws(draws: seq<nat>, n: nat) {
    |draws| == (if n > 1 then n - 1 else 0) && forall i | 0 <= i < |draws| :: draws[i] < n - i
  }

  /** The first `n` elements shuffled from the end, the rest untouched. */
  function Shuffled<T>(s: seq<T>, n: nat, draws: seq<nat>): (r: seq<T>)
    requires n <= |s| && Draws(draws, n)
    ensures |r| == |s|
    decreases n
  {
    if n <= 1 then s else Shuffled(Swap(s, n - 1, draws[0]), n - 1, draws[1..])
  }

  predicate Distinct<T(==)>(s: seq<T>) {
    forall i, j | 0 <= i < j < |s| :: s[i] != s[j]
  }

  lemma PermutationDistinct<T>(s: seq<T>, t: seq<T>)
    requires Permutation(s, t) && Distinct(s)
    ensures Distinct(t) && |t| == |s|
  {
    assert |multiset(s)| == |s| && |multiset(t)| == |t|;
    forall i, j | 0 <= i < j < |t|
      ensures t[i] != t[j]
    {
      if t[i] == t[j] {
        assert t == t[..i] + [t[i]] + t[i + 1..j] + [t[j]] + t[j + 1..];
        assert multiset(t)[t[i]] >= 2;
        DistinctOnce(s, t[i]);
      }
    }
  }

  lemma {:induction false} DistinctOnce<T>(s: seq<T>, x: T)
    requires Distinct(s)
    ensures multiset(s)[x] <= 1
  {
    if |s| != 0 {
      var t := s[..|s| - 1];
      assert s == t + [s[|s| - 1]];
      DistinctOnce(t, x);
      if multiset(t)[x] == 1 {
        assert x in t;
      }
    }
  }

  /** The shuffle permutes, and leaves everything from `n` on in place. */
  lemma {:induction false} ShufflePermutes<T>(s: seq<T>, n: nat, draws: seq<nat>)
    requires n <= |s| && Draws(draws, n)
    ensures Permutation(Shuffled(s, n, draws), s)
    ensures forall i | n <= i < |s| :: Shuffled(s, n, draws)[i] == s[i]
    decreases n
  {
    if n > 1 {
      SwapPermutes(s, n - 1, draws[0]);
      ShufflePermutes(Swap(s, n - 1, draws[0]), n - 1, draws[1..]);
    }
  }

  lemma SwapDistinct<T>(s: seq<T>, i: nat, j: nat)
    requires i < |s| && j < |s| && Distinct(s)
    ensures Distinct(Swap(s, i, j))
  {
    SwapPermutes(s, i, j);
    PermutationDistinct(s, Swap(s, i, j));
  }

  /** For distinct elements, different draws give different orders. */
  lemma {:induction false} ShuffleInjective<T>(s: seq<T>, n: nat, a: seq<nat>, b: seq<nat>)
    requires n <= |s| && Distinct(s) && Draws(a, n) && Draws(b, n)
    requires Shuffled(s, n, a) == Shuffled(s, n, b)
    ensures a == b
    decreases n
  {
    if n > 1 {
      var sa, sb := Swap(s, n - 1, a[0]), Swap(s, n - 1, b[0]);
      hide Permutation;
      ShufflePermutes(sa, n - 1, a[1..]);
      ShufflePermutes(sb, n - 1, b[1..]);
      assert s[a[0]] == s[b[0]];
      assert a[0] == b[0];
      SwapDistinct(s, n - 1, a[0]);
      ShuffleInjective(sa, n - 1, a[1..], b[1..]);
      assert a == [a[0]] + a[1..] && b == [b[0]] + b[1..];
    }
  }

  lemma PositionExists<T>(s: seq<T>, n: nat, t: seq<T>)
    requires 0 < n <= |s| == |t| && Permutation(s, t) && forall i | n <= i < |s| :: s[i] == t[i]
    ensures exists k: nat :: k < n && s[k] == t[n - 1]
  {
    assert s == s[..n] + s[n..] && t == t[..n] + t[n..] && s[n..] == t[n..];
    assert multiset(s[..n]) == multiset(s) - multiset(s[n..]);
    assert multiset(t[..n]) == multiset(t) - multiset(t[n..]);
    assert t[n - 1] == t[..n][n - 1];
    assert t[n - 1] in multiset(t[..n]);
    assert t[n - 1] in s[..n];
  }

  lemma FirstDraw(k: nat, rest: seq<nat>, n: nat)
    requires n > 1 && k < n && Draws(rest, n - 1)
    ensures Draws([k] + rest, n) && ([k] + rest)[1..] == rest
  {
  }

  lemma AtMostOneLeft<T>(s: seq<T>, n: nat, t: seq<T>)
    requires n <= 1 && n <= |s| == |t| && Permutation(s, t) && forall i | n <= i < |s| :: s[i] == t[i]
    ensures s == t
  {
    if n == 1 {
      PositionExists(s, n, t);
    }
  }

  /** The draws that lead from `s` to its permutation `t`. */
  lemma {:induction false} DrawsReach<T>(s: seq<T>, n: nat, t: seq<T>) returns (draws: seq<nat>)
    requires n <= |s| == |t| && Permutation(s, t) && forall i | n <= i < |s| :: s[i] == t[i]
    ensures Draws(draws, n) && Shuffled(s, n, draws) == t
    decreases n
  {
    hide Swap;
    if n <= 1 {
      AtMostOneLeft(s, n, t);
      draws := [];
    } else {
      PositionExists(s, n, t);
      var k: nat :| k < n && s[k] == t[n - 1];
      SwapReaches(s, n - 1, k, t);
      hide Permutation, Draws;
      var rest := DrawsReach(Swap(s, n - 1, k), n - 1, t);
      FirstDraw(k, rest, n);
      draws := [k] + rest;
    }
  }

  lemma SwapReaches<T>(s: seq<T>, i: nat, k: nat, t: seq<T>)
    requires i < |s| && k < |s| && Permutation(s, t)
    ensures Permutation(Swap(s, i, k), t)
  {
    SwapPermutes(s, i, k);
  }

  /** Every permutation of distinct elements comes from exactly one sequence of draws. */
  lemma ShuffleBijective<T(!new)>(s: seq<T>, t: seq<T>)
    requires Distinct(s)
    ensures Permutation(s, t) <==> exists draws :: Draws(draws, |s|) && Shuffled(s, |s|, draws) == t
    ensures forall a, b | Draws(a, |s|) && Draws(b, |s|) && Shuffled(s, |s|, a) == t && Shuffled(s, |s|, b) == t ::
        a == b
  {
    if Permutation(s, t) {
      PermutationDistinct(s, t);
      var draws := DrawsReach(s, |s|, t);
    }
    forall draws | Draws(draws, |s|) && Shuffled(s, |s|, draws) == t
      ensures Permutation(s, t)
    {
      ShufflePermutes(s, |s|, draws);
    }
    forall a, b | Draws(a, |s|) && Draws(b, |s|) && Shuffled(s, |s|, a) == t && Shuffled(s, |s|, b) == t
      ensures a == b
    {
      ShuffleInjective(s, |s|, a, b);
    }
  }

  /** What lies behind the first `n` elements takes no part. */
  lemma {:induction false} ShuffleFront<T>(s: seq<T>, n: nat, draws: seq<nat>)
    requires n <= |s| && Draws(draws, n)
    ensures Shuffled(s, n, draws) == Shuffled(s[..n], n, draws) + s[n..]
    decreases n
  {
    hide Swap;
    if n > 1 {
      OtherDraws(draws, n);
      hide Draws;
      var a, b := Swap(s, n - 1, draws[0]), Swap(s[..n], n - 1, draws[0]);
      SwapFront(s, n, draws[0]);
      ShuffleFront(a, n - 1, draws[1..]);
      ShuffleFront(b, n - 1, draws[1..]);
      ShuffleStep(s, n, draws);
      ShuffleStep(s[..n], n, draws);
      hide *;
      ShareFront(Shuffled(a, n - 1, draws[1..]), Shuffled(b, n - 1, draws[1..]),
                 Shuffled(b[..n - 1], n - 1, draws[1..]), b[n - 1..], s[n..]);
    } else {
      assert s[..n] + s[n..] == s;
    }
  }

  lemma ShareFront<T>(a: seq<T>, b: seq<T>, front: seq<T>, back: seq<T>, more: seq<T>)
    requires a == front + (back + more) && b == front + back
    ensures a == b + more
  {
  }

  lemma OtherDraws(draws: seq<nat>, n: nat)
    requires Draws(draws, n) && n > 1
    ensures draws != [] && draws[0] < n && Draws(draws[1..], n - 1)
  {
  }

  lemma ShuffleStep<T>(s: seq<T>, n: nat, draws: seq<nat>)
    requires 1 < n <= |s| && Draws(draws, n)
    ensures draws[0] < n && Draws(draws[1..], n - 1)
    ensures Shuffled(s, n, draws) == Shuffled(Swap(s, n - 1, draws[0]), n - 1, draws[1..])
  {
    hide Swap;
  }

  lemma SwapFront<T>(s: seq<T>, n: nat, k: nat)
    requires 0 < n <= |s| && k < n
    ensures Swap(s, n - 1, k)[..n - 1] == Swap(s[..n], n - 1, k)[..n - 1]
    ensures Swap(s, n - 1, k)[n - 1..] == Swap(s[..n], n - 1, k)[n - 1..] + s[n..]
  {
  }

  lemma SwapLast<T>(s: seq<T>, k: nat)
    requires k < |s|
    ensures Swap(s, |s| - 1, k)[..|s| - 1] == s[k := s[|s| - 1]][..|s| - 1]
    ensures Swap(s, |s| - 1, k)[|s| - 1..] == [s[k]]
  {
  }

  /** Which elements the draws select: the first draw names the element that comes last, the last element
      takes its place, and the rest is shuffled by the other draws. */
  lemma ShuffleSelects<T>(s: seq<T>, draws: seq<nat>)
    requires Draws(draws, |s|)
    ensures |s| <= 1 ==> Shuffled(s, |s|, draws) == s
    ensures |s| > 1 ==>
      var n := |s| - 1;
      Draws(draws[1..], n)
      && Shuffled(s, |s|, draws) == Shuffled(s[draws[0] := s[n]][..n], n, draws[1..]) + [s[draws[0]]]
  {
    if |s| > 1 {
      var n := |s| - 1;
      var a := Swap(s, n, draws[0]);
      ShuffleFront(a, n, draws[1..]);
      SwapLast(s, draws[0]);
      hide Swap;
    }
  }

  /** The draws of a sample of `count` out of `total`: draw `i` is an offset below `total - i`. */
  predicate SampleDraws(draws: seq<nat>, total: nat) {
    |draws| <= total && forall i | 0 <= i < |draws| :: draws[i] < total - i
  }

  /** The working array after the first `n` draws. */
  function Sampled<T>(s: seq<T>, draws: seq<nat>, n: nat): (r: seq<T>)
    requires SampleDraws(draws, |s|) && n <= |draws|
    ensures |r| == |s|
  {
    if n == 0 then s else Swap(Sampled(s, draws, n - 1), n - 1, n - 1 + draws[n - 1])
  }

  /** The working array is always a permutation of the source. */
  lemma {:induction false} SamplePermutes<T>(s: seq<T>, draws: seq<nat>, n: nat)
    requires SampleDraws(draws, |s|) && n <= |draws|
    ensures Permutation(s, Sampled(s, draws, n))
  {
    if n != 0 {
      SamplePermutes(s, draws, n - 1);
      SwapPermutes(Sampled(s, draws, n - 1), n - 1, n - 1 + draws[n - 1]);
    }
  }

  /** What was sampled earlier stays. */
  lemma {:induction false} SampleStays<T>(s: seq<T>, draws: seq<nat>, i: nat, n: nat)
    requires SampleDraws(draws, |s|) && i < n <= |draws|
    ensures i + draws[i] < |s| && Sampled(s, draws, n)[i] == Sampled(s, draws, i)[i + draws[i]]
  {
    if i < n - 1 {
      SampleStays(s, draws, i, n - 1);
    }
  }

  /** The sample the draws make. */
  function Sample<T>(s: seq<T>, draws: seq<nat>): (r: seq<T>)
    requires SampleDraws(draws, |s|)
    ensures |r| == |draws|
  {
    Sampled(s, draws, |draws|)[..|draws|]
  }

  lemma SwapBehind<T>(h: T, s: seq<T>, i: nat, j: nat)
    requires i < |s| && j < |s|
    ensures Swap([h] + s, i + 1, j + 1) == [h] + Swap(s, i, j)
  {
  }

  /** The draws after the first are those of a sample of one element fewer. */
  lemma LaterDraws(draws: seq<nat>, total: nat)
    requires SampleDraws(draws, total) && draws != []
    ensures total > 0 && SampleDraws(draws[1..], total - 1) && draws[0] < total
  {
  }

  /** What the first draw takes, then the sampling of what it leaves. */
  predicate Behind<T(==)>(s: seq<T>, draws: seq<nat>, h: T, rest: seq<T>, later: seq<nat>, n: nat) {
    SampleDraws(draws, |s|) && SampleDraws(later, |rest|) && n < |draws| && n <= |later|
    && Sampled(s, draws, n + 1) == [h] + Sampled(rest, later, n)
  }

  lemma NextBehind<T>(s: seq<T>, draws: seq<nat>, h: T, rest: seq<T>, later: seq<nat>, n: nat)
    requires Behind(s, draws, h, rest, later, n) && n + 1 < |draws| && n < |later| && later[n] == draws[n + 1]
    requires |s| == |rest| + 1
    ensures Behind(s, draws, h, rest, later, n + 1)
  {
    SampleSteps(s, draws, n + 1);
    SampleSteps(rest, later, n);
    hide Sampled, Swap;
    var w := Sampled(rest, later, n);
    assert n + later[n] < |w|;
    SwapBehind(h, w, n, n + later[n]);
  }

  lemma {:induction false} SampledBehind<T>(s: seq<T>, draws: seq<nat>, n: nat)
    requires SampleDraws(draws, |s|) && n < |draws|
    ensures draws[0] < |s| && Behind(s, draws, s[draws[0]], s[draws[0] := s[0]][1..], draws[1..], n)
  {
    LaterDraws(draws, |s|);
    var h, rest, later := s[draws[0]], s[draws[0] := s[0]][1..], draws[1..];
    if n == 0 {
      SampleSteps(s, draws, 0);
      SampleSteps(rest, later, 0);
      hide Sampled, Swap;
      SwapFirst(s, draws[0]);
    } else {
      SampledBehind(s, draws, n - 1);
      hide *;
      NextBehind(s, draws, h, rest, later, n - 1);
    }
  }

  lemma SwapFirst<T>(s: seq<T>, k: nat)
    requires k < |s|
    ensures Swap(s, 0, k) == [s[k]] + s[k := s[0]][1..]
  {
  }

  /** Which elements the draws select: the first draw names the first one, the first element takes its
      place, and the rest is sampled by the other draws. */
  lemma SampleSelects<T>(s: seq<T>, draws: seq<nat>)
    requires SampleDraws(draws, |s|)
    ensures draws == [] ==> Sample(s, draws) == []
    ensures draws != [] ==>
      SampleDraws(draws[1..], |s| - 1) && draws[0] < |s|
      && Sample(s, draws) == [s[draws[0]]] + Sample(s[draws[0] := s[0]][1..], draws[1..])
  {
    if draws != [] {
      LaterDraws(draws, |s|);
      SampledBehind(s, draws, |draws| - 1);
      hide Sampled;
    }
  }

  lemma SamePosition<T>(s: seq<T>, i: nat, j: nat)
    requires Distinct(s) && i < |s| && j < |s| && s[i] == s[j]
    ensures i == j
  {
  }

  /** The draw at position `n` can be read off the finished sample. */
  lemma SampleShowsDraw<T>(s: seq<T>, a: seq<nat>, b: seq<nat>, n: nat)
    requires Distinct(s) && SampleDraws(a, |s|) && SampleDraws(b, |s|) && n < |a| == |b|
    requires Sampled(s, a, |a|)[n] == Sampled(s, b, |b|)[n] && Sampled(s, a, n) == Sampled(s, b, n)
    ensures a[n] == b[n]
  {
    hide Permutation, Distinct, Sampled;
    SampleStays(s, a, n, |a|);
    SampleStays(s, b, n, |b|);
    SamplePermutes(s, a, n);
    PermutationDistinct(s, Sampled(s, a, n));
    SamePosition(Sampled(s, a, n), n + a[n], n + b[n]);
  }

  lemma SameStep<T>(s: seq<T>, a: seq<nat>, b: seq<nat>, n: nat)
    requires SampleDraws(a, |s|) && SampleDraws(b, |s|) && n <= |a| == |b|
    requires n > 0 ==> Sampled(s, a, n - 1) == Sampled(s, b, n - 1) && a[n - 1] == b[n - 1]
    ensures Sampled(s, a, n) == Sampled(s, b, n)
  {
  }

  /** Different draws give different samples. */
  lemma {:induction false} SampleInjective<T>(s: seq<T>, a: seq<nat>, b: seq<nat>, n: nat)
    requires Distinct(s) && SampleDraws(a, |s|) && SampleDraws(b, |s|) && n <= |a| == |b|
    requires forall i | 0 <= i < n :: Sampled(s, a, |a|)[i] == Sampled(s, b, |b|)[i]
    ensures a[..n] == b[..n] && Sampled(s, a, n) == Sampled(s, b, n)
  {
    hide Distinct, Sampled;
    if n == 0 {
      SameStep(s, a, b, 0);
    } else {
      SampleInjective(s, a, b, n - 1);
      SampleShowsDraw(s, a, b, n - 1);
      SameStep(s, a, b, n);
      assert a[..n] == a[..n - 1] + [a[n - 1]] && b[..n] == b[..n - 1] + [b[n - 1]];
    }
  }

  /** A sample of `s`: the front of one of its permutations. */
  ghost predicate SampleOf<T(!new)>(s: seq<T>, t: seq<T>) {
    exists p: seq<T> :: Permutation(s, p) && t <= p
  }

  /** The draws that sample `t`. */
  predicate Draw<T(==)>(s: seq<T>, t: seq<T>, draws: seq<nat>) {
    SampleDraws(draws, |s|) && |draws| == |t| && Sampled(s, draws, |t|)[..|t|] == t
  }

  /** The first steps depend on the first draws alone. */
  lemma {:induction false} SampledSoFar<T>(s: seq<T>, a: seq<nat>, b: seq<nat>, n: nat)
    requires SampleDraws(a, |s|) && SampleDraws(b, |s|) && n <= |a| && n <= |b|
    requires forall i | 0 <= i < n :: a[i] == b[i]
    ensures Sampled(s, a, n) == Sampled(s, b, n)
  {
    hide Swap;
    if n != 0 {
      SampledSoFar(s, a, b, n - 1);
    }
  }

  /** The next element of a permutation is still among those not drawn. */
  lemma NotDrawnYet<T>(s: seq<T>, w: seq<T>, p: seq<T>, n: nat) returns (k: nat)
    requires Permutation(s, w) && Permutation(s, p) && n < |w| == |p| && w[..n] == p[..n]
    ensures n <= k < |w| && w[k] == p[n]
  {
    assert w == w[..n] + w[n..] && p == p[..n] + p[n..];
    assert multiset(w[n..]) == multiset(w) - multiset(w[..n]);
    assert multiset(p[n..]) == multiset(p) - multiset(p[..n]);
    assert p[n..][0] in multiset(p[n..]);
    assert p[n] in w[n..];
    var i: nat :| i < |w[n..]| && w[n..][i] == p[n];
    k := n + i;
  }

  /** These draws put the first elements of `p` in front. */
  predicate Leads<T(==)>(s: seq<T>, p: seq<T>, draws: seq<nat>)
    requires |p| == |s|
  {
    SampleDraws(draws, |s|) && Sampled(s, draws, |draws|)[..|draws|] == p[..|draws|]
  }

  lemma NoDraws<T>(s: seq<T>, p: seq<T>)
    requires |p| == |s|
    ensures Leads(s, p, [])
  {
  }

  /** One more draw, for the next element. */
  lemma NextDraw<T>(s: seq<T>, p: seq<T>, before: seq<nat>) returns (draws: seq<nat>)
    requires |p| == |s| && Permutation(s, p) && |before| < |s| && Leads(s, p, before)
    ensures |draws| == |before| + 1 && Leads(s, p, draws)
  {
    hide Permutation;
    var n := |before|;
    SamplePermutes(s, before, n);
    var k := NotDrawnYet(s, Sampled(s, before, n), p, n);
    draws := MoreDraws(before, k - n, |s|);
    DrawnNext(s, p, before, draws, n);
  }

  lemma MoreDraws(before: seq<nat>, draw: nat, total: nat) returns (draws: seq<nat>)
    requires SampleDraws(before, total) && |before| + draw < total
    ensures SampleDraws(draws, total) && |draws| == |before| + 1 && draws[|before|] == draw
    ensures forall i | 0 <= i < |before| :: before[i] == draws[i]
  {
    draws := before + [draw];
  }

  lemma DrawnNext<T>(s: seq<T>, p: seq<T>, before: seq<nat>, draws: seq<nat>, n: nat)
    requires SampleDraws(before, |s|) && SampleDraws(draws, |s|) && |before| == n && |draws| == n + 1 && |s| == |p|
    requires (forall i | 0 <= i < n :: before[i] == draws[i]) && n + draws[n] < |s|
    requires Sampled(s, before, n)[..n] == p[..n] && Sampled(s, before, n)[n + draws[n]] == p[n]
    ensures Leads(s, p, draws)
  {
    LastDraw(s, before, draws, n);
    FrontGrows(Sampled(s, before, n), p, n, n + draws[n]);
    hide Sampled, Swap, SampleDraws;
  }

  lemma SampleSteps<T>(s: seq<T>, draws: seq<nat>, n: nat)
    requires SampleDraws(draws, |s|) && n <= |draws|
    ensures Sampled(s, draws, 0) == s
    ensures n < |draws| ==> Sampled(s, draws, n + 1) == Swap(Sampled(s, draws, n), n, n + draws[n])
  {
    hide Swap;
  }

  lemma LastDraw<T>(s: seq<T>, before: seq<nat>, draws: seq<nat>, n: nat)
    requires SampleDraws(before, |s|) && SampleDraws(draws, |s|) && |before| == n && |draws| == n + 1
    requires forall i | 0 <= i < n :: before[i] == draws[i]
    ensures Sampled(s, draws, n + 1) == Swap(Sampled(s, before, n), n, n + draws[n])
  {
    SampledSoFar(s, before, draws, n);
    SampleSteps(s, draws, n);
  }

  lemma FrontGrows<T>(w: seq<T>, p: seq<T>, n: nat, k: nat)
    requires n <= k < |w| == |p| && w[..n] == p[..n] && w[k] == p[n]
    ensures Swap(w, n, k)[..n + 1] == p[..n + 1]
  {
    var r := Swap(w, n, k);
    forall i: nat | i < n
      ensures r[i] == p[i]
    {
      assert w[..n][i] == p[..n][i];
    }
  }

  /** The draws that lead to the first `n` elements of a permutation. */
  lemma {:induction false} SampleReach<T>(s: seq<T>, p: seq<T>, n: nat) returns (draws: seq<nat>)
    requires Permutation(s, p) && n <= |s| == |p|
    ensures |draws| == n && Leads(s, p, draws)
  {
    hide *;
    if n == 0 {
      draws := [];
      NoDraws(s, p);
    } else {
      var before := SampleReach(s, p, n - 1);
      draws := NextDraw(s, p, before);
    }
  }

  lemma PermutationLength<T>(s: seq<T>, p: seq<T>)
    requires Permutation(s, p)
    ensures |p| == |s|
  {
    assert |multiset(s)| == |s| && |multiset(p)| == |p|;
  }

  /** Every sample of distinct elements comes from exactly one sequence of draws. */
  lemma SampleBijective<T(!new)>(s: seq<T>, t: seq<T>)
    requires Distinct(s)
    ensures SampleOf(s, t) <==> exists draws :: Draw(s, t, draws)
    ensures forall a, b | Draw(s, t, a) && Draw(s, t, b) :: a == b
  {
    if SampleOf(s, t) {
      var p: seq<T> :| Permutation(s, p) && t <= p;
      PermutationLength(s, p);
      var draws := SampleReach(s, p, |t|);
      assert Draw(s, t, draws);
    }
    forall draws | Draw(s, t, draws)
      ensures SampleOf(s, t)
    {
      SamplePermutes(s, draws, |t|);
      assert t <= Sampled(s, draws, |t|);
    }
    forall a, b | Draw(s, t, a) && Draw(s, t, b)
      ensures a == b
    {
      DrawsAgree(s, t, a, b);
    }
  }

  lemma DrawsAgree<T>(s: seq<T>, t: seq<T>, a: seq<nat>, b: seq<nat>)
    requires Distinct(s) && Draw(s, t, a) && Draw(s, t, b)
    ensures a == b
  {
    hide Distinct, Sampled;
    forall i | 0 <= i < |t|
      ensures Sampled(s, a, |a|)[i] == Sampled(s, b, |b|)[i]
    {
      assert Sampled(s, a, |a|)[..|t|][i] == t[i] && Sampled(s, b, |b|)[..|t|][i] == t[i];
    }
    SampleInjective(s, a, b, |t|);
    assert a[..|t|] == a && b[..|t|] == b;
  }

  /** The copy both methods work on. */
  method CopyOf(source: array<int>) returns (data: array<int>)
    ensures fresh(data) && data.Length == source.Length && data[..] == source[..]
  {
    data := new int[source.Length];
    for i := 0 to source.Length
      invariant data[..i] == source[..i]
    {
      data[i] := source[i];
    }
    assert data[..] == source[..];
  }

  method SwapInPlace(work: array<int>, i: nat, j: nat)
    requires i < work.Length && j < work.Length
    modifies work
    ensures work[..] == Swap(old(work[..]), i, j)
  {
    ghost var before := work[..];
    work[i], work[j] := work[j], work[i];
    assert work[..] == Swap(before, i, j);
  }

  /** `Random.Shuffle`: a new array, shuffled in place by the given draws. */
  method ShuffleArray(source: array<int>, draws: seq<nat>) returns (data: array<int>)
    requires Draws(draws, source.Length)
    ensures fresh(data) && data[..] == Shuffled(source[..], source.Length, draws)
    ensures source[..] == old(source[..])
  {
    var count := source.Length;
    data := CopyOf(source);
    var remaining: nat, used: nat := count, 0;
    while remaining > 1
      invariant remaining <= count && (count > 0 ==> remaining > 0)
      invariant used == count - remaining && Draws(draws[used..], remaining)
      invariant Shuffled(source[..], count, draws) == Shuffled(data[..], remaining, draws[used..])
    {
      var selected := draws[used];
      assert draws[used..][0] == selected && draws[used..][1..] == draws[used + 1..];
      SwapInPlace(data, remaining - 1, selected);
      remaining, used := remaining - 1, used + 1;
    }
  }

  /** `Random.Sample`: a partial shuffle from the front, cut to the sample size. */
  method SampleArray(source: array<int>, draws: seq<nat>) returns (data: array<int>)
    requires SampleDraws(draws, source.Length)
    ensures fresh(data) && data[..] == Sampled(source[..], draws, |draws|)[..|draws|]
    ensures source[..] == old(source[..])
  {
    var work := CopyOf(source);
    SampleSteps(source[..], draws, 0);
    hide Sampled;
    for i := 0 to |draws|
      invariant work[..] == Sampled(source[..], draws, i)
    {
      var selected := i + draws[i];
      SampleSteps(source[..], draws, i);
      SwapInPlace(work, i, selected);
    }
    data := new int[|draws|];
    for i := 0 to |draws|
      invariant work[..] == Sampled(source[..], draws, |draws|)
      invariant forall j | 0 <= j < i :: data[j] == work[j]
    {
      data[i] := work[i];
    }
    assert data[..] == work[..][..|draws|];
  }
}
