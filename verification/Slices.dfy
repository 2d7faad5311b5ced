/** Slices and ranges: bounds normalised against a length, a stepping loop, and the arithmetic of
    range values. */
module Slices {
  import opened ArcTypes
  import opened Arithmetic

  const MAX_LENGTH: int := 0x7fff_ffff_ffff_ffff

  datatype SliceError = ZeroStep | CollectionTooLarge
  datatype Sliced<+T> = Good(value: T) | Bad(why: SliceError)

  datatype Slice = Slice(start: int, end: int, step: int)

  function Max(a: int, b: int): int { if a < b then b else a }
  function Min(a: int, b: int): int { if b < a then b else a }

  /** A bound of a forward slice: a negative one counts from the end. */
  function BoundUp(length: int, value: int): int {
    var v := if value < 0 then Max(-length, value) + length else value;
    Max(0, Min(length, v))
  }

  /** A bound of a backward slice; -1 stands before the first element. */
  function BoundDown(length: int, value: int): int {
    var v := if value < 0 then value + length else value;
    Max(-1, Min(length - 1, v))
  }

  function NormalizeSlice(size: nat, start: Option<int>, end: Option<int>, step: int): Sliced<Slice> {
    if step == 0 then Bad(ZeroStep)
    else if size > MAX_LENGTH then Bad(CollectionTooLarge)
    else if step > 0 then
      Good(Slice(if start.Some? then BoundUp(size, start.value) else 0,
                 if end.Some? then BoundUp(size, end.value) else size,
                 step))
    else
      Good(Slice(if start.Some? then BoundDown(size, start.value) else size - 1,
                 if end.Some? then BoundDown(size, end.value) else -1,
                 step))
  }

  // ---- Ranges -----------------------------------------------------------------------------------------

  /** Division and remainder as the source's language defines them: truncating toward zero. */
  function TruncatedRemainder(a: int, b: int): int
    requires b != 0
  {
    var m := if b < 0 then -b else b;
    if a >= 0 then a % m else -((-a) % m)
  }

  function RangeLength(start: int, stop: int, step: int): nat
    requires step != 0
  {
    if step > 0 && start >= stop then 0
    else if step < 0 && start <= stop then 0
    else
      var distance := if step > 0 then stop - start else start - stop;
      var stride := if step > 0 then step else -step;
      (distance + stride - 1) / stride
  }

  datatype Range = Range(start: int, stop: int, step: int, length: nat)

  predicate Contains(r: Range, value: int)
    requires r.step != 0
  {
    if r.length == 0 then false
    else if r.step > 0 && (value < r.start || value >= r.stop) then false
    else if r.step < 0 && (value > r.start || value <= r.stop) then false
    else TruncatedRemainder(value - r.start, r.step) == 0
  }

  function At(r: Range, index: nat): Option<int> {
    if index >= r.length then None else Some(r.start + index * r.step)
  }

  /** A range as the program builds it. */
  predicate Built(r: Range) {
    r.step != 0 && r.length == RangeLength(r.start, r.stop, r.step)
  }

  /** Positions still before the end, going in the direction of the step. */
  predicate Continues(i: int, end: int, step: int) {
    if step > 0 then i < end else i > end
  }

  lemma CeilingDivides(d: nat, m: nat, k: nat)
    requires d > 0 && m > 0
    ensures k < (d + m - 1) / m <==> m * k < d
  {
    var q := (d + m - 1) / m;
    assert d + m - 1 == m * q + (d + m - 1) % m;
    if k < q {
      MulMonotone(m, k + 1, q);
    } else {
      MulMonotone(m, q, k);
    }
  }

  /** The length counts exactly the positions that lie before the end. */
  lemma LengthCounts(start: int, stop: int, step: int, k: nat)
    requires step != 0
    ensures k < RangeLength(start, stop, step) <==> Continues(start + k * step, stop, step)
  {
    var m := Stride(step);
    StrideSteps(k, step);
    MulMonotone(m, 0, k);
    if step > 0 && start < stop {
      CeilingDivides(stop - start, m, k);
    } else if step < 0 && start > stop {
      CeilingDivides(start - stop, m, k);
    }
  }

  /** A position has a value exactly when that value lies before the end. */
  lemma AtIff(r: Range, k: nat, value: int)
    requires Built(r)
    ensures At(r, k) == Some(value) <==> value == r.start + k * r.step && Continues(value, r.stop, r.step)
  {
    LengthCounts(r.start, r.stop, r.step, k);
  }

  function Stride(step: int): nat { if step > 0 then step else -step }

  lemma StrideSteps(k: nat, step: int)
    ensures k * step == if step > 0 then Stride(step) * k else -(Stride(step) * k)
  {
  }

  /** `contains` answers whether some position holds the value. */
  lemma ContainsIff(r: Range, value: int)
    requires Built(r)
    ensures Contains(r, value) <==> exists k: nat :: k < r.length && At(r, k) == Some(value)
  {
    if Contains(r, value) {
      var k := ContainedAt(r, value);
      assert At(r, k) == Some(value);
    }
    forall k: nat | k < r.length && At(r, k) == Some(value)
      ensures Contains(r, value)
    {
      AtContained(r, k);
    }
  }

  lemma ContainedAt(r: Range, value: int) returns (k: nat)
    requires Built(r) && Contains(r, value)
    ensures k < r.length && r.start + k * r.step == value
  {
    var m := Stride(r.step);
    var away := if r.step > 0 then value - r.start else r.start - value;
    k := away / m;
    assert away == m * k + away % m;
    StrideSteps(k, r.step);
    LengthCounts(r.start, r.stop, r.step, k);
  }

  lemma AtContained(r: Range, k: nat)
    requires Built(r) && k < r.length
    ensures Contains(r, r.start + k * r.step)
  {
    var m := Stride(r.step);
    LengthCounts(r.start, r.stop, r.step, k);
    StrideSteps(k, r.step);
    MulMonotone(m, 0, k);
    DivisionUnique(m * k, m, k, 0);
  }

  // ---- The positions a slice visits ---------------------------------------------------------------------

  /** The positions the slicing loop visits from `i` on. */
  function Visits(i: int, end: int, step: int): seq<int>
    requires step != 0
    decreases if step > 0 then end - i else i - end
  {
    if Continues(i, end, step) then [i] + Visits(i + step, end, step) else []
  }

  lemma {:induction false} VisitsFrom(i: int, end: int, step: int)
    requires step != 0
    ensures |Visits(i, end, step)| == RangeLength(i, end, step)
    ensures forall k: nat | k < |Visits(i, end, step)| :: Visits(i, end, step)[k] == i + k * step
    decreases if step > 0 then end - i else i - end
  {
    var v := Visits(i, end, step);
    if Continues(i, end, step) {
      VisitsFrom(i + step, end, step);
      forall k: nat | k < |v|
        ensures v[k] == i + k * step
      {
        if k > 0 {
          assert v[k] == Visits(i + step, end, step)[k - 1];
          assert (k - 1) * step == k * step - step;
        }
      }
      LengthStep(i, end, step);
    }
  }

  lemma LengthStep(i: int, end: int, step: int)
    requires step != 0 && Continues(i, end, step)
    ensures RangeLength(i, end, step) == RangeLength(i + step, end, step) + 1
  {
    var n := RangeLength(i + step, end, step);
    LengthCounts(i, end, step, 0);
    assert (n + 1) * step == n * step + step;
    LengthCounts(i, end, step, n + 1);
    LengthCounts(i + step, end, step, n);
    if n > 0 {
      assert (n - 1) * step + step == n * step;
      LengthCounts(i + step, end, step, n - 1);
    }
    LengthCounts(i, end, step, n);
  }

  /** Whatever the bounds and the step: every visited position exists, there are as many as the range
      of the normalised bounds is long, and they are that range's values in order. */
  lemma SliceVisits(size: nat, start: Option<int>, end: Option<int>, step: int)
    requires step != 0 && size <= MAX_LENGTH
    ensures NormalizeSlice(size, start, end, step).Good?
    ensures (var s := NormalizeSlice(size, start, end, step).value;
             && |Visits(s.start, s.end, s.step)| == RangeLength(s.start, s.end, s.step)
             && (forall k: nat | k < |Visits(s.start, s.end, s.step)| ::
                   && Visits(s.start, s.end, s.step)[k] == s.start + k * s.step
                   && 0 <= Visits(s.start, s.end, s.step)[k] < size))
  {
    var s := NormalizeSlice(size, start, end, step).value;
    VisitsFrom(s.start, s.end, s.step);
    forall k: nat | k < |Visits(s.start, s.end, s.step)|
      ensures 0 <= s.start + k * s.step < size
    {
      LengthCounts(s.start, s.end, s.step, k);
      StrideSteps(k, step);
      MulMonotone(Stride(step), 0, k);
    }
  }

  /** The elements at the visited positions, in order. */
  function Picked<T>(s: seq<T>, visits: seq<int>): (r: seq<T>)
    requires forall k: nat | k < |visits| :: 0 <= visits[k] < |s|
    ensures |r| == |visits| && forall k: nat | k < |r| :: r[k] == s[visits[k]]
  {
    seq(|visits|, k requires 0 <= k < |visits| => s[visits[k]])
  }

  function SliceOf<T>(s: seq<T>, start: Option<int>, end: Option<int>, step: int): Sliced<seq<T>> {
    match NormalizeSlice(|s|, start, end, step)
    case Bad(why) => Bad(why)
    case Good(n) =>
      SliceVisits(|s|, start, end, step);
      Good(Picked(s, Visits(n.start, n.end, n.step)))
  }

  /** The loop of a slice with normalised bounds. */
  method PickLoop<T>(s: seq<T>, slice: Slice) returns (output: seq<T>)
    requires slice.step != 0
    requires forall k: nat | k < |Visits(slice.start, slice.end, slice.step)| ::
               0 <= Visits(slice.start, slice.end, slice.step)[k] < |s|
    ensures output == Picked(s, Visits(slice.start, slice.end, slice.step))
  {
    ghost var all := Visits(slice.start, slice.end, slice.step);
    output := [];
    var i := slice.start;
    while Continues(i, slice.end, slice.step)
      invariant |output| <= |all| && all[|output|..] == Visits(i, slice.end, slice.step)
      invariant forall k: nat | k < |output| :: output[k] == s[all[k]]
      decreases if slice.step > 0 then slice.end - i else i - slice.end
    {
      ghost var rest := Visits(i, slice.end, slice.step);
      assert rest == [i] + Visits(i + slice.step, slice.end, slice.step);
      assert all[|output|] == all[|output|..][0] == rest[0] == i;
      assert all[|output| + 1..] == all[|output|..][1..];
      output := output + [s[i]];
      i := i + slice.step;
    }
  }

  /** The slicing of arrays, tuples, code points and bits alike. */
  method SliceValue<T>(s: seq<T>, start: Option<int>, end: Option<int>, step: int) returns (r: Sliced<seq<T>>)
    ensures r == SliceOf(s, start, end, step)
  {
    var n := NormalizeSlice(|s|, start, end, step);
    if n.Bad? {
      return Bad(n.why);
    }
    SliceVisits(|s|, start, end, step);
    var output := PickLoop(s, n.value);
    r := Good(output);
  }

  // ---- Slices of step one ---------------------------------------------------------------------------------

  lemma {:induction false} VisitsByOne(i: int, end: int)
    requires i <= end
    ensures |Visits(i, end, 1)| == end - i
    ensures forall k: nat | k < end - i :: Visits(i, end, 1)[k] == i + k
    decreases end - i
  {
    if i < end {
      VisitsByOne(i + 1, end);
    }
  }

  /** A slice of step one is the contiguous part between its bounds, empty when they cross. */
  lemma SliceIsPart<T>(s: seq<T>, start: Option<int>, end: Option<int>)
    requires |s| <= MAX_LENGTH
    ensures NormalizeSlice(|s|, start, end, 1).Good?
    ensures (var n := NormalizeSlice(|s|, start, end, 1).value;
             && 0 <= n.start <= |s| && 0 <= n.end <= |s|
             && SliceOf(s, start, end, 1) == Good(if n.start <= n.end then s[n.start..n.end] else []))
  {
    var n := NormalizeSlice(|s|, start, end, 1).value;
    SliceVisits(|s|, start, end, 1);
    if n.start <= n.end {
      VisitsByOne(n.start, n.end);
      assert Picked(s, Visits(n.start, n.end, 1)) == s[n.start..n.end];
    }
  }

  /** Cutting anywhere, also at a negative or an absent-element bound, loses nothing. */
  lemma SliceSplits<T>(s: seq<T>, k: int)
    requires |s| <= MAX_LENGTH
    ensures SliceOf(s, None, Some(k), 1).Good? && SliceOf(s, Some(k), None, 1).Good?
    ensures SliceOf(s, None, Some(k), 1).value + SliceOf(s, Some(k), None, 1).value == s
  {
    SliceIsPart(s, None, Some(k));
    SliceIsPart(s, Some(k), None);
    SameCut(|s|, k);
    hide SliceOf, NormalizeSlice;
    var at := NormalizeSlice(|s|, None, Some(k), 1).value.end;
    assert s[..at] + s[at..] == s;
  }

  lemma SameCut(size: nat, k: int)
    requires size <= MAX_LENGTH
    ensures (var head := NormalizeSlice(size, None, Some(k), 1).value;
             var tail := NormalizeSlice(size, Some(k), None, 1).value;
             head.start == 0 && tail.end == size && head.end == tail.start)
  {
  }

  lemma {:induction false} VisitsDown(i: int)
    requires i >= -1
    ensures |Visits(i, -1, -1)| == i + 1
    ensures forall k: nat | k <= i :: Visits(i, -1, -1)[k] == i - k
    decreases i + 1
  {
    if i >= 0 {
      VisitsDown(i - 1);
    }
  }

  /** The slice of step -1 without bounds reverses, so taking it twice gives the value back. */
  lemma ReverseTwice<T>(s: seq<T>)
    requires |s| <= MAX_LENGTH
    ensures SliceOf(s, None, None, -1).Good?
    ensures SliceOf(SliceOf(s, None, None, -1).value, None, None, -1) == Good(s)
  {
    SliceVisits(|s|, None, None, -1);
    VisitsDown(|s| - 1);
    var r := SliceOf(s, None, None, -1).value;
    assert |r| == |s|;
    SliceVisits(|r|, None, None, -1);
    assert Picked(r, Visits(|s| - 1, -1, -1)) == s;
  }

  // ---- Which elements -------------------------------------------------------------------------------------

  /** The cut a bound of a forward slice makes in `n` elements. */
  function CutAt(n: nat, bound: int): (cut: int)
    ensures 0 <= cut <= n
  {
    if n + bound < 0 then 0
    else if bound < 0 then n + bound
    else if bound <= n then bound
    else n
  }

  /** The position a bound of a backward slice names, -1 before the first element. */
  function PositionAt(n: nat, bound: int): (position: int)
    ensures -1 <= position < n
  {
    if n + bound < 0 then -1
    else if bound < 0 then n + bound
    else if bound < n then bound
    else n - 1
  }

  /** Where a slice starts and, exclusively, ends. */
  function First(n: nat, start: Option<int>, step: int): int {
    if step > 0 then (if start.None? then 0 else CutAt(n, start.value))
    else (if start.None? then n - 1 else PositionAt(n, start.value))
  }

  function Past(n: nat, end: Option<int>, step: int): int {
    if step > 0 then (if end.None? then n else CutAt(n, end.value))
    else (if end.None? then -1 else PositionAt(n, end.value))
  }

  /** Exactly which elements a slice has, in which order, and when there is none: from the first one in
      steps, as long as they are before the end. */
  lemma SliceElements<T>(s: seq<T>, start: Option<int>, end: Option<int>, step: int)
    ensures match SliceOf(s, start, end, step)
      case Bad(ZeroStep) => step == 0
      case Bad(CollectionTooLarge) => step != 0 && |s| > 0x7fff_ffff_ffff_ffff
      case Good(r) =>
        && step != 0 && |s| <= 0x7fff_ffff_ffff_ffff
        && (forall k: nat ::
              k < |r| <==> (if step > 0 then First(|s|, start, step) + k * step < Past(|s|, end, step)
                            else First(|s|, start, step) + k * step > Past(|s|, end, step)))
        && (forall k: nat | k < |r| ::
              0 <= First(|s|, start, step) + k * step < |s| && r[k] == s[First(|s|, start, step) + k * step])
  {
    if step != 0 && |s| <= MAX_LENGTH {
      BoundsAre(|s|, start, end, step);
      SliceVisits(|s|, start, end, step);
      var first, past := First(|s|, start, step), Past(|s|, end, step);
      hide First, Past, NormalizeSlice;
      forall k: nat
        ensures k < RangeLength(first, past, step) <==>
                if step > 0 then first + k * step < past else first + k * step > past
      {
        LengthCounts(first, past, step, k);
      }
      hide RangeLength;
    }
  }

  lemma BoundsAre(n: nat, start: Option<int>, end: Option<int>, step: int)
    requires step != 0 && n <= MAX_LENGTH
    ensures NormalizeSlice(n, start, end, step) == Good(Slice(First(n, start, step), Past(n, end, step), step))
  {
  }

  /** The elements before a cut, from a cut on, and between two cuts. */
  lemma SliceParts<T>(s: seq<T>, a: int, b: int)
    requires |s| <= MAX_LENGTH
    ensures SliceOf(s, None, Some(b), 1) == Good(s[..CutAt(|s|, b)])
    ensures SliceOf(s, Some(a), None, 1) == Good(s[CutAt(|s|, a)..])
    ensures SliceOf(s, Some(a), Some(b), 1)
            == Good(if CutAt(|s|, a) <= CutAt(|s|, b) then s[CutAt(|s|, a)..CutAt(|s|, b)] else [])
  {
    SliceIsPart(s, None, Some(b));
    SliceIsPart(s, Some(a), None);
    SliceIsPart(s, Some(a), Some(b));
    BoundsAre(|s|, None, Some(b), 1);
    BoundsAre(|s|, Some(a), None, 1);
    BoundsAre(|s|, Some(a), Some(b), 1);
    hide SliceOf, NormalizeSlice;
    assert s[CutAt(|s|, a)..|s|] == s[CutAt(|s|, a)..];
  }

  /** The same, spelled out for bounds inside, before and behind the value. */
  lemma SliceBounds<T>(s: seq<T>, k: int)
    requires |s| <= MAX_LENGTH
    ensures 0 <= k <= |s| ==>
              SliceOf(s, None, Some(k), 1) == Good(s[..k]) && SliceOf(s, Some(k), None, 1) == Good(s[k..])
    ensures -|s| <= k < 0 ==>
      SliceOf(s, None, Some(k), 1) == Good(s[..|s| + k]) && SliceOf(s, Some(k), None, 1) == Good(s[|s| + k..])
    ensures k < -|s| ==> SliceOf(s, None, Some(k), 1) == Good([]) && SliceOf(s, Some(k), None, 1) == Good(s)
    ensures k > |s| ==> SliceOf(s, None, Some(k), 1) == Good(s) && SliceOf(s, Some(k), None, 1) == Good([])
  {
    SliceParts(s, k, k);
    hide SliceOf;
    assert s[..|s|] == s && s[..0] == [] && s[|s|..] == [] && s[0..] == s;
  }

  // ---- Replacing a slice ------------------------------------------------------------------------------------

  /** The array after `a[start:end] = replacement`. */
  function Replaced<T>(s: seq<T>, start: Option<int>, end: Option<int>, replacement: seq<T>): Sliced<seq<T>> {
    match NormalizeSlice(|s|, start, end, 1)
    case Bad(why) => Bad(why)
    case Good(n) =>
      SliceIsPart(s, start, end);
      Good(s[..n.start] + replacement + s[Max(n.start, n.end)..])
  }

  /** What an assignment to a slice leaves: the elements before the first cut, the new ones, and those
      from the second cut on, or from the first if the cuts cross. */
  lemma ReplacedParts<T>(s: seq<T>, start: Option<int>, end: Option<int>, replacement: seq<T>)
    ensures match Replaced(s, start, end, replacement)
      case Bad(why) => why == CollectionTooLarge && |s| > 0x7fff_ffff_ffff_ffff
      case Good(t) =>
        var first := if start.None? then 0 else CutAt(|s|, start.value);
        var past := if end.None? then |s| else CutAt(|s|, end.value);
        && |s| <= 0x7fff_ffff_ffff_ffff
        && t == s[..first] + replacement + s[if past < first then first else past..]
  {
    if |s| <= MAX_LENGTH {
      BoundsAre(|s|, start, end, 1);
    }
  }

  /** A shared array, edited in place. */
  class SharedArray<T(0)> {
    var items: seq<T>

    constructor (s: seq<T>)
      ensures items == s
    {
      items := s;
    }

    method Erase(first: nat, last: nat)
      requires first <= last <= |items|
      modifies this
      ensures items == old(items[..first] + items[last..])
    {
      items := items[..first] + items[last..];
    }

    method Insert(at: nat, more: seq<T>)
      requires at <= |items|
      modifies this
      ensures items == old(items[..at]) + more + old(items[at..])
    {
      items := items[..at] + more + items[at..];
    }

    method ReplaceSlice(start: Option<int>, end: Option<int>, replacement: seq<T>) returns (error: Option<SliceError>)
      modifies this
      ensures (match Replaced(old(items), start, end, replacement)
               case Good(s) => error == None && items == s
               case Bad(why) => error == Some(why) && items == old(items))
    {
      var n := NormalizeSlice(|items|, start, end, 1);
      if n.Bad? {
        return Some(n.why);
      }
      SliceIsPart(items, start, end);
      var first, last := n.value.start, n.value.end;
      if last < first {
        last := first;
      }
      ghost var before := items;
      Erase(first, last);
      Insert(first, replacement);
      assert (before[..first] + before[last..])[..first] == before[..first];
      assert (before[..first] + before[last..])[first..] == before[last..];
      error := None;
    }
  }

  /** Writing a slice back over itself changes nothing. */
  lemma ReplaceOwnSlice<T>(s: seq<T>, start: Option<int>, end: Option<int>)
    requires |s| <= MAX_LENGTH
    ensures SliceOf(s, start, end, 1).Good?
    ensures Replaced(s, start, end, SliceOf(s, start, end, 1).value) == Good(s)
  {
    SliceIsPart(s, start, end);
    hide SliceOf, NormalizeSlice;
    var n := NormalizeSlice(|s|, start, end, 1).value;
    PutBack(s, n.start, Max(n.start, n.end));
  }

  lemma PutBack<T>(s: seq<T>, first: nat, last: nat)
    requires first <= last <= |s|
    ensures s[..first] + s[first..last] + s[last..] == s && s[first..first] == []
  {
  }

  /** What was written is what the slice at the same start then reads, and the elements around it keep
      their values and order. */
  lemma ReplaceThenSlice<T>(s: seq<T>, start: Option<int>, end: Option<int>, replacement: seq<T>)
    requires |s| + |replacement| <= MAX_LENGTH
    ensures Replaced(s, start, end, replacement).Good?
    ensures (var n := NormalizeSlice(|s|, start, end, 1).value;
             var t := Replaced(s, start, end, replacement).value;
             && SliceOf(t, Some(n.start), Some(n.start + |replacement|), 1) == Good(replacement)
             && SliceOf(t, None, Some(n.start), 1) == SliceOf(s, None, Some(n.start), 1)
             && SliceOf(t, Some(n.start + |replacement|), None, 1) == SliceOf(s, Some(Max(n.start, n.end)), None, 1))
  {
    var n := NormalizeSlice(|s|, start, end, 1).value;
    SliceIsPart(s, start, end);
    hide SliceOf, NormalizeSlice;
    SplicedSlices(s, Replaced(s, start, end, replacement).value, n.start, Max(n.start, n.end), replacement);
  }

  lemma SplicedSlices<T>(s: seq<T>, t: seq<T>, first: nat, last: nat, middle: seq<T>)
    requires first <= last <= |s| && |s| + |middle| <= MAX_LENGTH && t == s[..first] + middle + s[last..]
    ensures SliceOf(t, Some(first), Some(first + |middle|), 1) == Good(middle)
    ensures SliceOf(t, None, Some(first), 1) == SliceOf(s, None, Some(first), 1)
    ensures SliceOf(t, Some(first + |middle|), None, 1) == SliceOf(s, Some(last), None, 1)
  {
    hide SliceOf;
    SplicedParts(s, first, last, middle);
    PartBetween(t, first, first + |middle|);
    PartBetween(t, 0, first);
    PartBetween(s, 0, first);
    PartBetween(t, first + |middle|, |t|);
    PartBetween(s, last, |s|);
  }

  lemma SplicedParts<T>(s: seq<T>, first: nat, last: nat, middle: seq<T>)
    requires first <= last <= |s|
    ensures (var t := s[..first] + middle + s[last..];
             && |t| == first + |middle| + |s| - last
             && t[first..first + |middle|] == middle
             && t[0..first] == s[0..first]
             && t[first + |middle|..|t|] == s[last..|s|])
  {
  }

  /** Bounds inside the value stand as they are. */
  lemma PartBetween<T>(s: seq<T>, first: nat, last: nat)
    requires first <= last <= |s| <= MAX_LENGTH
    ensures SliceOf(s, Some(first), Some(last), 1) == Good(s[first..last])
    ensures first == 0 ==> SliceOf(s, None, Some(last), 1) == Good(s[first..last])
    ensures last == |s| ==> SliceOf(s, Some(first), None, 1) == Good(s[first..last])
  {
    SliceIsPart(s, Some(first), Some(last));
    SliceIsPart(s, None, Some(last));
    SliceIsPart(s, Some(first), None);
  }
}
