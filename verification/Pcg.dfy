/** The PCG32 generator and its rejection sampler. */
module Pcg {
  import opened Arithmetic

  const WORD: nat := 0x1_0000_0000

  // ---- The generator ------------------------------------------------------------------------------

  const MULTIPLIER: nat := 6364136223846793005
  const LONG: nat := 0x1_0000_0000_0000_0000

  /** A 64-bit state. */
  type u64 = x: int | 0 <= x < LONG

  function RotateRight(value: bv32, rotation: bv32): bv32 {
    var r := rotation & 31;
    (value >> (r as bv6)) | (value << (((0 - r) & 31) as bv6))
  }

  /** The state after one step, in 64-bit arithmetic. */
  function Advance(state: u64, increment: u64): u64 {
    (state * MULTIPLIER + increment) % LONG
  }

  /** The word a step produces from the state before it. */
  function Output(state: u64): (word: nat)
    ensures word < WORD
  {
    OutputBits(state as bv64)
  }

  function Scrambled(bits: bv64): bv32 {
    ((((bits >> 18) ^ bits) >> 27) & 0xFFFF_FFFF) as bv32
  }

  function Rotation(bits: bv64): bv32 {
    (bits >> 59) as bv32
  }

  function OutputBits(bits: bv64): (word: nat)
    ensures word < WORD
  {
    RotateRight(Scrambled(bits), Rotation(bits)) as nat
  }

  /** The increment for a stream: twice the sequence number, plus one, in 64-bit arithmetic. */
  function Increment(sequence: u64): u64 {
    (2 * sequence) % LONG + 1
  }

  /** The increment is odd: twice the number without its highest bit, plus one. */
  lemma IncrementOdd(sequence: u64)
    ensures Increment(sequence) % 2 == 1
    ensures Increment(sequence) == 2 * (if sequence < 0x8000_0000_0000_0000 then sequence as int
                                        else sequence - 0x8000_0000_0000_0000) + 1
  {
  }

  /** The state after `n` steps. */
  function After(state: u64, increment: u64, n: nat): u64 {
    if n == 0 then state else Advance(After(state, increment, n - 1), increment)
  }

  /** The word produced by step `n`, counted from zero. */
  function Drawn(state: u64, increment: u64, n: nat): (word: nat)
    ensures word < WORD
  {
    Output(After(state, increment, n))
  }

  // ---- The bits of a word -------------------------------------------------------------------------

  /** Rotating right by `r` puts the upper 32 - r bits lowest and the lower r bits above them. */
  lemma RotatedParts(value: bv32, r: bv32)
    requires 0 < r < 32
    ensures RotateRight(value, r) >> ((32 - r) as bv6) == value & ((1 << (r as bv6)) - 1)
    ensures RotateRight(value, r) & ((1 << ((32 - r) as bv6)) - 1) == value >> (r as bv6)
  {
  }

  lemma NotRotated(value: bv32)
    ensures RotateRight(value, 0) == value
  {
  }

  /** The word before the rotation: bits 27 to 58 of the state, and over them those from 45 on. */
  lemma ScrambledIs(bits: bv64)
    ensures Scrambled(bits) as bv64 == ((bits >> 27) ^ (bits >> 45)) & 0xFFFF_FFFF
  {
  }

  lemma FromBits(state: u64, bits: bv64)
    requires bits as nat == state
    ensures state as bv64 == bits
  {
  }

  lemma WordOf(state: u64, bits: bv64, word: bv32)
    requires bits as nat == state && RotateRight(Scrambled(bits), Rotation(bits)) == word
    ensures Output(state) == word as nat
  {
    FromBits(state, bits);
    hide Scrambled, Rotation, RotateRight;
  }

  /** `word` is `v` rotated right by `r`. */
  predicate Rotated(word: bv32, v: bv32, r: bv32) {
    r < 32 && if r == 0 then word == v else
      && word >> ((32 - r) as bv6) == v & ((1 << (r as bv6)) - 1)
      && word & ((1 << ((32 - r) as bv6)) - 1) == v >> (r as bv6)
  }

  lemma RotateRotates(v: bv32, r: bv32)
    requires r < 32
    ensures Rotated(RotateRight(v, r), v, r)
  {
    hide RotateRight;
    NotRotated(v);
    if r != 0 {
      RotatedParts(v, r);
    }
  }

  /** `v` is the middle of the state with the bits 18 places higher over it, `r` its highest five bits. */
  predicate PartsOf(v: bv32, r: bv32, bits: bv64) {
    v as bv64 == ((bits >> 27) ^ (bits >> 45)) & 0xFFFF_FFFF && r as bv64 == bits >> 59
  }

  lemma PartsAre(bits: bv64)
    ensures PartsOf(Scrambled(bits), Rotation(bits), bits) && Rotation(bits) < 32
  {
    ScrambledIs(bits);
  }

  /** The word made from a state, by its bits: the middle, rotated right by the highest bits. */
  lemma OutputParts(state: u64, bits: bv64) returns (v: bv32, r: bv32, word: bv32)
    requires bits as nat == state
    ensures PartsOf(v, r, bits) && Rotated(word, v, r) && Output(state) == word as nat
  {
    hide *;
    v, r := Scrambled(bits), Rotation(bits);
    word := RotateRight(v, r);
    PartsAre(bits);
    WordOf(state, bits, word);
    RotateRotates(v, r);
  }

  /** The state a seed and a stream lead to. */
  function Seeded(seed: u64, sequence: u64): u64 {
    Advance((Advance(0, Increment(sequence)) + seed) % LONG, Increment(sequence))
  }

  lemma KnownStates()
    ensures Increment(54) == 109 && Seeded(42, 54) == 0x185706b82c2e03f8
    ensures Advance(0x185706b82c2e03f8, 109) == 0x2b47fed88766bb05
    ensures Advance(0x2b47fed88766bb05, 109) == 0x8b33296d19bf5b4e
    ensures Advance(0x8b33296d19bf5b4e, 109) == 0xf7079824c154bf23
    ensures Advance(0xf7079824c154bf23, 109) == 0xebbf9e97aa16f694
    ensures Advance(0xebbf9e97aa16f694, 109) == 0x8303569fbe80c471
  {
    assert Advance(0, 109) == 109;
  }

  lemma KnownWord0()
    ensures Output(0x185706b82c2e03f8) == 0xa15c02b7
  {
    KnownBits0(0x185706b82c2e03f8);
    WordOf(0x185706b82c2e03f8, 0x185706b82c2e03f8, 0xa15c02b7);
  }

  lemma KnownBits0(bits: bv64)
    requires bits == 0x185706b82c2e03f8
    ensures bits as nat == 0x185706b82c2e03f8 && RotateRight(Scrambled(bits), Rotation(bits)) == 0xa15c02b7
  {
  }

  lemma KnownWord1()
    ensures Output(0x2b47fed88766bb05) == 0x7b47f409
  {
    KnownBits1(0x2b47fed88766bb05);
    WordOf(0x2b47fed88766bb05, 0x2b47fed88766bb05, 0x7b47f409);
  }

  lemma KnownBits1(bits: bv64)
    requires bits == 0x2b47fed88766bb05
    ensures bits as nat == 0x2b47fed88766bb05 && RotateRight(Scrambled(bits), Rotation(bits)) == 0x7b47f409
  {
  }

  lemma KnownWord2()
    ensures Output(0x8b33296d19bf5b4e) == 0xba1d3330
  {
    KnownBits2(0x8b33296d19bf5b4e);
    WordOf(0x8b33296d19bf5b4e, 0x8b33296d19bf5b4e, 0xba1d3330);
  }

  lemma KnownBits2(bits: bv64)
    requires bits == 0x8b33296d19bf5b4e
    ensures bits as nat == 0x8b33296d19bf5b4e && RotateRight(Scrambled(bits), Rotation(bits)) == 0xba1d3330
  {
  }

  lemma KnownWord3()
    ensures Output(0xf7079824c154bf23) == 0x83d2f293
  {
    KnownBits3(0xf7079824c154bf23);
    WordOf(0xf7079824c154bf23, 0xf7079824c154bf23, 0x83d2f293);
  }

  lemma KnownBits3(bits: bv64)
    requires bits == 0xf7079824c154bf23
    ensures bits as nat == 0xf7079824c154bf23 && RotateRight(Scrambled(bits), Rotation(bits)) == 0x83d2f293
  {
  }

  lemma KnownWord4()
    ensures Output(0xebbf9e97aa16f694) == 0xbfa4784b
  {
    KnownBits4(0xebbf9e97aa16f694);
    WordOf(0xebbf9e97aa16f694, 0xebbf9e97aa16f694, 0xbfa4784b);
  }

  lemma KnownBits4(bits: bv64)
    requires bits == 0xebbf9e97aa16f694
    ensures bits as nat == 0xebbf9e97aa16f694 && RotateRight(Scrambled(bits), Rotation(bits)) == 0xbfa4784b
  {
  }

  lemma KnownWord5()
    ensures Output(0x8303569fbe80c471) == 0xcbed606e
  {
    KnownBits5(0x8303569fbe80c471);
    WordOf(0x8303569fbe80c471, 0x8303569fbe80c471, 0xcbed606e);
  }

  lemma KnownBits5(bits: bv64)
    requires bits == 0x8303569fbe80c471
    ensures bits as nat == 0x8303569fbe80c471 && RotateRight(Scrambled(bits), Rotation(bits)) == 0xcbed606e
  {
  }

  /** The known answers for seed 42 and stream 54. */
  lemma KnownAnswers()
    ensures var state, increment := Seeded(42, 54), Increment(54);
      && Drawn(state, increment, 0) == 0xa15c02b7
      && Drawn(state, increment, 1) == 0x7b47f409
      && Drawn(state, increment, 2) == 0xba1d3330
      && Drawn(state, increment, 3) == 0x83d2f293
      && Drawn(state, increment, 4) == 0xbfa4784b
      && Drawn(state, increment, 5) == 0xcbed606e
  {
    KnownStates();
    hide Output, Advance, Increment;
    KnownWord0();
    KnownWord1();
    KnownWord2();
    KnownWord3();
    KnownWord4();
    KnownWord5();
    var s := Seeded(42, 54);
    assert After(s, 109, 0) == 0x185706b82c2e03f8;
    assert After(s, 109, 1) == 0x2b47fed88766bb05;
    assert After(s, 109, 2) == 0x8b33296d19bf5b4e;
    assert After(s, 109, 3) == 0xf7079824c154bf23;
    assert After(s, 109, 4) == 0xebbf9e97aa16f694;
    assert After(s, 109, 5) == 0x8303569fbe80c471;
  }

  // ---- Rejection sampling -------------------------------------------------------------------------

  /** Words below this are rejected: 2^32 modulo the width, as 32-bit arithmetic computes it. */
  function Threshold(width: nat): (t: nat)
    requires 0 < width < WORD
    ensures t < width
  {
    (WORD - width) % width
  }

  lemma ThresholdIs(width: nat)
    requires 0 < width < WORD
    ensures Threshold(width) == WORD % width
  {
    var q, r := (WORD - width) / width, (WORD - width) % width;
    assert WORD - width == width * q + r;
    assert WORD == width * (q + 1) + r;
    DivisionUnique(WORD, width, q + 1, r);
  }

  /** The accepted words with a given residue. */
  ghost function Preimages(width: nat, residue: nat): set<nat>
    requires 0 < width < WORD
  {
    set v: nat | v < WORD && v >= Threshold(width) && v % width == residue :: v
  }

  /** The words of [start, start + count * width) with a given residue. */
  ghost function Stretch(start: nat, count: nat, width: nat, residue: nat): set<nat>
    requires width > 0
  {
    set v: nat | v < start + count * width && v >= start && v % width == residue :: v
  }

  lemma Divided(x: nat, width: nat) returns (q: nat, r: nat)
    requires width > 0
    ensures x == width * q + r && r < width
  {
    q, r := x / width, x % width;
  }

  /** The one word with a given residue in a stretch of one width. */
  lemma Representative(start: nat, width: nat, residue: nat) returns (v: nat)
    requires residue < width
    ensures start <= v < start + width && v % width == residue
  {
    var whole, over := Divided(start, width);
    v := RepresentativeFrom(whole, over, width, residue);
  }

  lemma RepresentativeFrom(whole: nat, over: nat, width: nat, residue: nat) returns (v: nat)
    requires residue < width && over < width
    ensures width * whole + over <= v < width * whole + over + width && v % width == residue
  {
    var next := whole + 1;
    assert width * next == width * whole + width;
    if residue >= over {
      v := width * whole + residue;
      ShiftedResidue(whole, width, residue);
    } else {
      v := width * next + residue;
      ShiftedResidue(next, width, residue);
    }
  }

  lemma ShiftedResidue(q: nat, width: nat, residue: nat)
    requires residue < width
    ensures (width * q + residue) % width == residue
  {
    DivisionUnique(width * q + residue, width, q, residue);
  }

  /** Two words with the same residue, less than a width apart, are equal. */
  lemma SameResidue(a: nat, b: nat, width: nat)
    requires width > 0 && a % width == b % width && a <= b < a + width
    ensures a == b
  {
    var p, q := a / width, b / width;
    assert a == width * p + a % width && b == width * q + b % width;
    assert width * (p + 1) == width * p + width;
    if p < q {
      MulMonotone(width, p + 1, q);
    } else {
      MulMonotone(width, q, p);
    }
  }

  /** Every stretch of `count` widths holds each residue exactly `count` times. */
  lemma {:induction false} StretchCount(start: nat, count: nat, width: nat, residue: nat)
    requires residue < width
    ensures |Stretch(start, count, width, residue)| == count
  {
    if count == 0 {
      assert Stretch(start, 0, width, residue) == {};
    } else {
      StretchCount(start, count - 1, width, residue);
      var from := start + (count - 1) * width;
      assert from + width == start + count * width;
      var v := Representative(from, width, residue);
      forall x | x in Stretch(start, count, width, residue) && x >= from
        ensures x == v
      {
        if x <= v {
          SameResidue(x, v, width);
        } else {
          SameResidue(v, x, width);
        }
      }
      assert Stretch(start, count, width, residue) == Stretch(start, count - 1, width, residue) + {v};
    }
  }

  /** The accepted words fill a whole number of widths. */
  lemma AcceptedWhole(width: nat)
    requires 0 < width < WORD
    ensures var t := Threshold(width); (WORD - t) / width * width + t == WORD
  {
    var q, t := (WORD - width) / width, Threshold(width);
    assert WORD - width == width * q + t;
    assert width * q + width == width * (q + 1) == (q + 1) * width;
    assert WORD - t == width * (q + 1) + 0;
    DivisionUnique(WORD - t, width, q + 1, 0);
  }

  /** Rejection sampling is exactly unbiased: every residue has the same number of accepted words. */
  lemma RejectionUnbiased(width: nat, residue: nat)
    requires 0 < width < WORD && residue < width
    ensures |Preimages(width, residue)| == (WORD - Threshold(width)) / width > 0
  {
    var t := Threshold(width);
    var count := (WORD - t) / width;
    AcceptedWhole(width);
    StretchCount(t, count, width, residue);
    assert Preimages(width, residue) == Stretch(t, count, width, residue);
    if count == 0 {
      assert false;
    }
  }

  // ---- Every state is reached ---------------------------------------------------------------------

  /** `n` steps without the reduction to 64 bits. */
  function Iterate(x: nat, c: nat, n: nat): nat {
    if n == 0 then x else MULTIPLIER * Iterate(x, c, n - 1) + c
  }

  lemma {:induction false} AfterIterates(state: u64, increment: u64, n: nat)
    ensures After(state, increment, n) == Iterate(state, increment, n) % LONG
  {
    if n != 0 {
      AfterIterates(state, increment, n - 1);
      ReducedStep(Iterate(state, increment, n - 1), increment);
    }
  }

  /** Reducing before a step changes nothing after it. */
  lemma ReducedStep(x: nat, c: nat)
    ensures (MULTIPLIER * (x % LONG) + c) % LONG == (MULTIPLIER * x + c) % LONG
  {
    var q, r := x / LONG, x % LONG;
    assert MULTIPLIER * x + c == MULTIPLIER * r + c + LONG * (MULTIPLIER * q);
    MultipleAdded(MULTIPLIER * r + c, MULTIPLIER * q);
  }

  lemma MultipleAdded(y: nat, q: nat)
    ensures (y + LONG * q) % LONG == y % LONG
  {
    DivisionUnique(y + LONG * q, LONG, q + y / LONG, y % LONG);
  }

  lemma {:induction false} IterateAdds(x: nat, c: nat, m: nat, n: nat)
    ensures Iterate(x, c, m + n) == Iterate(Iterate(x, c, m), c, n)
  {
    if n != 0 {
      IterateAdds(x, c, m, n - 1);
    }
  }

  /** 2^k steps multiply by one more than a multiple of 4 * 2^k, and add an odd multiple of 2^k. */
  ghost predicate Strides(c: nat, k: nat, m: nat, j: nat) {
    forall x: nat :: Iterate(x, c, Power(k)) == (1 + 4 * Power(k) * m) * x + Power(k) * (2 * j + 1)
  }

  lemma {:induction false} Stride(c: nat, k: nat) returns (m: nat, j: nat)
    requires c % 2 == 1
    ensures Strides(c, k, m, j)
  {
    if k == 0 {
      m, j := MULTIPLIER / 4, c / 2;
      forall x: nat
        ensures Iterate(x, c, 1) == (1 + 4 * m) * x + (2 * j + 1)
      {
        assert Iterate(x, c, 1) == MULTIPLIER * Iterate(x, c, 0) + c;
      }
    } else {
      var m0, j0 := Stride(c, k - 1);
      var p := Power(k - 1);
      m, j := m0 + 2 * p * m0 * m0, j0 + p * m0 * (2 * j0 + 1);
      NextStride(c, k - 1, p, m0, j0);
    }
  }

  /** Two strides make the next. */
  lemma NextStride(c: nat, k: nat, p: nat, m: nat, j: nat)
    requires Strides(c, k, m, j) && p == Power(k)
    ensures Strides(c, k + 1, m + 2 * p * m * m, j + p * m * (2 * j + 1))
  {
    forall x: nat
      ensures Iterate(x, c, 2 * p)
          == (1 + 4 * (2 * p) * (m + 2 * p * m * m)) * x + (2 * p) * (2 * (j + p * m * (2 * j + 1)) + 1)
    {
      var y := Iterate(x, c, p);
      IterateAdds(x, c, p, p);
      assert Iterate(y, c, p) == (1 + 4 * p * m) * y + p * (2 * j + 1);
      TwoStrides(p, m, j, x);
    }
  }

  lemma TwoStrides(p: nat, m: nat, j: nat, x: nat)
    ensures (1 + 4 * p * m) * ((1 + 4 * p * m) * x + p * (2 * j + 1)) + p * (2 * j + 1)
            == (1 + 4 * (2 * p) * (m + 2 * p * m * m)) * x + (2 * p) * (2 * (j + p * m * (2 * j + 1)) + 1)
  {
    var q, o := p * m, 2 * j + 1;
    assert 4 * p * m == 4 * q;
    Twice(1 + 4 * q, x, p * o);
    Squared(p, m);
    Doubled(p, q, o);
  }

  lemma Twice(a: nat, x: nat, b: nat)
    ensures a * (a * x + b) + b == (a * a) * x + (1 + a) * b
  {
    assert a * (a * x + b) == a * (a * x) + a * b;
    assert a * (a * x) == (a * a) * x;
  }

  lemma Squared(p: nat, m: nat)
    ensures (1 + 4 * (p * m)) * (1 + 4 * (p * m)) == 1 + 4 * (2 * p) * (m + 2 * p * m * m)
  {
    var q := p * m;
    assert 2 * p * m * m == 2 * (q * m);
    assert p * (q * m) == q * q;
    assert (2 * p) * (m + 2 * (q * m)) == 2 * q + 4 * (q * q);
    assert (1 + 4 * q) * (1 + 4 * q) == 1 + 8 * q + 16 * (q * q);
  }

  lemma Doubled(p: nat, q: nat, o: nat)
    ensures (2 + 4 * q) * (p * o) == (2 * p) * (o + 2 * (q * o))
  {
    assert q * (p * o) == p * (q * o);
  }

  /** Some number of steps reaches any value modulo 2^k: `steps` steps end at `y` plus a multiple. */
  lemma {:induction false} Reaches(x: nat, c: nat, y: nat, k: nat) returns (steps: nat, t: int)
    requires c % 2 == 1
    ensures Iterate(x, c, steps) == y + Power(k) * t
  {
    if k == 0 {
      steps, t := 0, x - y;
    } else {
      var u;
      steps, u := Reaches(x, c, y, k - 1);
      if u % 2 == 0 {
        t := u / 2;
        Halved(Power(k - 1), u, t);
      } else {
        var m, j := Stride(c, k - 1);
        t := OneStrideMore(x, c, y, steps, u, k - 1, m, j);
        steps := steps + Power(k - 1);
      }
    }
  }

  lemma Halved(p: nat, u: int, t: int)
    requires u == 2 * t
    ensures p * u == 2 * p * t
  {
  }

  /** An odd multiple of 2^k is cleared by 2^k more steps. */
  lemma OneStrideMore(x: nat, c: nat, y: nat, s: nat, u: int, k: nat, m: nat, j: nat) returns (t: int)
    requires Strides(c, k, m, j) && u % 2 == 1 && Iterate(x, c, s) == y + Power(k) * u
    ensures Iterate(x, c, s + Power(k)) == y + 2 * Power(k) * t
  {
    var p, z := Power(k), Iterate(x, c, s);
    IterateAdds(x, c, s, p);
    assert Iterate(x, c, s + p) == (1 + 4 * p * m) * z + p * (2 * j + 1);
    Regroup(p, m, j, z, y, u);
    t := OddPlusOdd(u, m * z, j);
    Halved(p, u + 4 * (m * z) + 2 * j + 1, t);
  }

  lemma OddPlusOdd(u: int, q: nat, j: nat) returns (t: int)
    requires u % 2 == 1
    ensures u + 4 * q + 2 * j + 1 == 2 * t
  {
    t := u / 2 + 2 * q + j + 1;
  }

  lemma Regroup(p: nat, m: nat, j: nat, z: nat, y: nat, u: int)
    requires z == y + p * u
    ensures (1 + 4 * p * m) * z + p * (2 * j + 1) == y + p * (u + 4 * (m * z) + 2 * j + 1)
  {
    assert 4 * p * m * z == p * (4 * (m * z));
  }

  lemma PowerIsLong()
    ensures Power(64) == LONG
  {
    PowerOfEight();
    hide Power;
    PowerAdds(8, 8);
    PowerAdds(16, 16);
    PowerAdds(32, 32);
  }

  lemma PowerOfEight()
    ensures Power(8) == 0x100
  {
    assert Power(4) == 16;
  }

  /** The generator has full period: from every state, some number of steps leads to every state. */
  lemma FullPeriod(state: u64, increment: u64, target: u64) returns (n: nat)
    requires increment % 2 == 1
    ensures After(state, increment, n) == target
  {
    PowerIsLong();
    var steps, t := Reaches(state, increment, target, 64);
    n := steps;
    AfterIterates(state, increment, n);
    DivisionUnique(Iterate(state, increment, n), LONG, t, target);
  }

  // ---- In place -----------------------------------------------------------------------------------

  /** A state whose word is accepted for every width. */
  const HIGH: u64 := 0x0400_0000_0000_0000

  lemma HighWord()
    ensures Output(HIGH) == 0x8000_2000
  {
    hide OutputBits;
    var bits: bv64 := 0x0400_0000_0000_0000;
    HighBits(bits);
    FromBits(HIGH, bits);
  }

  lemma HighBits(bits: bv64)
    requires bits == 0x0400_0000_0000_0000
    ensures bits as nat == HIGH && OutputBits(bits) == 0x8000_2000
  {
    assert Scrambled(bits) == 0x8000_2000 && Rotation(bits) == 0;
    assert RotateRight(0x8000_2000, 0) == 0x8000_2000;
  }

  /** No width rejects words from 2^31 on. */
  lemma ThresholdBound(width: nat)
    requires 0 < width < WORD
    ensures Threshold(width) <= 0x8000_0000
  {
    if width > 0x8000_0000 {
      DivisionUnique(WORD - width, width, 0, WORD - width);
    }
  }

  /** So the rejection loop ends, whatever the state and the width. */
  lemma AcceptsEventually(state: u64, increment: u64, width: nat) returns (n: nat)
    requires 0 < width < WORD && increment % 2 == 1
    ensures Drawn(state, increment, n) >= Threshold(width)
  {
    hide Output, After, Threshold;
    n := FullPeriod(state, increment, HIGH);
    HighWord();
    ThresholdBound(width);
  }

  ghost predicate FirstAt(state: u64, increment: u64, width: nat, n: nat)
    requires 0 < width < WORD
  {
    && Drawn(state, increment, n) >= Threshold(width)
    && forall i: nat | i < n :: Drawn(state, increment, i) < Threshold(width)
  }

  lemma {:induction false} FirstBelow(state: u64, increment: u64, width: nat, n: nat) returns (first: nat)
    requires 0 < width < WORD && Drawn(state, increment, n) >= Threshold(width)
    ensures first <= n && FirstAt(state, increment, width, first)
  {
    hide Drawn, Threshold;
    first := n;
    if i: nat :| i < n && Drawn(state, increment, i) >= Threshold(width) {
      first := FirstBelow(state, increment, width, i);
    }
  }

  /** The first step whose word is accepted. */
  ghost function FirstAccepted(state: u64, increment: u64, width: nat): (n: nat)
    requires 0 < width < WORD && increment % 2 == 1
    ensures Drawn(state, increment, n) >= Threshold(width)
    ensures forall i: nat | i < n :: Drawn(state, increment, i) < Threshold(width)
  {
    FirstExists(state, increment, width);
    var n: nat :| FirstAt(state, increment, width, n);
    n
  }

  lemma FirstExists(state: u64, increment: u64, width: nat)
    requires 0 < width < WORD && increment % 2 == 1
    ensures exists n: nat :: FirstAt(state, increment, width, n)
  {
    hide Drawn, Threshold, FirstAt;
    var n := AcceptsEventually(state, increment, width);
    var first := FirstBelow(state, increment, width, n);
  }

  /** What a bounded draw answers: a value, the refusal of the bound, or a division by zero. */
  datatype Outcome = Value(value: nat) | BoundRefused | DivideError

  /** A draw, and the state it leaves. */
  datatype Draw = Draw(outcome: Outcome, state: u64)

  /** `n` words below 2^32 modulo the width were passed over; the next is not below it, and its residue is
      the answer. */
  ghost predicate DrawnAfter(before: u64, increment: u64, width: nat, n: nat, r: Outcome, state: u64)
    requires width > 0
  {
    && (forall i: nat | i < n :: Drawn(before, increment, i) < 0x1_0000_0000 % width)
    && Drawn(before, increment, n) >= 0x1_0000_0000 % width
    && r == Value(Drawn(before, increment, n) % width) && state == After(before, increment, n + 1)
  }

  /** Sampling passes over what is rejected and answers with the residue of the next word. */
  lemma SamplingDraws(state: u64, increment: u64, width: nat)
    requires 0 < width < WORD && increment % 2 == 1
    ensures var s := Sampling(state, increment, width);
      exists n: nat :: DrawnAfter(state, increment, width, n, s.outcome, s.state)
  {
    FirstIsDrawn(state, increment, width);
    hide Drawn, After, DrawnAfter;
    var s := Sampling(state, increment, width);
    assert DrawnAfter(state, increment, width, FirstAccepted(state, increment, width), s.outcome, s.state);
  }

  lemma FirstIsDrawn(state: u64, increment: u64, width: nat)
    requires 0 < width < WORD && increment % 2 == 1
    ensures var n := FirstAccepted(state, increment, width);
      DrawnAfter(state, increment, width, n, Value(Drawn(state, increment, n) % width), After(state, increment, n + 1))
  {
    ThresholdIs(width);
    hide Drawn, After, Threshold;
  }

  /** Rejection sampling below `width`. */
  ghost function Sampling(state: u64, increment: u64, width: nat): Draw
    requires 0 < width < WORD && increment % 2 == 1
  {
    var n := FirstAccepted(state, increment, width);
    Draw(Value(Drawn(state, increment, n) % width), After(state, increment, n + 1))
  }

  ghost function BoundedOutcome(state: u64, increment: u64, bound: nat): Draw
    requires increment % 2 == 1
  {
    if bound == 0 || bound > WORD then Draw(BoundRefused, state)
    else if bound == WORD then Draw(Value(Drawn(state, increment, 0)), After(state, increment, 1))
    else Sampling(state, increment, bound)
  }

  /** The C port does not check the bound: it cuts it to 32 bits, and divides by what is left. */
  ghost function NativeOutcome(state: u64, increment: u64, bound: nat): Draw
    requires increment % 2 == 1
  {
    if bound == WORD then Draw(Value(Drawn(state, increment, 0)), After(state, increment, 1))
    else if bound % WORD == 0 then Draw(DivideError, state)
    else Sampling(state, increment, bound % WORD)
  }

  /** The two implementations agree in result and state exactly for the bounds from 1 to 2^32. Beyond,
      one refuses the bound and the other draws below its lower 32 bits, or divides by zero. */
  lemma NativeAgreesIff(state: u64, increment: u64, bound: nat)
    requires increment % 2 == 1
    ensures BoundedOutcome(state, increment, bound) == NativeOutcome(state, increment, bound) <==> 1 <= bound <= WORD
  {
    hide FirstAccepted, Drawn, After;
    if 0 < bound < WORD {
      DivisionUnique(bound, WORD, 0, bound);
    }
  }

  /** One above 2^32 the first refuses, and the second returns 0. */
  lemma NativeDiffers(state: u64, increment: u64)
    requires increment % 2 == 1
    ensures BoundedOutcome(state, increment, WORD + 1).outcome == BoundRefused
    ensures NativeOutcome(state, increment, WORD + 1).outcome == Value(0)
  {
    hide FirstAccepted, Drawn, After;
  }

  class Generator {
    var state: u64
    var increment: u64

    /** Every seeding makes the increment odd. */
    predicate Valid()
      reads this
    {
      increment % 2 == 1
    }

    constructor (seed: u64, sequence: u64)
      ensures Valid() && increment == Increment(sequence)
      ensures state == Advance((Advance(0, increment) + seed) % LONG, increment)
    {
      state, increment := 0, 0;
      new;
      hide Advance, Output, Increment;
      Reseed(seed, sequence);
    }

    method Reseed(seed: u64, sequence: u64)
      modifies this
      ensures Valid() && increment == Increment(sequence)
      ensures state == Advance((Advance(0, increment) + seed) % LONG, increment)
    {
      IncrementOdd(sequence);
      hide Advance, Output, Increment;
      state := 0;
      increment := Increment(sequence);
      var _ := NextWord();
      state := (state + seed) % LONG;
      var _ := NextWord();
    }

    method NextWord() returns (word: nat)
      modifies this`state
      ensures word == Drawn(old(state), increment, 0) && state == Advance(old(state), increment)
    {
      hide Advance, Output;
      var before := state;
      state := Advance(before, increment);
      word := Output(before);
    }

    /** A uniform value below `bound`. */
    method Bounded(bound: nat) returns (r: Outcome)
      requires Valid()
      modifies this`state
      ensures Draw(r, state) == BoundedOutcome(old(state), increment, bound)
      ensures r.Value? ==> r.value < bound
      ensures r.Value? <==> 0 < bound <= 0x1_0000_0000
      ensures bound == 0x1_0000_0000 ==>
        r.value == Drawn(old(state), increment, 0) && state == Advance(old(state), increment)
      ensures 0 < bound < 0x1_0000_0000 ==> exists n: nat :: DrawnAfter(old(state), increment, bound, n, r, state)
    {
      hide Sampling, DrawnAfter;
      if bound == 0 || bound > WORD {
        return BoundRefused;
      }
      if bound == WORD {
        r := WholeWord();
      } else {
        SamplingDraws(state, increment, bound);
        r := Sample(bound);
      }
    }

    /** The C port: no check of the bound, which is cut to 32 bits. */
    method NativeBounded(bound: nat) returns (r: Outcome)
      requires Valid()
      modifies this`state
      ensures Draw(r, state) == NativeOutcome(old(state), increment, bound)
      ensures r == DivideError <==> bound != 0x1_0000_0000 && bound % 0x1_0000_0000 == 0
      ensures bound % 0x1_0000_0000 != 0 ==>
        exists n: nat :: DrawnAfter(old(state), increment, bound % 0x1_0000_0000, n, r, state)
    {
      hide Sampling, DrawnAfter;
      if bound == WORD {
        r := WholeWord();
      } else {
        var width := bound % WORD;
        if width == 0 {
          return DivideError;
        }
        SamplingDraws(state, increment, width);
        r := Sample(width);
      }
    }

    method WholeWord() returns (r: Outcome)
      modifies this`state
      ensures r == Value(Drawn(old(state), increment, 0)) && r.value < WORD && state == After(old(state), increment, 1)
    {
      hide Advance, Output;
      var word := NextWord();
      r := Value(word);
    }

    /** The rejection loop. */
    method Sample(width: nat) returns (r: Outcome)
      requires Valid() && 0 < width < WORD
      modifies this`state
      ensures Draw(r, state) == Sampling(old(state), increment, width)
      ensures r.Value? && r.value < width
    {
      hide Advance, Output, Threshold;
      ghost var start := state;
      ghost var last := FirstAccepted(start, increment, width);
      ghost var n := 0;
      var threshold := Threshold(width);
      while true
        invariant n <= last && state == After(start, increment, n)
        decreases last - n
      {
        var value := NextWord();
        assert value == Drawn(start, increment, n) && state == After(start, increment, n + 1);
        if value >= threshold {
          return Value(value % width);
        }
        n := n + 1;
      }
    }
  }
}
