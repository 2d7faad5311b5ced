/** Facts of multiplication and division. */
module Arithmetic {
  lemma MulMonotone(w: nat, a: nat, b: nat)
    requires a <= b
    ensures w * a <= w * b
  {
    assert w * b == w * a + w * (b - a);
  }

  lemma DivisionUnique(x: nat, width: nat, q: nat, r: nat)
    requires r < width && x == width * q + r
    ensures x / width == q && x % width == r
  {
    var p := x / width;
    assert x == width * p + x % width;
    assert width * (p + 1) == width * p + width && width * (q + 1) == width * q + width;
    if p < q {
      MulMonotone(width, p + 1, q);
    } else if q < p {
      MulMonotone(width, q + 1, p);
    }
  }

  /** Two to the power `k`. */
  function Power(k: nat): (p: nat)
    ensures p > 0
  {
    if k == 0 then 1 else 2 * Power(k - 1)
  }

  lemma {:induction false} PowerAdds(a: nat, b: nat)
    ensures Power(a + b) == Power(a) * Power(b)
  {
    if b != 0 {
      PowerAdds(a, b - 1);
    }
  }

  /** Bit `k` of `x`. */
  predicate Bit(x: nat, k: nat) {
    x / Power(k) % 2 == 1
  }

  /** Dividing by twice a width is halving first. */
  lemma HalfFirst(x: nat, p: nat)
    requires p > 0
    ensures x / (2 * p) == x / 2 / p && x % (2 * p) == 2 * (x / 2 % p) + x % 2
  {
    var h := x / 2;
    var q, r := h / p, h % p;
    assert x == 2 * h + x % 2 && h == p * q + r;
    assert 2 * (p * q) == (2 * p) * q;
    DivisionUnique(x, 2 * p, q, 2 * r + x % 2);
  }

  lemma HigherBit(x: nat, k: nat)
    ensures Bit(x, k + 1) == Bit(x / 2, k)
  {
    HalfFirst(x, Power(k));
  }

  lemma {:induction false} BitAbove(x: nat, j: nat, k: nat, m: nat)
    requires m == x / Power(j)
    ensures Bit(x, j + k) == Bit(m, k)
    decreases j
  {
    if j != 0 {
      HigherBit(x, j - 1 + k);
      HalfFirst(x, Power(j - 1));
      hide Bit;
      BitAbove(x / 2, j - 1, k, m);
    }
  }

  /** The lowest `n` bits are clear exactly for the multiples of 2^n. */
  lemma {:induction false} LowBits(x: nat, n: nat)
    ensures x % Power(n) == 0 <==> forall k: nat | k < n :: !Bit(x, k)
  {
    if n != 0 {
      var h := x / 2;
      LowBits(h, n - 1);
      HalfFirst(x, Power(n - 1));
      assert Bit(x, 0) <==> x % 2 == 1;
      hide Bit;
      assert x % Power(n) == 0 <==> !Bit(x, 0) && h % Power(n - 1) == 0;
      forall k: nat | k < n - 1
        ensures Bit(x, k + 1) == Bit(h, k)
      {
        HigherBit(x, k);
      }
      hide Power;
      forall k: nat | 0 < k < n
        ensures Bit(x, k) == Bit(h, k - 1)
      {
        HigherBit(x, k - 1);
      }
    }
  }
}
