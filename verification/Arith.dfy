/** Arithmetic facts that several modules need. */
module Arith {
  type Pos = n: int | n > 0 witness 1

  lemma MulMono(a: int, b: int, d: nat)
    requires a <= b
    ensures a * d <= b * d
  {
    assert (b - a) * d >= 0;
  }

  lemma MulMonoLeft(k: nat, a: int, b: int)
    requires a <= b
    ensures k * a <= k * b
  {
    assert k * (b - a) >= 0;
  }

  lemma MulGap(a: int, b: int, d: Pos)
    requires a < b
    ensures a * d + d <= b * d
  {
    MulMono(a + 1, b, d);
    assert (a + 1) * d == a * d + d;
  }

  /** A quotient and a remainder in range are the only ones. */
  lemma DivModUnique(a: int, d: Pos, q: int, r: int)
    requires a == q * d + r && 0 <= r < d
    ensures a / d == q && a % d == r
  {
    var p := a / d;
    assert a == p * d + a % d;
    if q < p { MulGap(q, p, d); }
    if p < q { MulGap(p, q, d); }
  }

  /** Adding an offset that stays inside an aligned block. */
  lemma AlignedOffset(start: int, d: Pos, j: int)
    requires 0 <= j < d && start % d == 0
    ensures (start + j) % d == j && (start + j) / d == start / d
  {
    assert start == (start / d) * d;
    DivModUnique(start + j, d, start / d, j);
  }

  /** Rounding down to a multiple. */
  lemma AlignDown(a: int, d: Pos)
    ensures (a - a % d) % d == 0 && (a - a % d) / d == a / d && a - a % d == (a / d) * d
  {
    DivModUnique(a - a % d, d, a / d, 0);
  }

  /** Two values closer than `d` share a remainder only when equal. */
  lemma ModApart(a: int, b: int, d: Pos)
    requires a < b < a + d
    ensures a % d != b % d
  {
    if a % d == b % d {
      var p, q := a / d, b / d;
      assert a == p * d + a % d && b == q * d + b % d;
      if p < q { MulGap(p, q, d); }
      if q <= p { MulMono(q, p, d); }
    }
  }

  lemma DivMono(a: int, b: int, d: Pos)
    requires a <= b
    ensures a / d <= b / d
  {
    assert a == (a / d) * d + a % d && b == (b / d) * d + b % d;
    if a / d > b / d { MulGap(b / d, a / d, d); }
  }

  /** A product of reals as one term: with its body hidden, a proof stays linear. */
  function Prod(x: real, y: real): real {
    x * y
  }

  lemma ProdNonNeg(x: real, y: real)
    requires x >= 0.0 && y >= 0.0
    ensures Prod(x, y) >= 0.0
  {
  }

  lemma ProdAdd(a: real, b: real, k: real)
    ensures Prod(a + b, k) == Prod(a, k) + Prod(b, k)
  {
  }

  lemma ProdMono(a: real, b: real, k: real)
    requires a <= b && k >= 0.0
    ensures Prod(a, k) <= Prod(b, k)
  {
    hide Prod;
    ProdNonNeg(b - a, k);
    ProdAdd(a, b - a, k);
  }

  lemma ProdSwap(a: real, b: real)
    ensures Prod(a, b) == Prod(b, a)
  {
  }

  /** `(1 - a) x` is what is left of `x` without `a x`. */
  lemma ProdComplement(x: real, a: real)
    ensures Prod(1.0 - a, x) == x - Prod(x, a)
  {
  }

  /** A fraction of a number lies between zero and the number. */
  lemma ProdFraction(x: real, a: real)
    requires 0.0 <= a <= 1.0
    ensures if x >= 0.0 then 0.0 <= Prod(x, a) <= x else x <= Prod(x, a) <= 0.0
  {
    hide Prod;
    ProdComplement(x, a);
    if x >= 0.0 {
      ProdNonNeg(x, a);
      ProdNonNeg(1.0 - a, x);
    } else {
      ProdNonNeg(-x, a);
      ProdNonNeg(1.0 - a, -x);
      ProdComplement(-x, a);
      ProdAdd(x, -x, a);
      ProdZero(a);
    }
  }

  lemma ProdZero(a: real)
    ensures Prod(0.0, a) == 0.0 == Prod(a, 0.0)
  {
  }

  lemma ProdOne(a: real)
    ensures Prod(a, 1.0) == a
  {
  }

  lemma ProdRegroup(a: real, b: real, c: real)
    ensures Prod(a, Prod(b, c)) == Prod(b, Prod(a, c))
  {
  }
}
