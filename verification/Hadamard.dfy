/** The butterfly rotation applied to query and key rows before quantisation, over exact reals. */
module Hadamard {
  import opened Arith
  import opened Vectors

  function Pow2(k: nat): (r: nat)
    ensures r > 0
  {
    if k == 0 then 1 else 2 * Pow2(k - 1)
  }

  function Add(a: seq<real>, b: seq<real>): (r: seq<real>)
    requires |a| == |b|
    ensures |r| == |a|
  {
    seq(|a|, i requires 0 <= i < |a| => a[i] + b[i])
  }

  function Sub(a: seq<real>, b: seq<real>): (r: seq<real>)
    requires |a| == |b|
    ensures |r| == |a|
  {
    seq(|a|, i requires 0 <= i < |a| => a[i] - b[i])
  }

  function Scale(c: real, a: seq<real>): (r: seq<real>)
    ensures |r| == |a|
  {
    seq(|a|, i requires 0 <= i < |a| => c * a[i])
  }

  /** One stage: the row is read as groups of two runs of `stride` values, and each group (a, b)
      becomes (a + b, a - b). Rows here are whole numbers of groups. */
  function Stage(x: seq<real>, stride: nat): (r: seq<real>)
    requires stride > 0
    ensures |r| == |x|
    decreases |x|
  {
    if |x| < 2 * stride then x
    else
      var a, b := x[..stride], x[stride..2 * stride];
      Add(a, b) + Sub(a, b) + Stage(x[2 * stride..], stride)
  }

  /** Stages with strides 1, 2, .. up to 2^(k-1). */
  function Stages(x: seq<real>, k: nat): (r: seq<real>)
    ensures |r| == |x|
    decreases k
  {
    if k == 0 then x else Stage(Stages(x, k - 1), Pow2(k - 1))
  }

  /** `n` is a whole number of groups of width `w`. */
  ghost predicate Whole(n: nat, w: nat)
    requires w > 0
  {
    n == 0 || (n >= w && Whole(n - w, w))
  }

  lemma {:induction false} WholeHalves(n: nat, w: nat)
    requires w > 0 && Whole(n, 2 * w)
    ensures Whole(n, w)
  {
    if n > 0 { WholeHalves(n - 2 * w, w); }
  }

  // ---------------------------------------------------------------- rows as perfect binary trees

  /** A row of 2^k values by halves. */
  datatype Row = Leaf(value: real) | Node(left: Row, right: Row)

  ghost predicate Perfect(t: Row, k: nat) {
    match t
    case Leaf(_) => k == 0
    case Node(u, v) => k > 0 && Perfect(u, k - 1) && Perfect(v, k - 1)
  }

  ghost function Flat(t: Row): seq<real> {
    match t
    case Leaf(a) => [a]
    case Node(u, v) => Flat(u) + Flat(v)
  }

  ghost function Build(x: seq<real>, k: nat): (t: Row)
    requires |x| == Pow2(k)
    ensures Perfect(t, k) && Flat(t) == x
  {
    if k == 0 then Leaf(x[0])
    else
      assert x == x[..Pow2(k - 1)] + x[Pow2(k - 1)..];
      Node(Build(x[..Pow2(k - 1)], k - 1), Build(x[Pow2(k - 1)..], k - 1))
  }

  lemma {:induction false} FlatLength(t: Row, k: nat)
    requires Perfect(t, k)
    ensures |Flat(t)| == Pow2(k)
  {
    if t.Node? { FlatLength(t.left, k - 1); FlatLength(t.right, k - 1); }
  }

  ghost function Plus(s: Row, t: Row, k: nat): (r: Row)
    requires Perfect(s, k) && Perfect(t, k)
    ensures Perfect(r, k)
  {
    if k == 0 then Leaf(s.value + t.value) else Node(Plus(s.left, t.left, k - 1), Plus(s.right, t.right, k - 1))
  }

  ghost function Minus(s: Row, t: Row, k: nat): (r: Row)
    requires Perfect(s, k) && Perfect(t, k)
    ensures Perfect(r, k)
  {
    if k == 0 then Leaf(s.value - t.value) else Node(Minus(s.left, t.left, k - 1), Minus(s.right, t.right, k - 1))
  }

  ghost function Times(c: real, t: Row): (r: Row) {
    match t
    case Leaf(a) => Leaf(c * a)
    case Node(u, v) => Node(Times(c, u), Times(c, v))
  }

  ghost function Inner(s: Row, t: Row, k: nat): real
    requires Perfect(s, k) && Perfect(t, k)
  {
    if k == 0 then s.value * t.value else Inner(s.left, t.left, k - 1) + Inner(s.right, t.right, k - 1)
  }

  /** The transform by halves. */
  ghost function Walsh(t: Row, k: nat): (r: Row)
    requires Perfect(t, k)
    ensures Perfect(r, k)
  {
    if k == 0 then t
    else
      var u, v := Walsh(t.left, k - 1), Walsh(t.right, k - 1);
      Node(Plus(u, v, k - 1), Minus(u, v, k - 1))
  }

  // ---------------------------------------------------------------- the stages compute the transform

  function Group(x: seq<real>, stride: nat): seq<real>
    requires 2 * stride <= |x|
  {
    Add(x[..stride], x[stride..2 * stride]) + Sub(x[..stride], x[stride..2 * stride])
  }

  lemma FirstGroup(x: seq<real>, stride: nat)
    requires stride > 0 && |x| >= 2 * stride
    ensures Stage(x, stride) == Group(x, stride) + Stage(x[2 * stride..], stride)
  {
  }

  lemma Associate(a: seq<real>, b: seq<real>, c: seq<real>)
    ensures a + (b + c) == (a + b) + c
  {
  }

  lemma {:induction false} StageSplits(x: seq<real>, y: seq<real>, stride: nat)
    requires stride > 0 && Whole(|x|, 2 * stride)
    ensures Stage(x + y, stride) == Stage(x, stride) + Stage(y, stride)
    decreases |x|
  {
    if x == [] {
      assert x + y == y;
    } else {
      var w := 2 * stride;
      var z := x + y;
      StageSplits(x[w..], y, stride);
      assert z[w..] == x[w..] + y && z[..stride] == x[..stride] && z[stride..w] == x[stride..w];
      FirstGroup(x, stride);
      FirstGroup(z, stride);
      hide *;
      Associate(Group(x, stride), Stage(x[w..], stride), Stage(y, stride));
    }
  }

  /** Stages of stride below 2^k never mix two blocks of 2^k values. */
  lemma {:induction false} StagesSplit(x: seq<real>, y: seq<real>, k: nat)
    requires Whole(|x|, Pow2(k))
    ensures Stages(x + y, k) == Stages(x, k) + Stages(y, k)
    decreases k
  {
    if k > 0 {
      WholeHalves(|x|, Pow2(k - 1));
      StagesSplit(x, y, k - 1);
      StageSplits(Stages(x, k - 1), Stages(y, k - 1), Pow2(k - 1));
    }
  }

  lemma AddConcat(a: seq<real>, b: seq<real>, c: seq<real>, d: seq<real>)
    requires |a| == |c| && |b| == |d|
    ensures Add(a + b, c + d) == Add(a, c) + Add(b, d)
    ensures Sub(a + b, c + d) == Sub(a, c) + Sub(b, d)
  {
  }

  lemma {:induction false} FlatPlus(s: Row, t: Row, k: nat)
    requires Perfect(s, k) && Perfect(t, k) && |Flat(s)| == |Flat(t)|
    ensures Flat(Plus(s, t, k)) == Add(Flat(s), Flat(t))
    ensures Flat(Minus(s, t, k)) == Sub(Flat(s), Flat(t))
  {
    if k > 0 {
      FlatLength(s.left, k - 1);
      FlatLength(t.left, k - 1);
      FlatLength(s.right, k - 1);
      FlatLength(t.right, k - 1);
      FlatPlus(s.left, t.left, k - 1);
      FlatPlus(s.right, t.right, k - 1);
      AddConcat(Flat(s.left), Flat(s.right), Flat(t.left), Flat(t.right));
    }
  }

  lemma LastStage(u: seq<real>, v: seq<real>, stride: nat)
    requires |u| == |v| == stride && stride > 0
    ensures Stage(u + v, stride) == Add(u, v) + Sub(u, v)
  {
    assert (u + v)[..stride] == u && (u + v)[stride..2 * stride] == v && (u + v)[2 * stride..] == [];
  }

  /** The in-place butterfly is the recursive transform, for every stage count. */
  lemma {:induction false} StagesAreWalsh(t: Row, k: nat)
    requires Perfect(t, k) && |Flat(t)| == Pow2(k)
    ensures Stages(Flat(t), k) == Flat(Walsh(t, k))
  {
    if k > 0 {
      var u, v, s := t.left, t.right, Pow2(k - 1);
      FlatLength(u, k - 1);
      FlatLength(v, k - 1);
      StagesAreWalsh(u, k - 1);
      StagesAreWalsh(v, k - 1);
      StagesSplit(Flat(u), Flat(v), k - 1);
      var hu, hv := Walsh(u, k - 1), Walsh(v, k - 1);
      FlatLength(hu, k - 1);
      FlatLength(hv, k - 1);
      LastStage(Flat(hu), Flat(hv), s);
      FlatPlus(hu, hv, k - 1);
    }
  }

  // ---------------------------------------------------------------- the transform is its own inverse

  lemma {:induction false} WalshLinear(s: Row, t: Row, k: nat)
    requires Perfect(s, k) && Perfect(t, k)
    ensures Walsh(Plus(s, t, k), k) == Plus(Walsh(s, k), Walsh(t, k), k)
    ensures Walsh(Minus(s, t, k), k) == Minus(Walsh(s, k), Walsh(t, k), k)
  {
    if k > 0 {
      WalshLinear(s.left, t.left, k - 1);
      WalshLinear(s.right, t.right, k - 1);
      var a, b := Walsh(s.left, k - 1), Walsh(s.right, k - 1);
      var c, d := Walsh(t.left, k - 1), Walsh(t.right, k - 1);
      Exchange(a, b, c, d, k - 1);
    }
  }

  lemma {:induction false} Exchange(a: Row, b: Row, c: Row, d: Row, k: nat)
    requires Perfect(a, k) && Perfect(b, k) && Perfect(c, k) && Perfect(d, k)
    ensures Plus(Plus(a, c, k), Plus(b, d, k), k) == Plus(Plus(a, b, k), Plus(c, d, k), k)
    ensures Minus(Plus(a, c, k), Plus(b, d, k), k) == Plus(Minus(a, b, k), Minus(c, d, k), k)
    ensures Plus(Minus(a, c, k), Minus(b, d, k), k) == Minus(Plus(a, b, k), Plus(c, d, k), k)
    ensures Minus(Minus(a, c, k), Minus(b, d, k), k) == Minus(Minus(a, b, k), Minus(c, d, k), k)
  {
    if k > 0 {
      Exchange(a.left, b.left, c.left, d.left, k - 1);
      Exchange(a.right, b.right, c.right, d.right, k - 1);
    }
  }

  lemma {:induction false} TimesPerfect(c: real, t: Row, k: nat)
    requires Perfect(t, k)
    ensures Perfect(Times(c, t), k)
  {
    if k > 0 { TimesPerfect(c, t.left, k - 1); TimesPerfect(c, t.right, k - 1); }
  }

  lemma {:induction false} Doubles(u: Row, v: Row, c: real, k: nat)
    requires Perfect(u, k) && Perfect(v, k) && Perfect(Times(c, u), k) && Perfect(Times(c, v), k)
    ensures var p, q := Plus(Times(c, u), Times(c, v), k), Minus(Times(c, u), Times(c, v), k);
            Plus(p, q, k) == Times(2.0 * c, u) && Minus(p, q, k) == Times(2.0 * c, v)
  {
    if k > 0 {
      Doubles(u.left, v.left, c, k - 1);
      Doubles(u.right, v.right, c, k - 1);
    }
  }

  /** Rotating twice multiplies by 2^k. */
  lemma {:induction false} WalshInvolution(t: Row, k: nat)
    requires Perfect(t, k)
    ensures Walsh(Walsh(t, k), k) == Times(Pow2(k) as real, t)
  {
    if k > 0 {
      var u, v, c := t.left, t.right, Pow2(k - 1) as real;
      var hu, hv := Walsh(u, k - 1), Walsh(v, k - 1);
      WalshInvolution(u, k - 1);
      WalshInvolution(v, k - 1);
      WalshLinear(hu, hv, k - 1);
      TimesPerfect(c, u, k - 1);
      TimesPerfect(c, v, k - 1);
      Doubles(u, v, c, k - 1);
      assert 2.0 * c == Pow2(k) as real;
    }
  }

  // ---------------------------------------------------------------- inner products

  lemma {:induction false} InnerButterfly(a: Row, b: Row, c: Row, d: Row, k: nat)
    requires Perfect(a, k) && Perfect(b, k) && Perfect(c, k) && Perfect(d, k)
    ensures Inner(Plus(a, b, k), Plus(c, d, k), k) + Inner(Minus(a, b, k), Minus(c, d, k), k)
         == 2.0 * (Inner(a, c, k) + Inner(b, d, k))
  {
    if k == 0 {
      var p, q, r, t := a.value, b.value, c.value, d.value;
      assert (p + q) * (r + t) + (p - q) * (r - t) == 2.0 * (p * r + q * t);
    } else {
      InnerButterfly(a.left, b.left, c.left, d.left, k - 1);
      InnerButterfly(a.right, b.right, c.right, d.right, k - 1);
    }
  }

  /** Every inner product is scaled by 2^k. */
  lemma {:induction false} WalshInner(s: Row, t: Row, k: nat)
    requires Perfect(s, k) && Perfect(t, k)
    ensures Inner(Walsh(s, k), Walsh(t, k), k) == Pow2(k) as real * Inner(s, t, k)
  {
    if k > 0 {
      WalshInner(s.left, t.left, k - 1);
      WalshInner(s.right, t.right, k - 1);
      var a, b, c, d := Walsh(s.left, k - 1), Walsh(s.right, k - 1), Walsh(t.left, k - 1), Walsh(t.right, k - 1);
      InnerButterfly(a, b, c, d, k - 1);
      var p, q := Inner(s.left, t.left, k - 1), Inner(s.right, t.right, k - 1);
      assert Inner(Walsh(s, k), Walsh(t, k), k) == 2.0 * (Inner(a, c, k - 1) + Inner(b, d, k - 1));
      Distribute(Pow2(k - 1), p, q);
    }
  }

  lemma Distribute(n: nat, p: real, q: real)
    ensures 2.0 * (n as real * p + n as real * q) == (2 * n) as real * (p + q)
  {
  }

  lemma {:induction false} InnerIsDot(s: Row, t: Row, k: nat)
    requires Perfect(s, k) && Perfect(t, k) && |Flat(s)| == |Flat(t)| == Pow2(k)
    ensures Inner(s, t, k) == Dot(Flat(s), Flat(t), Pow2(k))
  {
    if k == 0 {
      assert Dot([s.value], [t.value], 1) == Dot([s.value], [t.value], 0) + Prod(s.value, t.value);
    } else {
      FlatLength(s.left, k - 1); FlatLength(s.right, k - 1);
      FlatLength(t.left, k - 1); FlatLength(t.right, k - 1);
      InnerIsDot(s.left, t.left, k - 1);
      InnerIsDot(s.right, t.right, k - 1);
      DotConcat(Flat(s.left), Flat(s.right), Flat(t.left), Flat(t.right), Pow2(k - 1));
    }
  }

  lemma {:induction false} DotScale(c: real, x: seq<real>, y: seq<real>, n: nat)
    requires n <= |x| && n <= |y|
    ensures Dot(Scale(c, x), Scale(c, y), n) == Prod(Prod(c, c), Dot(x, y, n))
  {
    hide Prod;
    if n == 0 {
      ProdZero(Prod(c, c));
      ProdSwap(0.0, Prod(c, c));
    } else {
      DotScale(c, x, y, n - 1);
      var a, b, p, q := Scale(c, x)[n - 1], Scale(c, y)[n - 1], x[n - 1], y[n - 1];
      ScaledTerm(c, p, q, a, b);
      var sum := Dot(x, y, n - 1);
      ProdAdd(sum, Prod(p, q), Prod(c, c));
      ProdSwap(sum, Prod(c, c));
      ProdSwap(Prod(p, q), Prod(c, c));
      ProdSwap(sum + Prod(p, q), Prod(c, c));
    }
  }

  lemma ScaledTerm(c: real, p: real, q: real, a: real, b: real)
    requires a == c * p && b == c * q
    ensures Prod(a, b) == Prod(Prod(c, c), Prod(p, q))
  {
    assert (c * p) * (c * q) == (c * c) * (p * q);
  }

  /** Rotating both arguments by any factor after k stages scales every score by the same constant. */
  lemma StagesKeepScores(x: seq<real>, y: seq<real>, k: nat, c: real)
    requires |x| == |y| == Pow2(k)
    ensures Dot(Scale(c, Stages(x, k)), Scale(c, Stages(y, k)), |x|)
         == c * c * Pow2(k) as real * Dot(x, y, |x|)
  {
    hide *;
    var s, t := Build(x, k), Build(y, k);
    StagesAreWalsh(s, k);
    StagesAreWalsh(t, k);
    FlatLength(Walsh(s, k), k);
    FlatLength(Walsh(t, k), k);
    WalshInner(s, t, k);
    InnerIsDot(s, t, k);
    InnerIsDot(Walsh(s, k), Walsh(t, k), k);
    DotScale(c, Stages(x, k), Stages(y, k), |x|);
    Gather(c, Pow2(k) as real, Dot(x, y, |x|), Dot(Stages(x, k), Stages(y, k), |x|));
  }

  lemma Gather(c: real, p: real, d: real, dots: real)
    requires dots == p * d
    ensures Prod(Prod(c, c), dots) == c * c * p * d
  {
    assert (c * c) * (p * d) == c * c * p * d;
  }

  /** The butterfly undoes itself up to 2^k. */
  lemma StagesInvolution(x: seq<real>, k: nat)
    requires |x| == Pow2(k)
    ensures Stages(Stages(x, k), k) == Scale(Pow2(k) as real, x)
  {
    var t := Build(x, k);
    StagesAreWalsh(t, k);
    FlatLength(Walsh(t, k), k);
    StagesAreWalsh(Walsh(t, k), k);
    WalshInvolution(t, k);
    FlatTimes(Pow2(k) as real, t);
  }

  lemma {:induction false} FlatTimes(c: real, t: Row)
    ensures Flat(Times(c, t)) == Scale(c, Flat(t))
  {
    match t
    case Leaf(a) =>
      var p := c * a;
      assert Times(c, t) == Leaf(p);
      assert Scale(c, [a])[0] == c * [a][0] == p;
    case Node(u, v) =>
      FlatTimes(c, u);
      FlatTimes(c, v);
      ScaleConcat(c, Flat(u), Flat(v));
  }

  lemma ScaleConcat(c: real, a: seq<real>, b: seq<real>)
    ensures Scale(c, a + b) == Scale(c, a) + Scale(c, b)
  {
    forall i | 0 <= i < |a + b| ensures Scale(c, a + b)[i] == (Scale(c, a) + Scale(c, b))[i] {
      assert (a + b)[i] == if i < |a| then a[i] else b[i - |a|];
    }
  }

  const NORM := 0.08838834764831845

  /** The rotation of a 128-wide row: seven stages, then the normalising factor as written. */
  function Rotate(x: seq<real>): (r: seq<real>)
    requires |x| == 128
    ensures |r| == 128
  {
    Scale(NORM, Stages(x, 7))
  }

  /** Rotating both query and key leaves every unquantised score unchanged, up to the one constant by
      which the written factor misses 1 / sqrt(128): less than 3 parts in 10^16. */
  lemma RotationKeepsScores(q: seq<real>, k: seq<real>)
    requires |q| == |k| == 128
    ensures Dot(Rotate(q), Rotate(k), 128) == 128.0 * NORM * NORM * Dot(q, k, 128)
    ensures 1.0 - 0.0000000000000003 < 128.0 * NORM * NORM < 1.0 + 0.0000000000000003
  {
    hide Stages, Scale;
    assert Pow2(3) == 8;
    assert Pow2(7) == 128;
    StagesKeepScores(q, k, 7, NORM);
  }

  // ---------------------------------------------------------------- the matrix it stands for

  /** Row `i` of Sylvester's sign matrix of order 2^k: both halves repeat the smaller row, and the lower
      rows negate the right half. */
  ghost function Sylvester(k: nat, i: nat): (r: Row)
    requires i < Pow2(k)
    ensures Perfect(r, k)
  {
    if k == 0 then Leaf(1.0)
    else if i < Pow2(k - 1) then Node(Sylvester(k - 1, i), Sylvester(k - 1, i))
    else
      var rest := Sylvester(k - 1, i - Pow2(k - 1));
      TimesPerfect(-1.0, rest, k - 1);
      Node(rest, Times(-1.0, rest))
  }

  ghost function At(t: Row, k: nat, i: nat): real
    requires Perfect(t, k) && i < Pow2(k)
  {
    if k == 0 then t.value
    else if i < Pow2(k - 1) then At(t.left, k - 1, i) else At(t.right, k - 1, i - Pow2(k - 1))
  }

  lemma {:induction false} AtPlus(s: Row, t: Row, k: nat, i: nat)
    requires Perfect(s, k) && Perfect(t, k) && i < Pow2(k)
    ensures At(Plus(s, t, k), k, i) == At(s, k, i) + At(t, k, i)
    ensures At(Minus(s, t, k), k, i) == At(s, k, i) - At(t, k, i)
  {
    if k > 0 {
      if i < Pow2(k - 1) {
        AtPlus(s.left, t.left, k - 1, i);
      } else {
        AtPlus(s.right, t.right, k - 1, i - Pow2(k - 1));
      }
    }
  }

  lemma {:induction false} InnerNegate(s: Row, t: Row, k: nat)
    requires Perfect(s, k) && Perfect(t, k) && Perfect(Times(-1.0, s), k)
    ensures Inner(Times(-1.0, s), t, k) == -Inner(s, t, k)
  {
    if k > 0 { InnerNegate(s.left, t.left, k - 1); InnerNegate(s.right, t.right, k - 1); }
  }

  /** Output `i` of the transform is the inner product of the row with row `i` of Sylvester's matrix. */
  lemma {:induction false} WalshIsSylvester(t: Row, k: nat, i: nat)
    requires Perfect(t, k) && i < Pow2(k)
    ensures At(Walsh(t, k), k, i) == Inner(Sylvester(k, i), t, k)
  {
    if k > 0 {
      var s := Pow2(k - 1);
      var j := if i < s then i else i - s;
      var u, v := Walsh(t.left, k - 1), Walsh(t.right, k - 1);
      WalshIsSylvester(t.left, k - 1, j);
      WalshIsSylvester(t.right, k - 1, j);
      AtPlus(u, v, k - 1, j);
      TimesPerfect(-1.0, Sylvester(k - 1, j), k - 1);
      InnerNegate(Sylvester(k - 1, j), t.right, k - 1);
    }
  }

  lemma {:induction false} FlatAt(t: Row, k: nat, i: nat)
    requires Perfect(t, k) && i < Pow2(k) == |Flat(t)|
    ensures Flat(t)[i] == At(t, k, i)
  {
    if k > 0 {
      FlatLength(t.left, k - 1);
      FlatLength(t.right, k - 1);
      if i < Pow2(k - 1) { FlatAt(t.left, k - 1, i); } else { FlatAt(t.right, k - 1, i - Pow2(k - 1)); }
    }
  }

  /** The butterfly multiplies the row by Sylvester's matrix. */
  lemma StagesAreSylvester(x: seq<real>, k: nat, i: nat)
    requires |x| == Pow2(k) && i < Pow2(k)
    ensures |Flat(Sylvester(k, i))| == |x|
    ensures Stages(x, k)[i] == Dot(Flat(Sylvester(k, i)), x, |x|)
  {
    var t := Build(x, k);
    StagesAreWalsh(t, k);
    FlatLength(Walsh(t, k), k);
    FlatLength(Sylvester(k, i), k);
    FlatAt(Walsh(t, k), k, i);
    WalshIsSylvester(t, k, i);
    InnerIsDot(Sylvester(k, i), t, k);
  }
}
