/** Inner products of real vectors. */
module Vectors {
  import opened Arith

  /** Inner product of the first `n` entries. */
  function Dot(a: seq<real>, b: seq<real>, n: nat): real
    requires n <= |a| && n <= |b|
  {
    if n == 0 then 0.0 else Dot(a, b, n - 1) + Prod(a[n - 1], b[n - 1])
  }

  lemma {:induction false} DotPrefix(a: seq<real>, b: seq<real>, c: seq<real>, d: seq<real>, n: nat)
    requires n <= |a| && n <= |c|
    ensures Dot(a + b, c + d, n) == Dot(a, c, n)
  {
    hide Prod;
    if n > 0 { DotPrefix(a, b, c, d, n - 1); }
  }

  lemma {:induction false} DotConcat(a: seq<real>, b: seq<real>, c: seq<real>, d: seq<real>, n: nat)
    requires |a| == |c| && n <= |b| && n <= |d|
    ensures Dot(a + b, c + d, |a| + n) == Dot(a, c, |a|) + Dot(b, d, n)
  {
    hide Prod;
    if n == 0 {
      DotPrefix(a, b, c, d, |a|);
    } else {
      DotConcat(a, b, c, d, n - 1);
      assert (a + b)[|a| + n - 1] == b[n - 1] && (c + d)[|a| + n - 1] == d[n - 1];
    }
  }
}
