/** Nearest rounding to the 4-bit E2M1 and 8-bit E4M3 floating-point grids, and the four-over-six rule. */
module Rounding {
  import opened Arith
  import opened Wrappers

  function Abs(x: real): real {
    if x < 0.0 then -x else x
  }

  /** The E2M1 magnitudes (OCP Microscaling Formats specification v1.0, section 5.3.3). */
  function E2m1(): (t: seq<real>)
    ensures |t| == 8
  {
    [0.0, 0.5, 1.0, 1.5, 2.0, 3.0, 4.0, 6.0]
  }

  ghost predicate Rising(t: seq<real>) {
    forall i, j :: 0 <= i < j < |t| ==> t[i] < t[j]
  }

  // ---------------------------------------------------------------- the E4M3 table

  function Exp2(n: int): real
    decreases if n < 0 then -n else n
  {
    if n == 0 then 1.0 else if n > 0 then 2.0 * Exp2(n - 1) else Exp2(n + 1) / 2.0
  }

  /** The value of a positive finite code: subnormal with exponent field zero, normal otherwise. */
  function E4m3(code: nat): real {
    Decoded(code / 8 % 16, code % 8)
  }

  function Decoded(exponent: nat, mantissa: nat): real {
    if exponent == 0 then mantissa as real * Exp2(-9)
    else (1.0 + mantissa as real / 8.0) * Exp2(exponent - 7)
  }

  function E4m3Table(): (t: seq<real>)
    ensures |t| == 127
  {
    seq(127, c requires 0 <= c < 127 => E4m3(c))
  }

  lemma Exp2Next(n: int)
    ensures Exp2(n + 1) == 2.0 * Exp2(n)
  {
  }

  lemma {:induction false} Exp2Positive(n: int)
    ensures Exp2(n) > 0.0
    decreases if n < 0 then -n else n
  {
    if n > 0 { Exp2Positive(n - 1); } else if n < 0 { Exp2Positive(n + 1); }
  }

  lemma Times(a: real, b: real, c: real)
    requires a < b && c > 0.0
    ensures a * c < b * c
  {
    assert (b - a) * c > 0.0;
  }

  lemma MantissaUp(e: nat, m: nat)
    requires m < 7
    ensures Decoded(e, m) < Decoded(e, m + 1)
  {
    hide Exp2;
    if e == 0 {
      Exp2Positive(-9);
      Times(m as real, (m + 1) as real, Exp2(-9));
    } else {
      Exp2Positive(e - 7);
      Times(1.0 + m as real / 8.0, 1.0 + (m + 1) as real / 8.0, Exp2(e - 7));
    }
  }

  lemma ExponentUp(e: nat)
    ensures Decoded(e, 7) < Decoded(e + 1, 0)
  {
    hide Exp2;
    if e == 0 {
      Exp2Next(-9);
      Exp2Next(-8);
      Exp2Next(-7);
      Exp2Positive(-9);
      assert Decoded(0, 7) == 7.0 * Exp2(-9) && Decoded(1, 0) == 1.0 * Exp2(-6) == 8.0 * Exp2(-9);
    } else {
      Exp2Next(e - 7);
      Exp2Positive(e - 7);
      assert Decoded(e + 1, 0) == Exp2(e - 6) == 2.0 * Exp2(e - 7);
      Times(1.0 + 7.0 / 8.0, 2.0, Exp2(e - 7));
    }
  }

  /** One code up is one step up, across the subnormal boundary and across every power of two. */
  lemma NextCode(code: nat)
    requires code < 126
    ensures E4m3(code) < E4m3(code + 1)
  {
    hide Decoded;
    var e, m := code / 8, code % 8;
    assert code / 8 % 16 == e;
    if m < 7 {
      assert (code + 1) / 8 % 16 == e && (code + 1) % 8 == m + 1;
      MantissaUp(e, m);
    } else {
      assert (code + 1) / 8 % 16 == e + 1 && (code + 1) % 8 == 0;
      ExponentUp(e);
    }
  }

  lemma {:induction false} CodesRise(i: nat, j: nat)
    requires i < j < 127
    ensures E4m3(i) < E4m3(j)
  {
    NextCode(j - 1);
    if i < j - 1 { CodesRise(i, j - 1); }
  }

  /** The table is strictly increasing from zero; every code but 0 is positive. */
  lemma TableRises()
    ensures Rising(E4m3Table()) && E4m3(0) == 0.0
    ensures forall c :: 0 < c < 127 ==> E4m3(c) > 0.0
  {
    hide E4m3, E4m3Table, Decoded, Exp2;
    ZeroCode();
    CodesOrdered();
    TableIsCodes();
  }

  lemma ZeroCode()
    ensures E4m3(0) == 0.0
  {
    hide Exp2;
    assert E4m3(0) == Decoded(0, 0);
  }

  lemma TableIsCodes()
    ensures forall c :: 0 <= c < 127 ==> E4m3Table()[c] == E4m3(c)
  {
    hide E4m3;
  }

  lemma CodesOrdered()
    ensures forall i, j :: 0 <= i < j < 127 ==> E4m3(i) < E4m3(j)
  {
    hide *;
    forall i, j | 0 <= i < j < 127
      ensures E4m3(i) < E4m3(j)
    {
      CodesRise(i, j);
    }
  }

  lemma CodeFields(c: nat)
    requires c < 128
    ensures E4m3(c) == Decoded(c / 8, c % 8)
  {
    hide Decoded;
  }

  lemma SmallDecoded(e: nat, m: nat)
    requires e < 2 && m < 8
    ensures Decoded(e, m) == (8 * e + m) as real / 512.0
  {
    SmallPowers();
    hide Exp2;
  }

  lemma DecodedDoubles(e: nat, m: nat)
    requires e > 0
    ensures Decoded(e + 1, m) == 2.0 * Decoded(e, m)
  {
    Exp2Next(e - 7);
    hide Exp2;
    Doubled(1.0 + m as real / 8.0, Exp2(e - 7), Exp2(e - 6));
  }

  /** Two binades in steps of 2^-9, and above them eight codes up doubles the value. */
  lemma CodeDoubles(c: nat)
    requires c < 127
    ensures c < 16 ==> E4m3(c) == c as real / 512.0
    ensures 8 <= c < 119 ==> E4m3(c + 8) == 2.0 * E4m3(c)
  {
    hide *;
    CodeFields(c);
    if c < 16 {
      SmallDecoded(c / 8, c % 8);
    }
    if 8 <= c < 119 {
      assert (c + 8) / 8 == c / 8 + 1 && (c + 8) % 8 == c % 8;
      CodeFields(c + 8);
      DecodedDoubles(c / 8, c % 8);
    }
  }

  lemma Doubled(a: real, p: real, q: real)
    requires q == 2.0 * p
    ensures a * q == 2.0 * (a * p)
  {
  }

  lemma SmallPowers()
    ensures Exp2(-9) == 1.0 / 512.0 && Exp2(-6) == 8.0 / 512.0
  {
    assert Exp2(-1) == 0.5;
    assert Exp2(-2) == 0.25;
    assert Exp2(-4) == 0.0625 by { assert Exp2(-3) == 0.125; }
    assert Exp2(-6) == 0.015625 by { assert Exp2(-5) == 0.03125; }
    assert Exp2(-8) == 0.00390625 by { assert Exp2(-7) == 0.0078125; }
  }

  /** The table as the format defines it, without its decoding: subnormals and the first binade are multiples
      of 2^-9, each further binade doubles the one before, and it rises strictly from 0 to 448. */
  method E4m3PositiveTable() returns (t: seq<real>)
    ensures |t| == 127 && t == E4m3Table()
    ensures forall c :: 0 <= c < 16 ==> t[c] == c as real / 512.0
    ensures forall c :: 8 <= c < 119 ==> t[c + 8] == 2.0 * t[c]
    ensures Rising(t) && t[0] == 0.0 && t[126] == 448.0
  {
    hide E4m3;
    t := [];
    for code := 0 to 127
      invariant |t| == code && forall c :: 0 <= c < code ==> t[c] == E4m3(c)
    {
      t := t + [E4m3(code)];
    }
    forall c | 0 <= c < 127
      ensures c < 16 ==> t[c] == c as real / 512.0
      ensures 8 <= c < 119 ==> t[c + 8] == 2.0 * t[c]
    {
      CodeDoubles(c);
    }
    TableRises();
    LastOfTable(t);
  }

  lemma LastOfTable(t: seq<real>)
    requires |t| == 127 && t[14] == 14.0 / 512.0 && forall c :: 8 <= c < 119 ==> t[c + 8] == 2.0 * t[c]
    ensures t[126] == 448.0
  {
    assert t[22] == 28.0 / 512.0 && t[30] == 56.0 / 512.0 && t[38] == 112.0 / 512.0;
    assert t[46] == 224.0 / 512.0 && t[54] == 448.0 / 512.0 && t[62] == 896.0 / 512.0;
    assert t[70] == 3.5 && t[78] == 7.0 && t[86] == 14.0 && t[94] == 28.0;
    assert t[102] == 56.0 && t[110] == 112.0 && t[118] == 224.0;
    assert t[118 + 8] == 2.0 * t[118];
  }

  // ---------------------------------------------------------------- nearest, ties to the even code

  /** The first entry at or above `v`. */
  function SearchLeft(t: seq<real>, v: real, n: nat): (i: nat)
    requires n <= |t|
    ensures n <= i <= |t|
    ensures forall j :: n <= j < i ==> t[j] < v
    ensures i < |t| ==> v <= t[i]
    decreases |t| - n
  {
    if n == |t| || v <= t[n] then n else SearchLeft(t, v, n + 1)
  }

  function NearestEven(v: real, t: seq<real>): (i: nat)
    requires t != []
    ensures i < |t|
  {
    var clipped := if v < t[0] then t[0] else if v > t[|t| - 1] then t[|t| - 1] else v;
    var found := SearchLeft(t, clipped, 0);
    var upper := if found < |t| then found else |t| - 1;
    var lower := if upper > 0 then upper - 1 else 0;
    var below, above := clipped - t[lower], t[upper] - clipped;
    if above < below || (above == below && upper % 2 == 0) then upper else lower
  }

  /** Between the midpoints to the neighbours of entry `k`. */
  ghost predicate Bracketed(v: real, t: seq<real>, k: nat) {
    && k < |t|
    && (k > 0 ==> t[k - 1] + t[k] <= 2.0 * v)
    && (k + 1 < |t| ==> 2.0 * v <= t[k] + t[k + 1])
  }

  ghost predicate OnMidpoint(v: real, t: seq<real>, k: nat, j: nat) {
    k < |t| && j < |t| && (j == k + 1 || k == j + 1) && t[k] + t[j] == 2.0 * v
  }

  /** Rounding stays between the midpoints, for values inside the table's range and outside it, and takes a
      midpoint only for an even code. */
  lemma NearestBracketed(v: real, t: seq<real>)
    requires Rising(t) && t != []
    ensures var k := NearestEven(v, t); Bracketed(v, t, k) && forall j :: OnMidpoint(v, t, k, j) ==> k % 2 == 0
  {
    var last := |t| - 1;
    assert last > 0 ==> t[0] < t[last];
    var clipped := if v < t[0] then t[0] else if v > t[last] then t[last] else v;
    var upper := SearchLeft(t, clipped, 0);
    assert upper <= last;
    assert upper > 0 ==> t[upper - 1] < t[upper];
    assert upper < last ==> t[upper] < t[upper + 1];
    assert upper > 1 ==> t[upper - 2] < t[upper - 1];
    assert upper < last ==> t[upper] < t[last];
  }

  /** Between the midpoints means nearest, and only a midpoint is as near to another entry. */
  lemma BracketedIsNearest(v: real, t: seq<real>, k: nat, j: nat)
    requires Rising(t) && Bracketed(v, t, k) && j < |t|
    ensures Abs(t[k] - v) <= Abs(t[j] - v)
    ensures Abs(t[k] - v) == Abs(t[j] - v) ==> j == k || OnMidpoint(v, t, k, j)
  {
    if j > k {
      assert t[k] < t[k + 1];
      assert j > k + 1 ==> t[k + 1] < t[j];
    } else if j < k {
      assert t[k - 1] < t[k];
      assert j < k - 1 ==> t[j] < t[k - 1];
    }
  }

  /** No entry of the table is closer, for every real value, inside the table's range or not. */
  lemma NearestIsNearest(v: real, t: seq<real>, j: nat)
    requires Rising(t) && j < |t|
    ensures Abs(t[NearestEven(v, t)] - v) <= Abs(t[j] - v)
  {
    NearestBracketed(v, t);
    BracketedIsNearest(v, t, NearestEven(v, t), j);
  }

  /** When another entry is just as close, the even code was taken. */
  lemma TiesAreEven(v: real, t: seq<real>, j: nat)
    requires Rising(t) && j < |t| && j != NearestEven(v, t) && Abs(t[NearestEven(v, t)] - v) == Abs(t[j] - v)
    ensures NearestEven(v, t) % 2 == 0 && j % 2 == 1
  {
    NearestBracketed(v, t);
    BracketedIsNearest(v, t, NearestEven(v, t), j);
  }

  // ---------------------------------------------------------------- the threshold ladder

  /** The midpoints between neighbouring magnitudes. */
  function Thresholds(): (t: seq<real>)
    ensures |t| == 7
  {
    [0.25, 0.75, 1.25, 1.75, 2.5, 3.5, 5.0]
  }

  function Above(x: real, n: nat): (c: nat)
    requires n <= 7
    ensures c <= n
  {
    if n == 0 then 0 else Above(x, n - 1) + if x > Thresholds()[n - 1] then 1 else 0
  }

  /** Counts the thresholds below the value: the index of the magnitude taken. */
  method NearestE2m1Magnitude(x: real) returns (index: nat, value: real)
    ensures index == Above(x, 7) && value == E2m1()[index]
  {
    index := 0;
    for i := 0 to 7
      invariant index == Above(x, i)
    {
      index := index + if x > Thresholds()[i] then 1 else 0;
    }
    value := E2m1()[index];
  }

  lemma LadderBracketed(x: real)
    ensures var i := Above(x, 7);
            (i > 0 ==> x > Thresholds()[i - 1]) && (i < 7 ==> x <= Thresholds()[i])
    ensures Rising(E2m1()) && Bracketed(x, E2m1(), Above(x, 7))
    ensures forall i :: 0 <= i < 7 ==> 2.0 * Thresholds()[i] == E2m1()[i] + E2m1()[i + 1]
  {
    assert Above(x, 1) == if x > 0.25 then 1 else 0;
    assert Above(x, 2) == Above(x, 1) + if x > 0.75 then 1 else 0;
    assert Above(x, 3) == Above(x, 2) + if x > 1.25 then 1 else 0;
    assert Above(x, 4) == Above(x, 3) + if x > 1.75 then 1 else 0;
    assert Above(x, 5) == Above(x, 4) + if x > 2.5 then 1 else 0;
    assert Above(x, 6) == Above(x, 5) + if x > 3.5 then 1 else 0;
  }

  /** The ladder also reaches the least error, on every input. */
  lemma LadderIsNearest(x: real, j: nat)
    requires j < 8
    ensures Abs(E2m1()[Above(x, 7)] - x) <= Abs(E2m1()[j] - x)
  {
    hide E2m1, Thresholds, Above;
    LadderBracketed(x);
    BracketedIsNearest(x, E2m1(), Above(x, 7), j);
  }

  /** So the two roundings have the same error everywhere. */
  lemma LadderMatchesNearestEven(x: real)
    ensures Abs(E2m1()[Above(x, 7)] - x) == Abs(E2m1()[NearestEven(x, E2m1())] - x)
  {
    hide E2m1, Above, NearestEven;
    LadderIsNearest(x, NearestEven(x, E2m1()));
    LadderBracketed(x);
    NearestIsNearest(x, E2m1(), Above(x, 7));
  }

  lemma DifferOnlyAbove(x: real)
    ensures var i, k := Above(x, 7), NearestEven(x, E2m1());
            i != k ==> k == i + 1 && x == Thresholds()[i] && i % 2 == 1
  {
    hide E2m1, Above, NearestEven, Thresholds;
    var i, k := Above(x, 7), NearestEven(x, E2m1());
    LadderBracketed(x);
    LadderMatchesNearestEven(x);
    NearestBracketed(x, E2m1());
    BracketedIsNearest(x, E2m1(), i, k);
    assert i != k ==> OnMidpoint(x, E2m1(), k, i);
  }

  lemma LadderAt(x: real, i: nat)
    requires i < 7 && x == Thresholds()[i]
    ensures Above(x, 7) == i
  {
    hide E2m1, Above;
    LadderBracketed(x);
    assert forall j, k :: 0 <= j < k < 7 ==> Thresholds()[j] < Thresholds()[k];
  }

  lemma DifferOnOddMidpoint(x: real, i: nat)
    requires i < 7 && i % 2 == 1 && x == Thresholds()[i]
    ensures Above(x, 7) != NearestEven(x, E2m1())
  {
    hide E2m1, Above, NearestEven, Thresholds;
    LadderAt(x, i);
    LadderBracketed(x);
    NearestBracketed(x, E2m1());
    assert OnMidpoint(x, E2m1(), i, i + 1);
  }

  /** And they take different codes at exactly three midpoints, where the ladder rounds down to an odd code. */
  lemma CodesDifferExactly(x: real)
    ensures Above(x, 7) != NearestEven(x, E2m1()) <==> x == 0.75 || x == 1.75 || x == 3.5
  {
    hide E2m1, Above, NearestEven;
    DifferOnlyAbove(x);
    if x == 0.75 {
      DifferOnOddMidpoint(x, 1);
    } else if x == 1.75 {
      DifferOnOddMidpoint(x, 3);
    } else if x == 3.5 {
      DifferOnOddMidpoint(x, 5);
    }
  }

  // ---------------------------------------------------------------- signed, scaled values

  ghost predicate IsE2m1(q: real) {
    Abs(q) in E2m1()
  }

  function RoundE2m1(v: real): real {
    var m := E2m1()[NearestEven(Abs(v), E2m1())];
    if v < 0.0 then -m else m
  }

  /** Squared error of writing `v` as `q` at scale `s`. */
  function Err(q: real, s: real, v: real): real {
    (q * s - v) * (q * s - v)
  }

  lemma SquareMono(a: real, b: real)
    requires 0.0 <= a <= b
    ensures a * a <= b * b
  {
    assert (b - a) * (b + a) >= 0.0;
    assert (b - a) * (b + a) == b * b - a * a;
  }

  lemma SquareAbs(a: real)
    ensures a * a == Abs(a) * Abs(a)
  {
  }

  /** Magnitudes only: matching the sign costs nothing. */
  lemma SignNeverHurts(v: real, q: real)
    ensures Abs(Abs(q) - Abs(v)) <= Abs(q - v)
  {
  }

  lemma Scaled(m: real, x: real, s: real)
    requires s > 0.0
    ensures Abs(m * s - x) == Abs(m - x / s) * s
  {
    var d := m - x / s;
    assert x / s * s == x;
    assert d * s == m * s - x;
    if d >= 0.0 { assert d * s >= 0.0; } else { assert -d * s >= 0.0; }
  }

  /** Any magnitude choice that is nearest to `|v| / s` has, at scale `s`, the least squared error over all signed
      codes. */
  lemma NearestIsOptimal(v: real, s: real, m: real, q: real)
    requires s > 0.0 && IsE2m1(q)
    requires forall j :: 0 <= j < 8 ==> Abs(m - Abs(v) / s) <= Abs(E2m1()[j] - Abs(v) / s)
    ensures Err(m, s, Abs(v)) <= Err(q, s, v)
  {
    hide Abs;
    var j :| 0 <= j < 8 && E2m1()[j] == Abs(q);
    hide E2m1;
    var near, far := m * s, q * s;
    AbsTimes(q, s);
    MagnitudeErr(Abs(v), s, m, Abs(q), near, Abs(far));
    SignNeverHurts(v, far);
    ErrMono(near - Abs(v), far - v);
  }

  lemma MagnitudeErr(x: real, s: real, m: real, q: real, near: real, far: real)
    requires s > 0.0 && near == m * s && far == q * s && Abs(m - x / s) <= Abs(q - x / s)
    ensures Abs(near - x) <= Abs(far - x)
  {
    hide Abs;
    Scaled(m, x, s);
    Scaled(q, x, s);
    ProdMono(Abs(m - x / s), Abs(q - x / s), s);
  }

  lemma ErrMono(a: real, b: real)
    requires Abs(a) <= Abs(b)
    ensures a * a <= b * b
  {
    SquareMono(Abs(a), Abs(b));
    SquareAbs(a);
    SquareAbs(b);
  }

  lemma AbsTimes(q: real, s: real)
    requires s > 0.0
    ensures Abs(q * s) == Abs(q) * s
  {
    if q < 0.0 { assert -q * s >= 0.0; } else { assert q * s >= 0.0; }
  }

  // ---------------------------------------------------------------- four over six

  function Amax(g: seq<real>, n: nat): (m: real)
    requires n <= |g|
    ensures m >= 0.0 && forall i :: 0 <= i < n ==> Abs(g[i]) <= m
  {
    if n == 0 then 0.0 else if Abs(g[n - 1]) > Amax(g, n - 1) then Abs(g[n - 1]) else Amax(g, n - 1)
  }

  /** The greatest magnitude of a group: a bound on all of it that one entry attains. */
  ghost predicate Greatest(g: seq<real>, m: real) {
    && (forall i :: 0 <= i < |g| ==> -m <= g[i] <= m)
    && exists i :: 0 <= i < |g| && (g[i] == m || g[i] == -m)
  }

  lemma AmaxIsGreatest(g: seq<real>)
    requires g != []
    ensures Greatest(g, Amax(g, |g|)) && forall m :: Greatest(g, m) ==> m == Amax(g, |g|)
  {
    AmaxAttained(g, |g|);
  }

  lemma {:induction false} AmaxAttained(g: seq<real>, n: nat)
    requires 0 < n <= |g|
    ensures exists i :: 0 <= i < n && (g[i] == Amax(g, n) || g[i] == -Amax(g, n))
  {
    if n == 1 || Abs(g[n - 1]) > Amax(g, n - 1) {
      assert Amax(g, n) == Abs(g[n - 1]);
    } else {
      AmaxAttained(g, n - 1);
      var i :| 0 <= i < n - 1 && (g[i] == Amax(g, n - 1) || g[i] == -Amax(g, n - 1));
      assert g[i] == Amax(g, n) || g[i] == -Amax(g, n);
    }
  }

  /** Squared error of writing `g[i]` as `q[i]` at scale `s`. */
  function Sse(g: seq<real>, q: seq<real>, s: real, n: nat): real
    requires n <= |g| && n <= |q|
  {
    if n == 0 then 0.0 else Sse(g, q, s, n - 1) + Err(q[n - 1], s, g[n - 1])
  }

  /** The error counts every entry: it is zero exactly when all of them are met. */
  lemma {:induction false} ExactIff(g: seq<real>, q: seq<real>, s: real, n: nat)
    requires n <= |g| && n <= |q|
    ensures (forall i :: 0 <= i < n ==> q[i] * s == g[i]) ==> Sse(g, q, s, n) == 0.0
    ensures (exists i :: 0 <= i < n && q[i] * s != g[i]) ==> Sse(g, q, s, n) > 0.0
  {
    hide Err;
    if n > 0 {
      ExactIff(g, q, s, n - 1);
      ErrZero(q[n - 1], s, g[n - 1], q[n - 1] * s - g[n - 1]);
    }
  }

  lemma ErrZero(q: real, s: real, v: real, d: real)
    requires d == q * s - v
    ensures d == 0.0 ==> Err(q, s, v) == 0.0
    ensures d != 0.0 ==> Err(q, s, v) > 0.0
  {
    hide Err, Prod;
    ErrIsSquare(q, s, v, d);
    SquareSigns(d);
  }

  lemma ErrIsSquare(q: real, s: real, v: real, d: real)
    requires d == q * s - v
    ensures Err(q, s, v) == Prod(d, d)
  {
  }

  lemma SquareSigns(x: real)
    ensures x == 0.0 ==> Prod(x, x) == 0.0
    ensures x != 0.0 ==> Prod(x, x) > 0.0
  {
    hide Prod;
    if x == 0.0 {
      ProdZero(x);
    } else {
      SameSign(x, x);
    }
  }

  lemma SameSign(a: real, b: real)
    requires (a > 0.0 && b > 0.0) || (a < 0.0 && b < 0.0)
    ensures Prod(a, b) > 0.0
  {
    if a < 0.0 { assert a * b == (-a) * (-b) > 0.0; }
  }

  function Inverse(s: real): real {
    if s != 0.0 then 1.0 / s else 0.0
  }

  function RoundAt(v: real, s: real): real {
    RoundE2m1(v * Inverse(s))
  }

  function Quantized(g: seq<real>, s: real): (q: seq<real>)
    ensures |q| == |g|
  {
    seq(|g|, i requires 0 <= i < |g| => RoundAt(g[i], s))
  }

  function ScaleCode(g: seq<real>, divisor: real, latent: real): (c: nat)
    requires divisor > 0.0 && latent > 0.0
    ensures c < 127
  {
    assert divisor * latent > 0.0;
    NearestEven(Amax(g, |g|) / (divisor * latent), E4m3Table())
  }

  function OuterScale(code: nat, latent: real): real {
    E4m3(code) * latent
  }

  datatype Written = Written(codes: seq<real>, scaleCode: nat, scale: real, choseFour: bool)

  /** The written group: divisor four only when it is strictly better. */
  function FourOverSix(g: seq<real>, latent: real): Written
    requires latent > 0.0
  {
    var c6, c4 := ScaleCode(g, 6.0, latent), ScaleCode(g, 4.0, latent);
    var s6, s4 := OuterScale(c6, latent), OuterScale(c4, latent);
    if Sse(g, Quantized(g, s4), s4, |g|) < Sse(g, Quantized(g, s6), s6, |g|)
    then Written(Quantized(g, s4), c4, s4, true)
    else Written(Quantized(g, s6), c6, s6, false)
  }

  ghost function Distance(a: real, b: real): real {
    if a < b then b - a else a - b
  }

  /** Code `c` stands for the E4M3 value nearest to `x`, the even one of two. */
  ghost predicate NearestCode(x: real, c: nat) {
    && c < 127
    && forall j :: 0 <= j < 127 ==>
         && Distance(E4m3Table()[c], x) <= Distance(E4m3Table()[j], x)
         && (j != c && Distance(E4m3Table()[c], x) == Distance(E4m3Table()[j], x) ==> c % 2 == 0)
  }

  lemma ScaleIsNearest(g: seq<real>, divisor: real, latent: real)
    requires divisor > 0.0 && latent > 0.0
    ensures NearestCode(Amax(g, |g|) / (divisor * latent), ScaleCode(g, divisor, latent))
  {
    assert divisor * latent > 0.0;
    NearestIsCode(Amax(g, |g|) / (divisor * latent));
    hide NearestCode, NearestEven, E4m3Table, Amax;
  }

  lemma NearestIsCode(x: real)
    ensures NearestCode(x, NearestEven(x, E4m3Table()))
  {
    var t := E4m3Table();
    TableRises();
    hide E4m3Table, NearestEven, E4m3, Rising;
    forall j | 0 <= j < 127
      ensures Distance(t[NearestEven(x, t)], x) <= Distance(t[j], x)
      ensures j != NearestEven(x, t) && Distance(t[NearestEven(x, t)], x) == Distance(t[j], x) ==>
                NearestEven(x, t) % 2 == 0
    {
      NearestIsNearest(x, t, j);
      if j != NearestEven(x, t) && Abs(t[NearestEven(x, t)] - x) == Abs(t[j] - x) { TiesAreEven(x, t, j); }
    }
  }

  /** Codes a group may be written with. */
  ghost predicate Signed(g: seq<real>, q: seq<real>) {
    |q| == |g| && forall i :: 0 <= i < |q| ==> q[i] in E2m1() || -q[i] in E2m1()
  }

  /** The group as written, without the helpers: its scale is the E4M3 value nearest to a sixth, or to a quarter, of its
      greatest magnitude in units of the latent scale; no codes at either scale have less error; and the quarter is
      chosen exactly when it beats all codes at the sixth. */
  ghost predicate IsWritten(g: seq<real>, latent: real, w: Written)
    requires latent > 0.0
  {
    exists m, six: nat, four: nat ::
      && Greatest(g, m) && NearestCode(m / (6.0 * latent), six) && NearestCode(m / (4.0 * latent), four)
      && w.scaleCode == (if w.choseFour then four else six)
      && w.scale == E4m3Table()[w.scaleCode] * latent && Signed(g, w.codes)
      && forall q :: Signed(g, q) ==> Beats(g, w, q, E4m3Table()[six] * latent, E4m3Table()[four] * latent)
  }

  /** The written group has no more error than codes `q` at either scale, and less than at the sixth when the quarter
      was chosen. */
  ghost predicate Beats(g: seq<real>, w: Written, q: seq<real>, six: real, four: real) {
    && |w.codes| == |g| == |q|
    && Sse(g, w.codes, w.scale, |g|) <= Sse(g, q, six, |g|) && Sse(g, w.codes, w.scale, |g|) <= Sse(g, q, four, |g|)
    && (w.choseFour ==> Sse(g, w.codes, w.scale, |g|) < Sse(g, q, six, |g|))
  }

  lemma FourOverSixIsWritten(g: seq<real>, latent: real)
    requires latent > 0.0 && g != []
    ensures IsWritten(g, latent, FourOverSix(g, latent))
  {
    hide *;
    var c6, c4 := ScaleCode(g, 6.0, latent), ScaleCode(g, 4.0, latent);
    AmaxIsGreatest(g);
    ScaleIsNearest(g, 6.0, latent);
    ScaleIsNearest(g, 4.0, latent);
    WrittenIs(g, latent);
    OuterIs(c6, latent);
    OuterIs(c4, latent);
    var s6, s4 := OuterScale(c6, latent), OuterScale(c4, latent);
    forall q | Signed(g, q)
      ensures Beats(g, FourOverSix(g, latent), q, s6, s4)
    {
      WrittenBeats(g, latent, q);
    }
    Writes(g, latent, FourOverSix(g, latent), Amax(g, |g|), c6, c4, s6, s4);
  }

  lemma Writes(g: seq<real>, latent: real, w: Written, m: real, six: nat, four: nat, s6: real, s4: real)
    requires latent > 0.0 && Greatest(g, m) && NearestCode(m / (6.0 * latent), six)
    requires NearestCode(m / (4.0 * latent), four) && six < 127 && four < 127
    requires w.scaleCode == (if w.choseFour then four else six)
    requires w.scale == E4m3Table()[w.scaleCode] * latent && Signed(g, w.codes)
    requires s6 == E4m3Table()[six] * latent && s4 == E4m3Table()[four] * latent
    requires forall q :: Signed(g, q) ==> Beats(g, w, q, s6, s4)
    ensures IsWritten(g, latent, w)
  {
    hide Greatest, NearestCode, Beats, E4m3Table, Signed;
  }

  lemma WrittenIs(g: seq<real>, latent: real)
    requires latent > 0.0
    ensures var w, six, four := FourOverSix(g, latent), ScaleCode(g, 6.0, latent), ScaleCode(g, 4.0, latent);
            && w.scaleCode == (if w.choseFour then four else six)
            && w.scale == E4m3Table()[w.scaleCode] * latent && Signed(g, w.codes)
  {
    hide Sse, Quantized, ScaleCode, E4m3, Signed;
    TableIsCodes();
    QuantizedIsSigned(g, OuterScale(ScaleCode(g, 6.0, latent), latent));
    QuantizedIsSigned(g, OuterScale(ScaleCode(g, 4.0, latent), latent));
  }

  lemma WrittenBeats(g: seq<real>, latent: real, q: seq<real>)
    requires latent > 0.0 && Signed(g, q)
    ensures Beats(g, FourOverSix(g, latent), q, OuterScale(ScaleCode(g, 6.0, latent), latent),
                  OuterScale(ScaleCode(g, 4.0, latent), latent))
  {
    SignedAreE2m1(g, q);
    assert |q| == |g|;
    hide Sse, Quantized, ScaleCode, E4m3, OuterScale, FourOverSix, Signed;
    FourOverSixIsBest(g, latent, q, 6.0);
    FourOverSixIsBest(g, latent, q, 4.0);
    SixIsOptimal(g, latent, q);
  }

  lemma OuterIs(code: nat, latent: real)
    requires code < 127
    ensures OuterScale(code, latent) == E4m3Table()[code] * latent
  {
    hide E4m3;
  }

  lemma SixIsOptimal(g: seq<real>, latent: real, q: seq<real>)
    requires latent > 0.0 && |q| == |g| && forall i :: 0 <= i < |q| ==> IsE2m1(q[i])
    ensures var s := OuterScale(ScaleCode(g, 6.0, latent), latent);
            Sse(g, Quantized(g, s), s, |g|) <= Sse(g, q, s, |g|)
  {
    hide Sse, Quantized, ScaleCode, E4m3;
    TableRises();
    var c := ScaleCode(g, 6.0, latent);
    assert E4m3(c) >= 0.0;
    GroupIsOptimal(g, OuterScale(c, latent), q, |g|);
  }

  lemma SignedAreE2m1(g: seq<real>, q: seq<real>)
    requires Signed(g, q)
    ensures forall i :: 0 <= i < |q| ==> IsE2m1(q[i])
  {
  }

  lemma QuantizedIsSigned(g: seq<real>, s: real)
    ensures Signed(g, Quantized(g, s))
  {
    hide NearestEven, E2m1;
  }

  /** Groups of sixteen, each through both divisors; a wrong shape or scale is the source's error. */
  method QuantizeGroups(groups: seq<seq<real>>, latent: real) returns (r: Option<seq<Written>>)
    ensures r.Some? <==> latent > 0.0 && forall k :: 0 <= k < |groups| ==> |groups[k]| == 16
    ensures r.Some? ==>
              |r.value| == |groups|
              && forall k :: 0 <= k < |groups| ==> r.value[k] == FourOverSix(groups[k], latent)
    ensures r.Some? ==> forall k :: 0 <= k < |groups| ==> IsWritten(groups[k], latent, r.value[k])
  {
    hide Quantized, ScaleCode, Sse, OuterScale, IsWritten;
    for k := 0 to |groups|
      invariant forall j :: 0 <= j < k ==> |groups[j]| == 16
    {
      if |groups[k]| != 16 { return None; }
    }
    if latent <= 0.0 {
      return None;
    }
    var out: seq<Written> := [];
    for k := 0 to |groups|
      invariant |out| == k && forall j :: 0 <= j < k ==> out[j] == FourOverSix(groups[j], latent)
      invariant forall j :: 0 <= j < k ==> IsWritten(groups[j], latent, out[j])
    {
      var c6, q6, s6, e6 := Candidate(groups[k], 6.0, latent);
      var c4, q4, s4, e4 := Candidate(groups[k], 4.0, latent);
      out := out + [if e4 < e6 then Written(q4, c4, s4, true) else Written(q6, c6, s6, false)];
      FourOverSixIsWritten(groups[k], latent);
    }
    r := Some(out);
  }

  method Candidate(g: seq<real>, divisor: real, latent: real)
    returns (code: nat, q: seq<real>, scale: real, error: real)
    requires divisor > 0.0 && latent > 0.0
    ensures code == ScaleCode(g, divisor, latent) && scale == OuterScale(code, latent)
    ensures q == Quantized(g, scale) && error == Sse(g, q, scale, |g|)
  {
    hide Quantized, ScaleCode, Err, OuterScale;
    code := ScaleCode(g, divisor, latent);
    scale := OuterScale(code, latent);
    q := Quantized(g, scale);
    error := 0.0;
    for i := 0 to |g|
      invariant error == Sse(g, q, scale, i)
    {
      error := error + Err(q[i], scale, g[i]);
    }
  }

  lemma RoundedIsOptimal(v: real, s: real, q: real)
    requires s >= 0.0 && IsE2m1(q)
    ensures Err(RoundAt(v, s), s, v) <= Err(q, s, v)
  {
    hide *;
    if s == 0.0 {
      ZeroScale(RoundAt(v, s), q, v);
    } else {
      var x := Abs(v) / s;
      var m := E2m1()[NearestEven(x, E2m1())];
      RoundAtIs(v, s);
      NearestMagnitude(x);
      NearestIsOptimal(v, s, m, q);
      SquareSign(m, s, v);
    }
  }

  lemma ZeroScale(r: real, q: real, v: real)
    ensures Err(r, 0.0, v) == Err(q, 0.0, v)
  {
  }

  lemma RoundAtIs(v: real, s: real)
    requires s > 0.0
    ensures var m := E2m1()[NearestEven(Abs(v) / s, E2m1())];
            RoundAt(v, s) == if v < 0.0 then -m else m
  {
    hide NearestEven, E2m1;
    DivideByScale(v, s);
  }

  lemma NearestMagnitude(x: real)
    ensures forall j :: 0 <= j < 8 ==> Abs(E2m1()[NearestEven(x, E2m1())] - x) <= Abs(E2m1()[j] - x)
  {
    hide NearestEven, Abs;
    LadderBracketed(x);
    forall j | 0 <= j < 8
      ensures Abs(E2m1()[NearestEven(x, E2m1())] - x) <= Abs(E2m1()[j] - x)
    {
      NearestIsNearest(x, E2m1(), j);
    }
  }

  lemma DivideByScale(v: real, s: real)
    requires s > 0.0
    ensures Abs(v * Inverse(s)) == Abs(v) / s
    ensures v * Inverse(s) < 0.0 <==> v < 0.0
  {
    var i := 1.0 / s;
    assert i > 0.0 && i * s == 1.0;
    assert v * i == v / s by { assert (v * i) * s == v * (i * s) == v; }
    AbsTimes(v, i);
    assert Abs(v) * i == Abs(v) / s by { assert (Abs(v) * i) * s == Abs(v) * (i * s) == Abs(v); }
    if v < 0.0 { assert -v * i > 0.0; } else { assert v * i >= 0.0; }
  }

  lemma SquareSign(m: real, s: real, v: real)
    ensures Err(if v < 0.0 then -m else m, s, v) == Err(m, s, Abs(v))
  {
    if v < 0.0 {
      assert -m * s - v == -(m * s - Abs(v));
    }
  }

  lemma {:induction false} GroupIsOptimal(g: seq<real>, s: real, q: seq<real>, n: nat)
    requires s >= 0.0 && n <= |g| && |q| == |g| && forall i :: 0 <= i < |q| ==> IsE2m1(q[i])
    ensures Sse(g, Quantized(g, s), s, n) <= Sse(g, q, s, n)
  {
    hide Err, RoundAt;
    if n > 0 {
      GroupIsOptimal(g, s, q, n - 1);
      RoundedIsOptimal(g[n - 1], s, q[n - 1]);
    }
  }

  /** What is written beats every signed code assignment under either divisor's scale; in particular it is
      never worse than the plain amax/6 rule, and strictly better when it chose four. */
  lemma FourOverSixIsBest(g: seq<real>, latent: real, q: seq<real>, divisor: real)
    requires latent > 0.0 && divisor in {6.0, 4.0} && |q| == |g| && forall i :: 0 <= i < |q| ==> IsE2m1(q[i])
    ensures var w, s, s6 := FourOverSix(g, latent), OuterScale(ScaleCode(g, divisor, latent), latent),
              OuterScale(ScaleCode(g, 6.0, latent), latent);
            && |w.codes| == |g|
            && Sse(g, w.codes, w.scale, |g|) <= Sse(g, q, s, |g|)
            && (w.choseFour <==> Sse(g, w.codes, w.scale, |g|) < Sse(g, Quantized(g, s6), s6, |g|))
  {
    hide Sse, Quantized, ScaleCode, E4m3;
    var s := OuterScale(ScaleCode(g, divisor, latent), latent);
    TableRises();
    assert E4m3(ScaleCode(g, divisor, latent)) >= 0.0;
    assert s >= 0.0;
    GroupIsOptimal(g, s, q, |g|);
  }
}
