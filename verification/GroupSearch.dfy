/** The offline search over nearby scale codes: for every group of sixteen weights, the scale code and signed
    4-bit codes of least weighted squared error. */
module GroupSearch {
  import opened Rounding
  import opened Wrappers

  // ---------------------------------------------------------------- codes and packing

  /** A 4-bit code: magnitude index in the low three bits, sign in the fourth. */
  function Decode(code: nat): real
    requires code < 16
  {
    if code >= 8 then -E2m1()[code - 8] else E2m1()[code]
  }

  function Encode(v: real, s: real): (code: nat)
    requires s > 0.0
    ensures code < 16
  {
    Above(Abs(v) / s, 7) + if v < 0.0 then 8 else 0
  }

  ghost predicate AreCodes(q: seq<nat>) {
    forall i :: 0 <= i < |q| ==> q[i] < 16
  }

  /** Two codes a byte, the even position in the low nibble. */
  function Pack(q: seq<nat>): (r: seq<nat>)
    requires |q| % 2 == 0 && AreCodes(q)
    ensures |r| == |q| / 2 && forall i :: 0 <= i < |r| ==> r[i] < 256
  {
    seq(|q| / 2, i requires 0 <= i < |q| / 2 => q[2 * i] + 16 * q[2 * i + 1])
  }

  function Unpack(bytes: seq<nat>): (q: seq<nat>)
    requires forall i :: 0 <= i < |bytes| ==> bytes[i] < 256
    ensures |q| == 2 * |bytes| && AreCodes(q)
  {
    seq(2 * |bytes|, i requires 0 <= i < 2 * |bytes| => if i % 2 == 0 then bytes[i / 2] % 16 else bytes[i / 2] / 16)
  }

  /** Packing loses nothing, and every byte string is the packing of its own unpacking. */
  lemma UnpackPack(q: seq<nat>)
    requires |q| % 2 == 0 && AreCodes(q)
    ensures Unpack(Pack(q)) == q
    ensures forall i :: 0 <= i < |q| / 2 ==> Pack(q)[i] % 16 == q[2 * i] && Pack(q)[i] / 16 == q[2 * i + 1]
  {
    forall i | 0 <= i < |q| / 2
      ensures Pack(q)[i] % 16 == q[2 * i] && Pack(q)[i] / 16 == q[2 * i + 1]
    {
      Nibbles(q, i);
    }
    forall i | 0 <= i < |q|
      ensures Unpack(Pack(q))[i] == q[i]
    {
      assert Unpack(Pack(q))[i] == if i % 2 == 0 then Pack(q)[i / 2] % 16 else Pack(q)[i / 2] / 16;
      hide Pack, Unpack;
      assert i == 2 * (i / 2) + i % 2;
    }
  }

  lemma Nibbles(q: seq<nat>, i: nat)
    requires |q| % 2 == 0 && AreCodes(q) && i < |q| / 2
    ensures Pack(q)[i] % 16 == q[2 * i] && Pack(q)[i] / 16 == q[2 * i + 1]
  {
    assert Pack(q)[i] == q[2 * i] + 16 * q[2 * i + 1];
  }

  lemma PackUnpack(bytes: seq<nat>)
    requires forall i :: 0 <= i < |bytes| ==> bytes[i] < 256
    ensures Pack(Unpack(bytes)) == bytes
    ensures forall i :: 0 <= i < |bytes| ==>
              Unpack(bytes)[2 * i] == bytes[i] % 16 && Unpack(bytes)[2 * i + 1] == bytes[i] / 16
  {
    forall i | 0 <= i < |bytes|
      ensures Unpack(bytes)[2 * i] == bytes[i] % 16 && Unpack(bytes)[2 * i + 1] == bytes[i] / 16
      ensures Pack(Unpack(bytes))[i] == bytes[i]
    {
      UnpackAt(bytes, i);
    }
  }

  lemma UnpackAt(bytes: seq<nat>, i: nat)
    requires (forall i :: 0 <= i < |bytes| ==> bytes[i] < 256) && i < |bytes|
    ensures Unpack(bytes)[2 * i] == bytes[i] % 16 && Unpack(bytes)[2 * i + 1] == bytes[i] / 16
    ensures Pack(Unpack(bytes))[i] == bytes[i]
  {
    var even, odd := 2 * i, 2 * i + 1;
    assert even / 2 == i && odd / 2 == i && even % 2 == 0 && odd % 2 == 1;
    assert Unpack(bytes)[even] == bytes[i] % 16 && Unpack(bytes)[odd] == bytes[i] / 16;
  }

  // ---------------------------------------------------------------- error of a group

  /** Weighted squared error of `n` values written with magnitudes from the ladder at scale `s`. */
  function LadderError(g: seq<real>, w: seq<real>, s: real, n: nat): real
    requires n <= |g| && n <= |w| && s > 0.0
  {
    if n == 0 then 0.0
    else LadderError(g, w, s, n - 1) + w[n - 1] * Err(E2m1()[Above(Abs(g[n - 1]) / s, 7)], s, Abs(g[n - 1]))
  }

  /** The same of any signed codes: what a reader of the packed tensor sees. */
  function CodeError(g: seq<real>, w: seq<real>, q: seq<nat>, s: real, n: nat): real
    requires n <= |g| && n <= |w| && n <= |q| && AreCodes(q)
  {
    if n == 0 then 0.0 else CodeError(g, w, q, s, n - 1) + w[n - 1] * Err(Decode(q[n - 1]), s, g[n - 1])
  }

  /** The error counts every entry of positive weight: it is zero exactly when all of those are met. */
  lemma {:induction false} ErrorZeroIff(g: seq<real>, w: seq<real>, q: seq<nat>, s: real, n: nat)
    requires n <= |g| && n <= |w| && n <= |q| && AreCodes(q) && Weights(w)
    ensures (forall i :: 0 <= i < n && w[i] > 0.0 ==> Decode(q[i]) * s == g[i]) ==> CodeError(g, w, q, s, n) == 0.0
    ensures (exists i :: 0 <= i < n && w[i] > 0.0 && Decode(q[i]) * s != g[i]) ==> CodeError(g, w, q, s, n) > 0.0
  {
    hide Decode, Err;
    if n > 0 {
      ErrorZeroIff(g, w, q, s, n - 1);
      ErrZero(Decode(q[n - 1]), s, g[n - 1], Decode(q[n - 1]) * s - g[n - 1]);
      WeightedZero(w[n - 1], Err(Decode(q[n - 1]), s, g[n - 1]));
    }
  }

  lemma WeightedZero(w: real, e: real)
    requires w >= 0.0 && e >= 0.0
    ensures w == 0.0 || e == 0.0 ==> w * e == 0.0
    ensures w > 0.0 && e > 0.0 ==> w * e > 0.0
  {
  }

  /** The sixteen values. */
  lemma DecodedValues(code: nat)
    requires code < 8
    ensures Decode(code) == [0.0, 0.5, 1.0, 1.5, 2.0, 3.0, 4.0, 6.0][code] && Decode(code + 8) == -Decode(code)
  {
  }

  function GroupCodes(g: seq<real>, s: real): (q: seq<nat>)
    requires s > 0.0
    ensures |q| == |g| && AreCodes(q)
  {
    seq(|g|, i requires 0 <= i < |g| => Encode(g[i], s))
  }

  ghost predicate Weights(w: seq<real>) {
    forall i :: 0 <= i < |w| ==> w[i] >= 0.0
  }

  lemma EncodedErr(v: real, s: real)
    requires s > 0.0
    ensures Err(Decode(Encode(v, s)), s, v) == Err(E2m1()[Above(Abs(v) / s, 7)], s, Abs(v))
  {
    hide E2m1, Above, Err;
    SquareSign(E2m1()[Above(Abs(v) / s, 7)], s, v);
  }

  lemma EncodedIsOptimal(v: real, s: real, code: nat)
    requires s > 0.0 && code < 16
    ensures Err(Decode(Encode(v, s)), s, v) <= Err(Decode(code), s, v)
  {
    var m := E2m1()[Above(Abs(v) / s, 7)];
    assert IsE2m1(Decode(code));
    EncodedErr(v, s);
    forall j | 0 <= j < 8
      ensures Abs(m - Abs(v) / s) <= Abs(E2m1()[j] - Abs(v) / s)
    {
      LadderIsNearest(Abs(v) / s, j);
    }
    hide *;
    NearestIsOptimal(v, s, m, Decode(code));
  }

  lemma WeightMono(w: real, a: real, b: real)
    requires w >= 0.0 && a <= b
    ensures w * a <= w * b
  {
    assert w * (b - a) >= 0.0;
  }

  /** The ladder's error is the error of the packed codes, and no other codes do better at that scale. */
  lemma {:induction false} CodesAreOptimal(g: seq<real>, w: seq<real>, q: seq<nat>, s: real, n: nat)
    requires n <= |g| && n <= |w| && n <= |q| && AreCodes(q) && s > 0.0 && Weights(w)
    ensures CodeError(g, w, GroupCodes(g, s), s, n) == LadderError(g, w, s, n)
    ensures LadderError(g, w, s, n) <= CodeError(g, w, q, s, n)
  {
    hide Err, Decode, Encode, Above, E2m1;
    if n > 0 {
      CodesAreOptimal(g, w, q, s, n - 1);
      EncodedErr(g[n - 1], s);
      EncodedIsOptimal(g[n - 1], s, q[n - 1]);
      WeightMono(w[n - 1], Err(Decode(Encode(g[n - 1], s)), s, g[n - 1]), Err(Decode(q[n - 1]), s, g[n - 1]));
    }
  }

  // ---------------------------------------------------------------- the search

  /** Code 1 to 126 of E4M3 over the checkpoint's divisor: always positive. */
  function CodeScale(code: nat, divisor: real): (s: real)
    requires 0 < code < 127 && divisor > 0.0
    ensures s > 0.0
  {
    TableRises();
    E4m3(code) / divisor
  }

  function Clamp(code: int): (c: nat)
    ensures 0 < c < 127
  {
    if code < 1 then 1 else if code > 126 then 126 else code
  }

  /** The scale codes the search may use for a group whose amax/6 code is `base`. */
  ghost predicate InWindow(code: nat, base: int, below: nat, above: nat) {
    exists b :: base - below <= b <= base + above && Clamp(b) == code
  }

  /** Least ladder error over the window, first offset first. */
  method BestCode(g: seq<real>, w: seq<real>, divisor: real, base: int, below: nat, above: nat) returns (best: nat)
    requires divisor > 0.0 && |w| == |g|
    ensures 0 < best < 127 && InWindow(best, base, below, above)
    ensures forall c: nat :: 0 < c < 127 && InWindow(c, base, below, above) ==>
              LadderError(g, w, CodeScale(best, divisor), |g|) <= LadderError(g, w, CodeScale(c, divisor), |g|)
  {
    hide LadderError, CodeScale;
    best := Clamp(base - below);
    var least := WeightedError(g, w, CodeScale(best, divisor));
    for b := base - below + 1 to base + above + 1
      invariant 0 < best < 127 && InWindow(best, base, below, above)
      invariant least == LadderError(g, w, CodeScale(best, divisor), |g|)
      invariant forall p :: base - below <= p < b ==> least <= LadderError(g, w, CodeScale(Clamp(p), divisor), |g|)
    {
      var c := Clamp(b);
      var e := WeightedError(g, w, CodeScale(c, divisor));
      if e < least { best, least := c, e; }
    }
  }

  method WeightedError(g: seq<real>, w: seq<real>, s: real) returns (e: real)
    requires |w| == |g| && s > 0.0
    ensures e == LadderError(g, w, s, |g|)
  {
    hide Err, E2m1, Above, Abs;
    e := 0.0;
    for i := 0 to |g|
      invariant e == LadderError(g, w, s, i)
    {
      var index, m := NearestE2m1Magnitude(Abs(g[i]) / s);
      e := e + w[i] * Err(m, s, Abs(g[i]));
    }
  }

  /** The best a group can do: a scale code of its window and codes such that no scale code of the window with
      any codes at all has less error. */
  ghost predicate Optimal(g: seq<real>, w: seq<real>, divisor: real, base: int, below: nat, above: nat, code: nat,
                          q: seq<nat>)
    requires divisor > 0.0 && |w| == |g| == |q| && AreCodes(q)
  {
    && 0 < code < 127 && InWindow(code, base, below, above)
    && forall c: nat, p: seq<nat> :: 0 < c < 127 && InWindow(c, base, below, above) && |p| == |g| && AreCodes(p) ==>
         CodeError(g, w, q, CodeScale(code, divisor), |g|) <= CodeError(g, w, p, CodeScale(c, divisor), |g|)
  }

  lemma BestIsOptimal(g: seq<real>, w: seq<real>, divisor: real, base: int, below: nat, above: nat, code: nat)
    requires divisor > 0.0 && |w| == |g| && Weights(w) && 0 < code < 127 && InWindow(code, base, below, above)
    requires forall c: nat :: 0 < c < 127 && InWindow(c, base, below, above) ==>
               LadderError(g, w, CodeScale(code, divisor), |g|) <= LadderError(g, w, CodeScale(c, divisor), |g|)
    ensures Optimal(g, w, divisor, base, below, above, code, GroupCodes(g, CodeScale(code, divisor)))
  {
    hide LadderError, CodeError, CodeScale, GroupCodes, InWindow;
    var q := GroupCodes(g, CodeScale(code, divisor));
    forall c: nat, p: seq<nat> | 0 < c < 127 && InWindow(c, base, below, above) && |p| == |g| && AreCodes(p)
      ensures CodeError(g, w, q, CodeScale(code, divisor), |g|) <= CodeError(g, w, p, CodeScale(c, divisor), |g|)
    {
      CodesAreOptimal(g, w, q, CodeScale(code, divisor), |g|);
      CodesAreOptimal(g, w, p, CodeScale(c, divisor), |g|);
    }
  }

  /** The scale that any finite code stands for; code 0, of a group whose amax rounds to nothing, stands for zero. */
  function StoredScale(code: nat, divisor: real): real
    requires code < 127 && divisor > 0.0
  {
    E4m3(code) / divisor
  }

  /** At scale zero every code stands for zero, which code 0 does at any scale. */
  lemma {:induction false} ZeroScale(g: seq<real>, w: seq<real>, p: seq<nat>, zeros: seq<nat>, s: real, n: nat)
    requires n <= |g| && n <= |w| && n <= |p| && n <= |zeros| && AreCodes(p)
    requires forall i :: 0 <= i < |zeros| ==> zeros[i] == 0
    ensures CodeError(g, w, p, 0.0, n) == CodeError(g, w, zeros, s, n)
  {
    hide Err, Decode;
    if n > 0 {
      ZeroScale(g, w, p, zeros, s, n - 1);
      NothingErr(Decode(p[n - 1]), s, g[n - 1]);
    }
  }

  lemma NothingErr(m: real, s: real, v: real)
    ensures Err(m, 0.0, v) == Err(Decode(0), s, v)
  {
    assert Decode(0) == 0.0 && m * 0.0 == 0.0 == 0.0 * s;
  }

  lemma StoredScales(code: nat, divisor: real)
    requires code < 127 && divisor > 0.0
    ensures StoredScale(code, divisor) == if code == 0 then 0.0 else CodeScale(code, divisor)
  {
    if code == 0 { ZeroCode(); }
    hide E4m3;
  }

  /** An optimal group is never worse than the amax/6 baseline with its own rounding, or any other codes, for every
      finite baseline code; the one code left, 127, is not a number. */
  lemma NeverWorseThanBaseline(g: seq<real>, w: seq<real>, divisor: real, base: nat, below: nat, above: nat, code: nat,
                               q: seq<nat>, p: seq<nat>)
    requires divisor > 0.0 && |w| == |g| == |q| == |p| && AreCodes(q) && AreCodes(p) && base < 127
    requires Optimal(g, w, divisor, base, below, above, code, q)
    ensures CodeError(g, w, q, CodeScale(code, divisor), |g|) <= CodeError(g, w, p, StoredScale(base, divisor), |g|)
  {
    hide CodeError, CodeScale, StoredScale;
    StoredScales(base, divisor);
    assert InWindow(Clamp(base), base, below, above);
    if base == 0 {
      var zeros := seq(|g|, _ => 0);
      ZeroScale(g, w, p, zeros, CodeScale(1, divisor), |g|);
      assert Clamp(base) == 1 && AreCodes(zeros);
    } else {
      assert Clamp(base) == base;
    }
  }

  // ---------------------------------------------------------------- whole matrices

  datatype Options = Options(divisor: real, below: nat, above: nat, rowChunk: nat, moment: Option<seq<real>>,
                             toE4m3: real -> nat)

  datatype Result = BadShape | BadMoment | BadChunk | Packed(packed: seq<seq<nat>>, scales: seq<seq<nat>>)

  function Group(row: seq<real>, k: nat): (g: seq<real>)
    requires 16 * k + 16 <= |row|
    ensures |g| == 16
  {
    row[16 * k..16 * k + 16]
  }

  function GroupWeights(o: Options, k: nat): (w: seq<real>)
    requires o.moment.Some? ==> 16 * k + 16 <= |o.moment.value|
    ensures |w| == 16
  {
    if o.moment.Some? then Group(o.moment.value, k) else seq(16, _ => 1.0)
  }

  lemma WeightsOfGroup(o: Options, k: nat)
    requires o.moment.Some? ==> 16 * k + 16 <= |o.moment.value| && Weights(o.moment.value)
    ensures Weights(GroupWeights(o, k))
  {
  }

  /** The code of amax/6 in checkpoint units, through the hardware's own cast. */
  function BaseCode(o: Options, g: seq<real>): nat {
    o.toE4m3(Amax(g, |g|) / 6.0 * o.divisor)
  }

  /** Row `row` came out as these bytes and scale codes: each group's slice of the unpacked codes is optimal. */
  ghost predicate RowDone(o: Options, row: seq<real>, bytes: seq<nat>, scales: seq<nat>)
    requires o.divisor > 0.0 && (o.moment.Some? ==> |o.moment.value| == |row|) && |row| % 16 == 0
  {
    && |scales| == |row| / 16 && 2 * |bytes| == |row|
    && (forall i :: 0 <= i < |bytes| ==> bytes[i] < 256)
    && forall k :: 0 <= k < |scales| ==> GroupDone(o, row, Unpack(bytes), scales[k], k)
  }

  ghost predicate GroupDone(o: Options, row: seq<real>, q: seq<nat>, code: nat, k: nat)
    requires o.divisor > 0.0 && (o.moment.Some? ==> |o.moment.value| == |row|) && AreCodes(q)
    requires 16 * k + 16 <= |row| && 16 * k + 16 <= |q|
  {
    var g := Group(row, k);
    Optimal(g, GroupWeights(o, k), o.divisor, BaseCode(o, g), o.below, o.above, code, q[16 * k..16 * k + 16])
  }

  /** The weights of a group: the second moments of its columns, or one. */
  ghost predicate AreWeights(o: Options, k: nat, w: seq<real>)
    requires o.moment.Some? ==> 16 * k + 16 <= |o.moment.value|
  {
    |w| == 16 && forall i :: 0 <= i < 16 ==> w[i] == if o.moment.Some? then o.moment.value[16 * k + i] else 1.0
  }

  /** The codes the search may use around a base code: from `below` under it to `above` over it, and where that leaves
      the positive finite codes, the nearest of those. */
  ghost predicate Reaches(base: nat, below: nat, above: nat, c: nat) {
    && 1 <= c <= 126
    && (c as int >= base - below || c == 126) && (c <= base + above || c == 1)
  }

  /** The answer for one group, without the helpers: around the cast of a sixth of the group's greatest magnitude in
      checkpoint units, no reachable scale code with any codes has less weighted error; and nor does that cast itself,
      when it is a finite code. */
  ghost predicate IsAnswer(o: Options, row: seq<real>, q: seq<nat>, code: nat, k: nat)
    requires o.divisor > 0.0 && (o.moment.Some? ==> |o.moment.value| == |row|) && AreCodes(q)
    requires 16 * k + 16 <= |row| && 16 * k + 16 <= |q|
  {
    GroupAnswered(o, row[16 * k..16 * k + 16], k, q[16 * k..16 * k + 16], code)
  }

  ghost predicate GroupAnswered(o: Options, g: seq<real>, k: nat, q: seq<nat>, code: nat)
    requires o.divisor > 0.0 && (o.moment.Some? ==> 16 * k + 16 <= |o.moment.value|)
  {
    exists m, w ::
      Greatest(g, m) && AreWeights(o, k, w) && BestAround(o, g, w, o.toE4m3(m / 6.0 * o.divisor), code, q)
  }

  ghost predicate BestAround(o: Options, g: seq<real>, w: seq<real>, base: nat, code: nat, q: seq<nat>)
    requires o.divisor > 0.0
  {
    && |w| == |g| == |q| && AreCodes(q) && Reaches(base, o.below, o.above, code)
    && LeastError(g, w, o.divisor, base, o.below, o.above, code, q)
  }

  /** No reachable scale code, nor the base code when it is finite, has less error with any codes. */
  ghost predicate LeastError(g: seq<real>, w: seq<real>, divisor: real, base: nat, below: nat, above: nat, code: nat,
                             q: seq<nat>)
    requires divisor > 0.0 && |w| == |g| == |q| && AreCodes(q)
  {
    forall c: nat, p: seq<nat> ::
      |p| == |g| && AreCodes(p) && c < 127 && (Reaches(base, below, above, c) || c == base) ==>
        CodeError(g, w, q, E4m3(code) / divisor, |g|) <= CodeError(g, w, p, E4m3(c) / divisor, |g|)
  }

  /** A row of the packed matrix: every group, read back from the bytes, is answered. */
  ghost predicate RowAnswered(o: Options, row: seq<real>, bytes: seq<nat>, scales: seq<nat>)
    requires o.divisor > 0.0 && (o.moment.Some? ==> |o.moment.value| == |row|) && |row| % 16 == 0
  {
    && |scales| == |row| / 16 && 2 * |bytes| == |row|
    && (forall i :: 0 <= i < |bytes| ==> bytes[i] < 256)
    && forall k :: 0 <= k < |scales| ==> IsAnswer(o, row, Unpack(bytes), scales[k], k)
  }

  lemma ReachesWindow(base: nat, below: nat, above: nat, c: nat)
    ensures Reaches(base, below, above, c) <==> 1 <= c <= 126 && InWindow(c, base, below, above)
  {
    if Reaches(base, below, above, c) {
      var b: int := if c == 126 && base - below > 126 then base - below
                    else if c == 1 && base + above < 1 then base + above else c;
      assert base - below <= b <= base + above && Clamp(b) == c;
    }
  }

  lemma OptimalIsAnswer(o: Options, row: seq<real>, q: seq<nat>, code: nat, k: nat)
    requires o.divisor > 0.0 && (o.moment.Some? ==> |o.moment.value| == |row|) && AreCodes(q)
    requires 16 * k + 16 <= |row| && 16 * k + 16 <= |q| && GroupDone(o, row, q, code, k)
    ensures IsAnswer(o, row, q, code, k)
  {
    hide Optimal, BaseCode, GroupAnswered;
    assert AreWeights(o, k, GroupWeights(o, k));
    GroupIsAnswered(o, Group(row, k), k, GroupWeights(o, k), q[16 * k..16 * k + 16], code);
  }

  lemma GroupIsAnswered(o: Options, g: seq<real>, k: nat, w: seq<real>, q: seq<nat>, code: nat)
    requires o.divisor > 0.0 && (o.moment.Some? ==> 16 * k + 16 <= |o.moment.value|) && AreWeights(o, k, w)
    requires |g| == |w| == |q| == 16 && AreCodes(q)
    requires Optimal(g, w, o.divisor, BaseCode(o, g), o.below, o.above, code, q)
    ensures GroupAnswered(o, g, k, q, code)
  {
    hide Optimal, Amax, LeastError, Reaches, AreWeights, Greatest;
    AmaxIsGreatest(g);
    OptimalHasLeast(g, w, o.divisor, BaseCode(o, g), o.below, o.above, code, q);
    assert BestAround(o, g, w, BaseCode(o, g), code, q);
  }

  lemma OptimalHasLeast(g: seq<real>, w: seq<real>, divisor: real, base: nat, below: nat, above: nat, code: nat,
                        q: seq<nat>)
    requires divisor > 0.0 && |w| == |g| == |q| && AreCodes(q)
    requires Optimal(g, w, divisor, base, below, above, code, q)
    ensures LeastError(g, w, divisor, base, below, above, code, q) && Reaches(base, below, above, code)
  {
    assert 0 < code < 127 && InWindow(code, base, below, above);
    ReachesWindow(base, below, above, code);
    hide Optimal, CodeError, E4m3, Reaches;
    forall c: nat, p: seq<nat> |
      |p| == |g| && AreCodes(p) && c < 127 && (Reaches(base, below, above, c) || c == base)
      ensures CodeError(g, w, q, E4m3(code) / divisor, |g|) <= CodeError(g, w, p, E4m3(c) / divisor, |g|)
    {
      AnswerBeats(g, w, divisor, base, below, above, code, q, p, c);
    }
  }

  lemma AnswerBeats(g: seq<real>, w: seq<real>, divisor: real, base: nat, below: nat, above: nat, code: nat,
                    q: seq<nat>, p: seq<nat>, c: nat)
    requires divisor > 0.0 && |w| == |g| == |q| == |p| && AreCodes(q) && AreCodes(p) && c < 127
    requires Optimal(g, w, divisor, base, below, above, code, q)
    requires Reaches(base, below, above, c) || c == base
    ensures code < 127
    ensures CodeError(g, w, q, E4m3(code) / divisor, |g|) <= CodeError(g, w, p, E4m3(c) / divisor, |g|)
  {
    hide CodeError, E4m3;
    if c == base {
      NeverWorseThanBaseline(g, w, divisor, base, below, above, code, q, p);
    } else {
      ReachesWindow(base, below, above, c);
    }
  }

  method OptimizeGroup(o: Options, row: seq<real>, k: nat) returns (code: nat, codes: seq<nat>)
    requires o.divisor > 0.0 && 16 * k + 16 <= |row|
    requires o.moment.Some? ==> |o.moment.value| == |row| && Weights(o.moment.value)
    ensures |codes| == 16 && AreCodes(codes)
    ensures Optimal(Group(row, k), GroupWeights(o, k), o.divisor, BaseCode(o, Group(row, k)), o.below, o.above, code,
                    codes)
  {
    hide Optimal, BaseCode, GroupWeights, GroupCodes, Group;
    var g, w := Group(row, k), GroupWeights(o, k);
    WeightsOfGroup(o, k);
    code := BestCode(g, w, o.divisor, BaseCode(o, g), o.below, o.above);
    BestIsOptimal(g, w, o.divisor, BaseCode(o, g), o.below, o.above, code);
    codes := GroupCodes(g, CodeScale(code, o.divisor));
  }

  method OptimizeRow(o: Options, row: seq<real>) returns (bytes: seq<nat>, scales: seq<nat>)
    requires o.divisor > 0.0 && |row| % 16 == 0
    requires o.moment.Some? ==> |o.moment.value| == |row| && Weights(o.moment.value)
    ensures RowDone(o, row, bytes, scales) && RowAnswered(o, row, bytes, scales)
  {
    hide GroupDone, Pack, Unpack, RowAnswered;
    var q: seq<nat> := [];
    scales := [];
    for k := 0 to |row| / 16
      invariant |scales| == k && |q| == 16 * k && AreCodes(q)
      invariant forall j :: 0 <= j < k ==> GroupDone(o, row, q, scales[j], j)
    {
      var code, codes := OptimizeGroup(o, row, k);
      forall j | 0 <= j < k
        ensures GroupDone(o, row, q + codes, scales[j], j)
      {
        StaysDone(o, row, q, codes, scales[j], j);
      }
      NowDone(o, row, q, codes, code, k);
      q, scales := q + codes, scales + [code];
    }
    Sixteens(|row|);
    bytes := Pack(q);
    UnpackPack(q);
    RowAnswers(o, row, bytes, scales);
  }

  lemma RowAnswers(o: Options, row: seq<real>, bytes: seq<nat>, scales: seq<nat>)
    requires o.divisor > 0.0 && (o.moment.Some? ==> |o.moment.value| == |row|) && |row| % 16 == 0
    requires RowDone(o, row, bytes, scales)
    ensures RowAnswered(o, row, bytes, scales)
  {
    hide GroupDone, Unpack, IsAnswer;
    forall k | 0 <= k < |scales|
      ensures IsAnswer(o, row, Unpack(bytes), scales[k], k)
    {
      OptimalIsAnswer(o, row, Unpack(bytes), scales[k], k);
    }
  }

  lemma Sixteens(n: nat)
    requires n % 16 == 0
    ensures n % 2 == 0 && 16 * (n / 16) == n
  {
    assert n == 2 * (8 * (n / 16));
  }

  lemma StaysDone(o: Options, row: seq<real>, q: seq<nat>, more: seq<nat>, code: nat, k: nat)
    requires o.divisor > 0.0 && (o.moment.Some? ==> |o.moment.value| == |row|) && AreCodes(q) && AreCodes(more)
    requires 16 * k + 16 <= |row| && 16 * k + 16 <= |q| && GroupDone(o, row, q, code, k)
    ensures AreCodes(q + more) && GroupDone(o, row, q + more, code, k)
  {
    assert (q + more)[16 * k..16 * k + 16] == q[16 * k..16 * k + 16];
  }

  lemma NowDone(o: Options, row: seq<real>, q: seq<nat>, codes: seq<nat>, code: nat, k: nat)
    requires o.divisor > 0.0 && (o.moment.Some? ==> |o.moment.value| == |row|) && AreCodes(q) && AreCodes(codes)
    requires 16 * k + 16 <= |row| && |q| == 16 * k && |codes| == 16
    requires Optimal(Group(row, k), GroupWeights(o, k), o.divisor, BaseCode(o, Group(row, k)), o.below, o.above, code,
                     codes)
    ensures AreCodes(q + codes) && GroupDone(o, row, q + codes, code, k)
  {
    hide Optimal, BaseCode, GroupWeights;
    assert (q + codes)[16 * k..16 * k + 16] == codes;
  }

  /** The whole matrix, chunk of rows by chunk of rows: each group of each row is jointly optimal. */
  method OptimizeGroups(o: Options, weight: seq<seq<real>>, cols: nat) returns (r: Result)
    requires o.divisor > 0.0 && forall i :: 0 <= i < |weight| ==> |weight[i]| == cols
    requires o.moment.Some? ==> Weights(o.moment.value)
    ensures r.BadShape? <==> cols % 16 != 0
    ensures r.BadMoment? <==> cols % 16 == 0 && o.moment.Some? && |o.moment.value| != cols
    ensures r.BadChunk? <==> cols % 16 == 0 && (o.moment.Some? ==> |o.moment.value| == cols) && o.rowChunk == 0
    ensures r.Packed? ==>
              && |r.packed| == |r.scales| == |weight|
              && forall i :: 0 <= i < |weight| ==> RowAnswered(o, weight[i], r.packed[i], r.scales[i])
  {
    hide RowAnswered;
    if cols % 16 != 0 {
      return BadShape;
    }
    if o.moment.Some? && |o.moment.value| != cols {
      return BadMoment;
    }
    if o.rowChunk == 0 {
      return BadChunk;
    }
    var packed, scales: seq<seq<nat>> := [], [];
    var start := 0;
    while start < |weight|
      invariant start <= |weight| && |packed| == |scales| == start
      invariant forall i :: 0 <= i < start ==> RowAnswered(o, weight[i], packed[i], scales[i])
    {
      var end := if start + o.rowChunk < |weight| then start + o.rowChunk else |weight|;
      for i := start to end
        invariant |packed| == |scales| == i
        invariant forall j :: 0 <= j < i ==> RowAnswered(o, weight[j], packed[j], scales[j])
      {
        var bytes, codes := OptimizeRow(o, weight[i]);
        packed, scales := packed + [bytes], scales + [codes];
      }
      start := end;
    }
    r := Packed(packed, scales);
  }
}
