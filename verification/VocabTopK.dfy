/** Top-k over a vocabulary split across ranks: each rank's top-k, gathered, and the top-k of those. */
module VocabTopK {
  import opened Arith
  import opened TopK
  import opened Wrappers

  datatype Entry = Entry(score: Score, id: nat)

  /** One rank's logits; the last `pads` columns are not vocabulary entries. */
  datatype Shard = Shard(logits: seq<real>, pads: nat, start: nat)

  function Rank(e: Entry): Score { e.score }

  /** Local columns with padding masked and ids shifted to the whole vocabulary. */
  function Masked(sh: Shard): (r: seq<Entry>)
    ensures |r| == |sh.logits|
  {
    seq(|sh.logits|, i requires 0 <= i < |sh.logits| =>
      Entry(if i >= |sh.logits| - sh.pads then NegInf else Finite(sh.logits[i]), i + sh.start))
  }

  /** The rank's vocabulary entries. */
  ghost function Real(sh: Shard): (r: seq<Entry>)
    requires sh.pads <= |sh.logits|
  {
    seq(|sh.logits| - sh.pads, i requires 0 <= i < |sh.logits| - sh.pads => Entry(Finite(sh.logits[i]), i + sh.start))
  }

  ghost function AllOf(sh: Shard): multiset<Entry> {
    multiset(Masked(sh))
  }

  ghost function RealOf(sh: Shard): multiset<Entry>
    requires sh.pads <= |sh.logits|
  {
    multiset(Real(sh))
  }

  /** Every column of every rank, padding included. */
  ghost function Columns(shards: seq<Shard>, n: nat): multiset<Entry>
    requires n <= |shards|
  {
    if n == 0 then multiset{} else Columns(shards, n - 1) + AllOf(shards[n - 1])
  }

  ghost function Vocabulary(shards: seq<Shard>, n: nat): multiset<Entry>
    requires n <= |shards| && forall i :: 0 <= i < |shards| ==> shards[i].pads <= |shards[i].logits|
  {
    if n == 0 then multiset{} else Vocabulary(shards, n - 1) + RealOf(shards[n - 1])
  }

  // ---------------------------------------------------------------- masking

  ghost predicate AllPads(m: multiset<Entry>) {
    forall e :: e in m ==> e.score.NegInf?
  }

  ghost predicate NoPads(m: multiset<Entry>) {
    forall e :: e in m ==> e.score.Finite?
  }

  /** `part` is what of `all` is not padding. */
  ghost predicate Splits(all: multiset<Entry>, part: multiset<Entry>) {
    part <= all && NoPads(part) && AllPads(all - part)
  }

  lemma MaskedSplits(sh: Shard)
    requires sh.pads <= |sh.logits|
    ensures Splits(AllOf(sh), RealOf(sh))
  {
    var n := |sh.logits| - sh.pads;
    assert Masked(sh) == Real(sh) + Masked(sh)[n..];
    assert multiset(Masked(sh)) - multiset(Real(sh)) == multiset(Masked(sh)[n..]);
    forall e | e in multiset(Masked(sh)[n..])
      ensures e.score.NegInf?
    {
      assert e in Masked(sh)[n..];
    }
    forall e | e in multiset(Real(sh))
      ensures e.score.Finite?
    {
      assert e in Real(sh);
    }
  }

  lemma {:induction false} GatheredSplits(shards: seq<Shard>, n: nat)
    requires n <= |shards| && forall i :: 0 <= i < |shards| ==> shards[i].pads <= |shards[i].logits|
    ensures Splits(Columns(shards, n), Vocabulary(shards, n))
  {
    hide *;
    if n == 0 {
      NothingSplits(shards);
    } else {
      GatheredSplits(shards, n - 1);
      MaskedSplits(shards[n - 1]);
      SplitSum(Columns(shards, n - 1), AllOf(shards[n - 1]), Vocabulary(shards, n - 1), RealOf(shards[n - 1]));
      OneMoreShard(shards, n);
    }
  }

  lemma NothingSplits(shards: seq<Shard>)
    requires forall i :: 0 <= i < |shards| ==> shards[i].pads <= |shards[i].logits|
    ensures Splits(Columns(shards, 0), Vocabulary(shards, 0))
  {
  }

  lemma OneMoreShard(shards: seq<Shard>, n: nat)
    requires 0 < n <= |shards| && forall i :: 0 <= i < |shards| ==> shards[i].pads <= |shards[i].logits|
    ensures Columns(shards, n) == Columns(shards, n - 1) + AllOf(shards[n - 1])
    ensures Vocabulary(shards, n) == Vocabulary(shards, n - 1) + RealOf(shards[n - 1])
  {
    hide AllOf, RealOf;
  }

  /** Column `c` of rank `r` as the gathered shards have it: padding at the end masked, ids counted from the
      rank's first vocabulary index. */
  ghost predicate IsColumn(shards: seq<Shard>, r: int, c: int, e: Entry) {
    && 0 <= r < |shards| && 0 <= c < |shards[r].logits| && e.id == shards[r].start + c
    && e.score == if c + shards[r].pads < |shards[r].logits| then Finite(shards[r].logits[c]) else NegInf
  }

  lemma MaskedColumn(shards: seq<Shard>, r: nat, e: Entry)
    requires r < |shards|
    ensures e in AllOf(shards[r]) <==> exists c :: IsColumn(shards, r, c, e)
  {
    var m := Masked(shards[r]);
    if e in AllOf(shards[r]) {
      var c :| 0 <= c < |m| && m[c] == e;
      assert IsColumn(shards, r, c, e);
    }
    if c :| IsColumn(shards, r, c, e) {
      assert m[c] == e;
    }
  }

  /** The columns hold each rank's masked logits under their vocabulary ids, and nothing else. */
  lemma {:induction false} ColumnsAre(shards: seq<Shard>, n: nat, e: Entry)
    requires n <= |shards|
    ensures e in Columns(shards, n) <==> exists r, c :: r < n && IsColumn(shards, r, c, e)
  {
    hide AllOf;
    if n > 0 {
      ColumnsAre(shards, n - 1, e);
      MaskedColumn(shards, n - 1, e);
      assert Columns(shards, n) == Columns(shards, n - 1) + AllOf(shards[n - 1]);
      assert e in Columns(shards, n) <==> e in Columns(shards, n - 1) || e in AllOf(shards[n - 1]);
    }
  }

  /** None is lost or counted twice. */
  lemma {:induction false} ColumnCount(shards: seq<Shard>, n: nat)
    requires n <= |shards|
    ensures |Columns(shards, n)| == LogitCount(shards, n)
  {
    if n > 0 { ColumnCount(shards, n - 1); }
  }

  ghost function LogitCount(shards: seq<Shard>, n: nat): nat
    requires n <= |shards|
  {
    if n == 0 then 0 else LogitCount(shards, n - 1) + |shards[n - 1].logits|
  }

  lemma SplitSum(a: multiset<Entry>, b: multiset<Entry>, x: multiset<Entry>, y: multiset<Entry>)
    requires Splits(a, x) && Splits(b, y)
    ensures Splits(a + b, x + y)
  {
    assert (a + b) - (x + y) == (a - x) + (b - y);
  }

  /** Masked columns are taken exactly when the vocabulary has fewer than `k` entries, and otherwise they
      do not disturb the selection. */
  lemma PadsNeverTaken(k: nat, all: multiset<Entry>, real': multiset<Entry>, best: multiset<Entry>)
    requires Largest(Rank, k, all, best) && Splits(all, real') && k <= |all|
    ensures NoPads(best) <==> k <= |real'|
    ensures k <= |real'| ==> Largest(Rank, k, real', best)
  {
    if NoPads(best) {
      FiniteAreReal(all, real', best);
      SizeOfPart(real', best);
    } else if k <= |real'| {
      var t :| t in best && t.score.NegInf?;
      assert !(real' <= best) by {
        assert real' <= best ==> best == real' + (best - real') && t in best - real';
      }
      var s := Surplus(real', best);
      hide Largest;
      AboveIsFinite(k, all, real', best, t, s);
    }
  }

  lemma AboveIsFinite(k: nat, all: multiset<Entry>, real': multiset<Entry>, best: multiset<Entry>, t: Entry, s: Entry)
    requires Largest(Rank, k, all, best) && Splits(all, real') && t in best && real'[s] > best[s]
    ensures t.score.Finite?
  {
    assert s in all - best && s in real';
  }

  lemma FiniteAreReal(all: multiset<Entry>, real': multiset<Entry>, best: multiset<Entry>)
    requires best <= all && Splits(all, real') && NoPads(best)
    ensures best <= real'
  {
    forall e | e in best
      ensures best[e] <= real'[e]
    {
      if all[e] > real'[e] { assert e in all - real'; }
    }
  }

  // ---------------------------------------------------------------- the reduction

  /** Scale and soft cap, applied to the selected values only. */
  function Finish(scale: real, softCap: Option<real>, tanh: real -> real, v: real): real
    requires softCap.Some? ==> softCap.value != 0.0
  {
    if softCap.Some? then tanh(v * scale / softCap.value) * softCap.value else v * scale
  }

  /** A masked entry stays minus infinity, or reaches the lower end of the cap. */
  function FinishScore(scale: real, softCap: Option<real>, tanh: real -> real, s: Score): Score
    requires softCap.Some? ==> softCap.value != 0.0
  {
    if s.Finite? then Finite(Finish(scale, softCap, tanh, s.v))
    else if softCap.Some? then Finite(-softCap.value) else NegInf
  }

  /** The value returned for a score: scaled, and under a soft cap drawn through `tanh` into the cap. */
  ghost predicate IsFinished(scale: real, softCap: Option<real>, tanh: real -> real, s: Score, out: Score) {
    match softCap
    case None => if s.Finite? then out == Finite(s.v * scale) else out == NegInf
    case Some(c) =>
      if s.Finite? then exists z :: IsCapped(scale, c, tanh, s.v, z, out) else out == Finite(-c)
  }

  ghost predicate IsCapped(scale: real, c: real, tanh: real -> real, v: real, z: real, out: Score) {
    z * c == v * scale && out == Finite(tanh(z) * c)
  }

  lemma FinishScoreIs(scale: real, softCap: Option<real>, tanh: real -> real, s: Score)
    requires softCap.Some? ==> softCap.value != 0.0
    ensures IsFinished(scale, softCap, tanh, s, FinishScore(scale, softCap, tanh, s))
  {
    if s.Finite? && softCap.Some? {
      CappedAt(scale, softCap.value, tanh, s.v);
    }
  }

  lemma CappedAt(scale: real, c: real, tanh: real -> real, v: real)
    requires c != 0.0
    ensures IsCapped(scale, c, tanh, v, v * scale / c, Finite(Finish(scale, Some(c), tanh, v)))
  {
    Quotient(v * scale, c);
  }

  lemma Quotient(a: real, c: real)
    requires c != 0.0
    ensures a / c * c == a
  {
  }

  ghost predicate FromColumn(shards: seq<Shard>, e: Entry) {
    exists r, c :: IsColumn(shards, r, c, e)
  }

  /** The columns returned: each a column of some rank, in descending order, none that is left out above any. */
  ghost predicate TopColumns(shards: seq<Shard>, best: seq<Entry>) {
    && (forall i :: 0 <= i < |best| ==> FromColumn(shards, best[i]))
    && (forall r, c, e, i :: IsColumn(shards, r, c, e) && e !in best && 0 <= i < |best| ==>
          AtLeast(best[i].score, e.score))
    && (forall i, j :: 0 <= i < j < |best| ==> AtLeast(best[i].score, best[j].score))
  }

  lemma {:induction false} LargestAreTop(shards: seq<Shard>, k: nat, best: seq<Entry>)
    requires Largest(Rank, k, Columns(shards, |shards|), multiset(best)) && Descending(Rank, best)
    ensures TopColumns(shards, best)
  {
    var all := Columns(shards, |shards|);
    forall i | 0 <= i < |best|
      ensures FromColumn(shards, best[i])
    {
      assert best[i] in multiset(best) && best[i] in all;
      ColumnsAre(shards, |shards|, best[i]);
    }
    forall r, c, e, i | IsColumn(shards, r, c, e) && e !in best && 0 <= i < |best|
      ensures AtLeast(best[i].score, e.score)
    {
      ColumnsAre(shards, |shards|, e);
      assert e in all - multiset(best) && best[i] in multiset(best);
      assert Le(Rank(e), Rank(best[i]));
      LeIs(e.score, best[i].score);
    }
    forall i, j | 0 <= i < j < |best|
      ensures AtLeast(best[i].score, best[j].score)
    {
      assert Le(Rank(best[j]), Rank(best[i]));
      LeIs(best[j].score, best[i].score);
    }
  }

  /** `None` is the source's error: a scale that is not positive, or fewer columns than `k` on some rank. */
  method GetTopKTokens(shards: seq<Shard>, k: nat, scale: real, softCap: Option<real>, tanh: real -> real)
    returns (r: Option<(seq<nat>, seq<Score>)>, ghost best: seq<Entry>)
    requires shards != [] && forall i :: 0 <= i < |shards| ==> shards[i].pads <= |shards[i].logits|
    requires softCap.Some? ==> softCap.value != 0.0
    ensures r.Some? <==> scale > 0.0 && forall i :: 0 <= i < |shards| ==> k <= |shards[i].logits|
    ensures r.Some? ==>
              |best| == k && Descending(Rank, best)
              && Largest(Rank, k, Columns(shards, |shards|), multiset(best))
    ensures r.Some? ==> TopColumns(shards, best)
    ensures r.Some? ==> |r.value.0| == |r.value.1| == k
    ensures r.Some? ==> forall i :: 0 <= i < k ==>
              r.value.0[i] == best[i].id
              && IsFinished(scale, softCap, tanh, best[i].score, r.value.1[i])
  {
    hide Largest, Masked, FinishScore, IsFinished, TopColumns;
    best := [];
    if scale <= 0.0 {
      return None, best;
    }
    for i := 0 to |shards|
      invariant forall j :: 0 <= j < i ==> k <= |shards[j].logits|
    {
      if |shards[i].logits| < k { return None, best; }
    }
    var parts := LocalTops(shards, k);
    var gathered: seq<Entry> := [];
    for i := 0 to |parts|
      invariant gathered == Concat(parts, i) && (i > 0 ==> |gathered| >= k)
    {
      gathered := gathered + parts[i];
    }
    var top := Select(Rank, gathered, k);
    GatheredIsEnough(shards, k, parts, multiset(top));
    best := top;
    LargestAreTop(shards, k, best);
    forall i | 0 <= i < k
      ensures IsFinished(scale, softCap, tanh, top[i].score, FinishScore(scale, softCap, tanh, top[i].score))
    {
      FinishScoreIs(scale, softCap, tanh, top[i].score);
    }
    r := Some((seq(k, i requires 0 <= i < k => top[i].id),
               seq(k, i requires 0 <= i < k => FinishScore(scale, softCap, tanh, top[i].score))));
  }

  method LocalTops(shards: seq<Shard>, k: nat) returns (parts: seq<seq<Entry>>)
    requires forall i :: 0 <= i < |shards| ==> k <= |shards[i].logits|
    ensures |parts| == |shards|
    ensures forall i :: 0 <= i < |shards| ==> |parts[i]| == k && Largest(Rank, k, AllOf(shards[i]), multiset(parts[i]))
  {
    hide Largest, Masked;
    parts := [];
    for i := 0 to |shards|
      invariant |parts| == i
      invariant forall j :: 0 <= j < i ==> |parts[j]| == k && Largest(Rank, k, AllOf(shards[j]), multiset(parts[j]))
    {
      var top := Select(Rank, Masked(shards[i]), k);
      assert Largest(Rank, k, AllOf(shards[i]), multiset(top));
      parts := parts + [top];
    }
  }

  ghost function Locals(shards: seq<Shard>): (r: seq<multiset<Entry>>)
    ensures |r| == |shards|
  {
    seq(|shards|, i requires 0 <= i < |shards| => AllOf(shards[i]))
  }

  lemma {:induction false} ColumnsAreUnion(shards: seq<Shard>, n: nat)
    requires n <= |shards|
    ensures Columns(shards, n) == Union(Locals(shards), n)
  {
    hide AllOf;
    if n > 0 { ColumnsAreUnion(shards, n - 1); }
  }

  lemma GatheredIsEnough(shards: seq<Shard>, k: nat, parts: seq<seq<Entry>>, best: multiset<Entry>)
    requires |parts| == |shards| && Largest(Rank, k, multiset(Concat(parts, |parts|)), best)
    requires forall i :: 0 <= i < |shards| ==> Largest(Rank, k, AllOf(shards[i]), multiset(parts[i]))
    ensures Largest(Rank, k, Columns(shards, |shards|), best)
  {
    hide *;
    var capacities, saw := seq(|parts|, _ => k), Locals(shards);
    forall i | 0 <= i < |parts|
      ensures k <= capacities[i] && Largest(Rank, capacities[i], saw[i], multiset(parts[i]))
    {
      LocalAt(shards, i);
    }
    ShardsMerge(Rank, k, capacities, saw, parts, best);
    ColumnsAreUnion(shards, |shards|);
  }

  lemma LocalAt(shards: seq<Shard>, i: nat)
    requires i < |shards|
    ensures Locals(shards)[i] == AllOf(shards[i])
  {
  }

  /** The answer is the top-k of the vocabulary, by logit and by finished value, when the vocabulary has `k` entries. */
  lemma ReturnsGlobalTopK(shards: seq<Shard>, k: nat, best: multiset<Entry>, finish: real -> real)
    requires forall i :: 0 <= i < |shards| ==> shards[i].pads <= |shards[i].logits|
    requires Largest(Rank, k, Columns(shards, |shards|), best) && k <= |Vocabulary(shards, |shards|)|
    requires forall a, b :: a <= b ==> finish(a) <= finish(b)
    ensures Largest(Rank, k, Vocabulary(shards, |shards|), best)
    ensures Largest((e: Entry) => Finished(finish, e.score), k, Vocabulary(shards, |shards|), best)
  {
    hide Largest, Vocabulary, Columns, AllPads, NoPads;
    GatheredSplits(shards, |shards|);
    SizeOfPart(Columns(shards, |shards|), Vocabulary(shards, |shards|));
    PadsNeverTaken(k, Columns(shards, |shards|), Vocabulary(shards, |shards|), best);
    SameOrder(k, Vocabulary(shards, |shards|), best, finish);
  }

  lemma SameOrder(k: nat, all: multiset<Entry>, best: multiset<Entry>, finish: real -> real)
    requires Largest(Rank, k, all, best) && forall a, b :: a <= b ==> finish(a) <= finish(b)
    ensures Largest((e: Entry) => Finished(finish, e.score), k, all, best)
  {
    forall t, s | t in best && s in all - best
      ensures Le(Finished(finish, s.score), Finished(finish, t.score))
    {
      assert Le(Rank(s), Rank(t));
    }
  }

  ghost function Finished(finish: real -> real, s: Score): Score {
    if s.Finite? then Finite(finish(s.v)) else NegInf
  }

  /** Scaling by a positive factor and capping with a rising `tanh` keep the order. */
  lemma FinishIsMonotone(scale: real, softCap: Option<real>, tanh: real -> real, a: real, b: real)
    requires scale > 0.0 && (softCap.Some? ==> softCap.value > 0.0) && a <= b
    requires forall x, y :: x <= y ==> tanh(x) <= tanh(y)
    ensures Finish(scale, softCap, tanh, a) <= Finish(scale, softCap, tanh, b)
  {
    ProdMono(a, b, scale);
    if softCap.Some? {
      Divided(a * scale, b * scale, softCap.value);
      ProdMono(tanh(a * scale / softCap.value), tanh(b * scale / softCap.value), softCap.value);
    }
  }

  lemma Divided(a: real, b: real, s: real)
    requires a <= b && s > 0.0
    ensures a / s <= b / s
  {
    var d := a / s - b / s;
    assert d * s == a / s * s - b / s * s == a - b;
    PositiveTimes(d, s);
  }

  lemma PositiveTimes(d: real, s: real)
    requires s > 0.0
    ensures d > 0.0 ==> d * s > 0.0
  {
  }
}
