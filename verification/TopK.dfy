/** Mergeable top-k: the largest of a union are among the largest of the parts. Used by the sampling
    reservoir, by the merge of its shards, and by the vocabulary-parallel top-k. */
module TopK {
  import opened Arith

  /** A score that a masked entry may not have. */
  datatype Score = NegInf | Finite(v: real)

  predicate Le(a: Score, b: Score) {
    a.NegInf? || (b.Finite? && a.v <= b.v)
  }

  /** A score that is no lower. */
  ghost predicate AtLeast(a: Score, b: Score) {
    b.Finite? ==> a.Finite? && a.v >= b.v
  }

  lemma LeIs(a: Score, b: Score)
    ensures Le(a, b) <==> AtLeast(b, a)
  {
  }

  function Min(a: nat, b: nat): nat {
    if a < b then a else b
  }

  /** `best` is `k` of `all` (everything when there are fewer) and nothing left out outranks anything kept. */
  ghost predicate Largest<T>(rank: T -> Score, k: nat, all: multiset<T>, best: multiset<T>) {
    && best <= all && |best| == Min(k, |all|)
    && forall t, s :: t in best && s in all - best ==> Le(rank(s), rank(t))
  }

  /** With distinct ranks there is only one answer. */
  lemma LargestUnique<T>(rank: T -> Score, k: nat, all: multiset<T>, x: multiset<T>, y: multiset<T>)
    requires Largest(rank, k, all, x) && Largest(rank, k, all, y)
    requires forall s, t :: s in all && t in all && rank(s) == rank(t) ==> s == t
    ensures x == y
  {
    assert |x| == |y|;
    hide Largest;
    if x != y {
      var a := Surplus(x, y);
      var b := Surplus(y, x);
      SameRank(rank, k, all, x, y, a, b);
    }
  }

  lemma SameRank<T>(rank: T -> Score, k: nat, all: multiset<T>, x: multiset<T>, y: multiset<T>, a: T, b: T)
    requires Largest(rank, k, all, x) && Largest(rank, k, all, y) && x[a] > y[a] && y[b] > x[b]
    ensures a in all && b in all && rank(a) == rank(b)
  {
    assert a in x && b in y && a in all - y && b in all - x;
  }

  lemma Surplus<T>(x: multiset<T>, y: multiset<T>) returns (a: T)
    requires |x| >= |y| && x != y
    ensures x[a] > y[a]
  {
    assert x <= y ==> y == x + (y - x);
    a :| x[a] > y[a];
  }

  /** The `k` largest of two parts together are the `k` largest of what the parts kept, when each kept at least `k`. */
  lemma Merge<T>(rank: T -> Score, k: nat, c: nat, d: nat, a: multiset<T>, a': multiset<T>, b: multiset<T>,
                 b': multiset<T>, best: multiset<T>)
    requires k <= c && k <= d && Largest(rank, c, a, a') && Largest(rank, d, b, b') && Largest(rank, k, a' + b', best)
    ensures Largest(rank, k, a + b, best)
  {
    SizeOfPart(a, a');
    SizeOfPart(b, b');
    forall t, s | t in best && s in (a + b) - best
      ensures Le(rank(s), rank(t))
    {
      if s !in (a' + b') - best {
        if s in a - a' {
          MergeStep(rank, k, c, a, a', a' + b', best, t, s);
        } else {
          assert s in b - b';
          MergeStep(rank, k, d, b, b', a' + b', best, t, s);
        }
      }
    }
  }

  lemma SizeOfPart<T>(a: multiset<T>, b: multiset<T>)
    requires b <= a
    ensures |a| == |b| + |a - b|
  {
    assert a == b + (a - b);
  }

  lemma MergeStep<T>(rank: T -> Score, k: nat, c: nat, a: multiset<T>, a': multiset<T>, pool: multiset<T>,
                     best: multiset<T>, t: T, s: T)
    requires k <= c && Largest(rank, c, a, a') && a' <= pool && Largest(rank, k, pool, best) && t in best && s in a - a'
    ensures Le(rank(s), rank(t))
  {
    SizeOfPart(a, a');
    if t !in a' {
      assert !(a' <= best) by {
        assert a' <= best ==> best == a' + (best - a') && t in best - a';
      }
      var x := Surplus(a', best);
      assert x in pool - best && x in a';
    }
  }

  // ---------------------------------------------------------------- selecting

  ghost predicate Descending<T>(rank: T -> Score, xs: seq<T>) {
    forall i, j :: 0 <= i < j < |xs| ==> Le(rank(xs[j]), rank(xs[i]))
  }

  /** The `k` largest, in descending order. */
  method Select<T>(rank: T -> Score, xs: seq<T>, k: nat) returns (out: seq<T>)
    ensures Largest(rank, k, multiset(xs), multiset(out)) && Descending(rank, out)
    ensures |out| == Min(k, |xs|)
  {
    hide Largest;
    out := [];
    assert xs[..0] == [] && multiset(xs[..0]) == multiset(out);
    LargestOfNone(rank, k);
    for i := 0 to |xs|
      invariant Largest(rank, k, multiset(xs[..i]), multiset(out)) && Descending(rank, out) && |out| == Min(k, i)
    {
      ghost var before := out;
      out := Insert(rank, out, xs[i]);
      KeepsLargest(rank, k, multiset(xs[..i]), multiset(before), xs[i], out);
      if |out| > k {
        out := out[..k];
      } else {
        assert out[..|out|] == out;
      }
      assert xs[..i + 1] == xs[..i] + [xs[i]];
      assert multiset(xs[..i + 1]) == multiset(xs[..i]) + multiset{xs[i]};
    }
    assert xs[..|xs|] == xs;
  }

  lemma LargestOfNone<T>(rank: T -> Score, k: nat)
    ensures Largest<T>(rank, k, multiset{}, multiset{})
  {
  }

  method Insert<T>(rank: T -> Score, xs: seq<T>, x: T) returns (out: seq<T>)
    requires Descending(rank, xs)
    ensures Descending(rank, out) && multiset(out) == multiset(xs) + multiset{x} && |out| == |xs| + 1
  {
    var p := 0;
    while p < |xs| && Le(rank(x), rank(xs[p]))
      invariant p <= |xs| && forall j :: 0 <= j < p ==> Le(rank(x), rank(xs[j]))
    {
      p := p + 1;
    }
    assert xs == xs[..p] + xs[p..];
    out := xs[..p] + [x] + xs[p..];
    Spliced(rank, xs, p, x);
  }

  lemma Spliced<T>(rank: T -> Score, xs: seq<T>, p: nat, x: T)
    requires Descending(rank, xs) && p <= |xs|
    requires forall j :: 0 <= j < p ==> Le(rank(x), rank(xs[j]))
    requires p < |xs| ==> !Le(rank(x), rank(xs[p]))
    ensures Descending(rank, xs[..p] + [x] + xs[p..])
  {
    forall j | p <= j < |xs|
      ensures Le(rank(xs[j]), rank(x))
    {
      assert j > p ==> Le(rank(xs[j]), rank(xs[p]));
    }
    hide Le;
    var out := xs[..p] + [x] + xs[p..];
    assert forall j :: 0 <= j < p ==> out[j] == xs[j];
    assert forall j :: p < j < |out| ==> out[j] == xs[j - 1];
  }

  lemma KeepsLargest<T>(rank: T -> Score, k: nat, seen: multiset<T>, kept: multiset<T>, x: T, pool: seq<T>)
    requires Largest(rank, k, seen, kept) && multiset(pool) == kept + multiset{x} && Descending(rank, pool)
    ensures Largest(rank, k, seen + multiset{x}, multiset(pool[..Min(k, |pool|)]))
  {
    Prefix(rank, pool, Min(k, |pool|));
    assert |pool| == |multiset(pool)|;
    Merge(rank, k, k, k + 1, seen, kept, multiset{x}, multiset{x}, multiset(pool[..Min(k, |pool|)]));
  }

  /** The front of a descending sequence is its largest. */
  lemma Prefix<T>(rank: T -> Score, xs: seq<T>, k: nat)
    requires Descending(rank, xs) && k <= |xs|
    ensures Largest(rank, k, multiset(xs), multiset(xs[..k]))
  {
    assert xs == xs[..k] + xs[k..];
    assert multiset(xs) - multiset(xs[..k]) == multiset(xs[k..]);
    forall t, s | t in multiset(xs[..k]) && s in multiset(xs[k..])
      ensures Le(rank(s), rank(t))
    {
      assert t in xs[..k] && s in xs[k..];
    }
  }

  // ---------------------------------------------------------------- the reservoir

  datatype Sample<V> = Sample(priority: real, value: V)

  function Priority<V>(s: Sample<V>): Score {
    Finite(s.priority)
  }

  function Drawn<V>(values: seq<V>, draws: seq<real>): (r: seq<Sample<V>>)
    requires |values| == |draws|
    ensures |r| == |values|
  {
    seq(|values|, i requires 0 <= i < |values| => Sample(draws[i], values[i]))
  }

  /** The rows that partial sorting keeps; only which rows, as it leaves their order open. NumPy's `[-0:]` is the
      whole array, so a limit of zero keeps everything. */
  method KeepLargest<V>(rows: seq<Sample<V>>, limit: nat) returns (kept: seq<Sample<V>>)
    ensures |rows| <= limit ==> kept == rows
    ensures limit == 0 ==> multiset(kept) == multiset(rows)
    ensures limit > 0 ==> Largest(Priority<V>, limit, multiset(rows), multiset(kept))
  {
    kept := rows;
    if |rows| > limit && limit > 0 {
      kept := Select(Priority<V>, rows, limit);
    }
  }

  /** Rows kept of a larger multiset: no row left out drew a higher priority than one kept. */
  ghost predicate Highest<V>(all: multiset<Sample<V>>, kept: multiset<Sample<V>>) {
    kept <= all && forall t, s :: t in kept && s in all - kept ==> s.priority <= t.priority
  }

  lemma LargestAreHighest<V>(k: nat, all: multiset<Sample<V>>, kept: multiset<Sample<V>>)
    requires Largest(Priority<V>, k, all, kept)
    ensures Highest(all, kept)
  {
    forall t, s | t in kept && s in all - kept
      ensures s.priority <= t.priority
    {
      assert Le(Priority(s), Priority(t));
    }
  }

  /** Each value under the priority it drew. */
  ghost predicate Pairs<V>(values: seq<V>, draws: seq<real>, rows: seq<Sample<V>>) {
    |rows| == |values| == |draws| && forall i :: 0 <= i < |rows| ==> rows[i] == Sample(draws[i], values[i])
  }

  class PriorityReservoir<V> {
    const capacity: nat
    var rows: seq<Sample<V>>
    var seen: nat
    /** Everything ever added, with the priority it drew. */
    ghost var history: multiset<Sample<V>>

    ghost predicate Valid()
      reads this
    {
      capacity > 0 && seen == |history| && Largest(Priority<V>, capacity, history, multiset(rows))
    }

    constructor (capacity: nat)
      requires capacity > 0
      ensures Valid() && this.capacity == capacity && history == multiset{}
    {
      this.capacity, rows, seen, history := capacity, [], 0, multiset{};
    }

    /** However a stream is cut into calls, the retained rows are the largest of all of it. */
    method Add(values: seq<V>, draws: seq<real>)
      requires Valid() && |draws| == |values|
      modifies this
      ensures Valid() && history == old(history) + multiset(Drawn(values, draws))
      ensures seen == old(seen) + |values| && |rows| == Min(capacity, seen)
      ensures Pairs(values, draws, Drawn(values, draws)) && Highest(history, multiset(rows))
    {
      var fresh' := Drawn(values, draws);
      hide Highest;
      if values == [] {
        assert multiset(fresh') == multiset{};
        LargestAreHighest(capacity, history, multiset(rows));
        return;
      }
      seen := seen + |values|;
      ghost var before := rows;
      rows := KeepLargest(rows + fresh', capacity);
      assert multiset(before + fresh') == multiset(before) + multiset(fresh');
      Merge(Priority<V>, capacity, capacity, capacity + |fresh'|, history, multiset(before), multiset(fresh'),
            multiset(fresh'), multiset(rows));
      history := history + multiset(fresh');
      LargestAreHighest(capacity, history, multiset(rows));
    }
  }

  ghost function Union<T>(parts: seq<multiset<T>>, n: nat): multiset<T>
    requires n <= |parts|
  {
    if n == 0 then multiset{} else Union(parts, n - 1) + parts[n - 1]
  }

  function Concat<T>(parts: seq<seq<T>>, n: nat): seq<T>
    requires n <= |parts|
  {
    if n == 0 then [] else Concat(parts, n - 1) + parts[n - 1]
  }

  /** One stratum's shards, concatenated and cut to the limit. */
  method LoadStratum<V>(shards: seq<seq<Sample<V>>>, limit: nat) returns (rows: seq<Sample<V>>)
    ensures limit > 0 ==> Largest(Priority<V>, limit, multiset(Concat(shards, |shards|)), multiset(rows))
    ensures limit == 0 ==> multiset(rows) == multiset(Concat(shards, |shards|))
    ensures limit > 0 ==> Highest(multiset(Concat(shards, |shards|)), multiset(rows))
  {
    hide Highest, Largest;
    var all: seq<Sample<V>> := [];
    for i := 0 to |shards|
      invariant all == Concat(shards, i)
    {
      all := all + shards[i];
    }
    rows := KeepLargest(all, limit);
    if limit > 0 { LargestAreHighest(limit, multiset(all), multiset(rows)); }
  }

  /** One part may be replaced by everything it was cut from. */
  lemma Widen<T>(rank: T -> Score, k: nat, c: nat, a: multiset<T>, a': multiset<T>, rest: multiset<T>,
                 best: multiset<T>)
    requires k <= c && Largest(rank, c, a, a') && Largest(rank, k, a' + rest, best)
    ensures Largest(rank, k, a + rest, best)
  {
    Merge(rank, k, c, k + |rest|, a, a', rest, rest, best);
  }

  lemma {:induction false} ShardsWiden<T>(rank: T -> Score, limit: nat, capacities: seq<nat>, saw: seq<multiset<T>>,
                                          shards: seq<seq<T>>, n: nat, rest: multiset<T>, best: multiset<T>)
    requires |capacities| == |saw| == |shards| && n <= |shards|
    requires forall i :: 0 <= i < |shards| ==>
               limit <= capacities[i]
               && Largest(rank, capacities[i], saw[i], multiset(shards[i]))
    requires Largest(rank, limit, multiset(Concat(shards, n)) + rest, best)
    ensures Largest(rank, limit, Union(saw, n) + rest, best)
  {
    hide Largest;
    if n == 0 {
      assert multiset(Concat(shards, 0)) == Union(saw, 0);
    } else {
      var shard := multiset(shards[n - 1]);
      assert multiset(Concat(shards, n)) + rest == multiset(Concat(shards, n - 1)) + (shard + rest);
      ShardsWiden(rank, limit, capacities, saw, shards, n - 1, shard + rest, best);
      assert Union(saw, n - 1) + (shard + rest) == shard + (Union(saw, n - 1) + rest);
      Widen(rank, limit, capacities[n - 1], saw[n - 1], shard, Union(saw, n - 1) + rest, best);
      assert saw[n - 1] + (Union(saw, n - 1) + rest) == Union(saw, n) + rest;
    }
  }

  /** Shards that each kept the largest `capacities[i]` of what they saw, with a limit within every capacity,
      give the largest of everything any of them saw. */
  lemma ShardsMerge<T>(rank: T -> Score, limit: nat, capacities: seq<nat>, saw: seq<multiset<T>>, shards: seq<seq<T>>,
                       best: multiset<T>)
    requires |capacities| == |saw| == |shards|
    requires forall i :: 0 <= i < |shards| ==>
               limit <= capacities[i]
               && Largest(rank, capacities[i], saw[i], multiset(shards[i]))
    requires Largest(rank, limit, multiset(Concat(shards, |shards|)), best)
    ensures Largest(rank, limit, Union(saw, |saw|), best)
  {
    assert multiset(Concat(shards, |shards|)) + multiset{} == multiset(Concat(shards, |shards|));
    ShardsWiden(rank, limit, capacities, saw, shards, |shards|, multiset{}, best);
    assert Union(saw, |saw|) + multiset{} == Union(saw, |saw|);
  }

  // ---------------------------------------------------------------- strided sampling of one call

  /** At most `perCall` groups of a call, evenly spaced from a moving offset. */
  function Stride(total: nat, perCall: nat): Pos
    requires total > 0 && perCall > 0
  {
    if total / Min(total, perCall) > 1 then total / Min(total, perCall) else 1
  }

  function SampleIndex(total: nat, perCall: nat, moving: nat, i: nat): nat
    requires total > 0 && perCall > 0 && i < Min(total, perCall)
  {
    var stride := Stride(total, perCall);
    var index := moving % stride + i * stride;
    if index > total - 1 then total - 1 else index
  }

  /** The spacing is the widest with which that many groups fit the call: as many as the call has, or `perCall`. */
  lemma StrideIsWidest(total: nat, perCall: nat)
    requires total > 0 && perCall > 0
    ensures var n := if total <= perCall then total else perCall;
            n == Min(total, perCall) && n * Stride(total, perCall) <= total < n * (Stride(total, perCall) + 1)
  {
    var n := Min(total, perCall);
    var q := total / n;
    assert total == q * n + total % n && q * n == n * q && n * (q + 1) == n * q + n;
    DivMono(n, total, n);
    DivModUnique(n, n, 1, 0);
  }

  /** The clamp never acts: even the last index, and that of a single sample, lies below the total as it is. */
  lemma ClampNeverActs(total: nat, perCall: nat, moving: nat, j: nat)
    requires total > 0 && perCall > 0 && j < Min(total, perCall)
    ensures moving % Stride(total, perCall) + j * Stride(total, perCall) < total
    ensures SampleIndex(total, perCall, moving, j) == moving % Stride(total, perCall) + j * Stride(total, perCall)
  {
    var n, stride := Min(total, perCall), Stride(total, perCall);
    assert n * stride <= total by { assert total == (total / n) * n + total % n; }
    MulGap(j, n, stride);
  }

  /** No group is taken twice. */
  lemma SampledOnce(total: nat, perCall: nat, moving: nat, i: nat, j: nat)
    requires total > 0 && perCall > 0 && i < j < Min(total, perCall)
    ensures SampleIndex(total, perCall, moving, i) < SampleIndex(total, perCall, moving, j) < total
  {
    ClampNeverActs(total, perCall, moving, i);
    ClampNeverActs(total, perCall, moving, j);
    hide *;
    MulGap(i, j, Stride(total, perCall));
  }
}
