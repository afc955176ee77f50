/** The tile cost model of expert assignment: static round robin, greedy by earliest free group, and a
    bound no assignment can beat. */
module ListScheduling {
  import opened Arith

  datatype Report = NoGroups | Report(roundRobin: seq<nat>, roundRobinMakespan: nat, greedyMakespan: nat,
                                      lowerBound: real)

  // ---------------------------------------------------------------- costs and loads

  /** Active experts in order, in tiles of 16 rows; counts over the cap are handled elsewhere. */
  function Costs(counts: seq<int>, cap: int, n: nat): (r: seq<nat>)
    requires n <= |counts|
    ensures |r| <= n
  {
    if n == 0 then []
    else Costs(counts, cap, n - 1) + if 0 < counts[n - 1] <= cap then [(counts[n - 1] + 15) / 16] else []
  }

  /** The experts the fused kernel handles, by place. */
  ghost function Active(counts: seq<int>, cap: int, n: nat): set<nat>
    requires n <= |counts|
  {
    set i: nat | i < n && 0 < counts[i] <= cap
  }

  /** Expert `i` is the one behind cost number `|Active(i)|`, which is the least number of tiles of 16 rows that hold
      its rows. */
  ghost predicate CostsOf(counts: seq<int>, cap: int, i: nat, costs: seq<nat>)
    requires i < |counts|
  {
    var j := |Active(counts, cap, i)|;
    j < |costs| && 16 * (costs[j] - 1) < counts[i] <= 16 * costs[j]
  }

  /** There is one cost for each active expert, in order, and none for others. */
  lemma {:induction false} CostsAreTiles(counts: seq<int>, cap: int, n: nat)
    requires n <= |counts|
    ensures |Costs(counts, cap, n)| == |Active(counts, cap, n)|
    ensures forall i :: 0 <= i < n && 0 < counts[i] <= cap ==> CostsOf(counts, cap, i, Costs(counts, cap, n))
  {
    NextActive(counts, cap, n);
    if n > 0 {
      CostsAreTiles(counts, cap, n - 1);
      hide Active;
      var before, tiles := Costs(counts, cap, n - 1), (counts[n - 1] + 15) / 16;
      forall i | 0 <= i < n && 0 < counts[i] <= cap
        ensures CostsOf(counts, cap, i, Costs(counts, cap, n))
      {
        if i < n - 1 {
          assert CostsOf(counts, cap, i, before);
        } else {
          assert Costs(counts, cap, n) == before + [tiles];
        }
      }
    }
  }

  lemma NextActive(counts: seq<int>, cap: int, n: nat)
    requires n <= |counts|
    ensures n == 0 ==> |Active(counts, cap, n)| == 0
    ensures n > 0 ==>
              |Active(counts, cap, n)| == |Active(counts, cap, n - 1)| + if 0 < counts[n - 1] <= cap then 1 else 0
  {
    if n == 0 {
      assert Active(counts, cap, 0) == {};
    } else if 0 < counts[n - 1] <= cap {
      assert Active(counts, cap, n) == Active(counts, cap, n - 1) + {n - 1};
    } else {
      assert Active(counts, cap, n) == Active(counts, cap, n - 1);
    }
  }

  function Sum(xs: seq<nat>, n: nat): nat
    requires n <= |xs|
  {
    if n == 0 then 0 else Sum(xs, n - 1) + xs[n - 1]
  }

  function Max(xs: seq<nat>, n: nat): (m: nat)
    requires n <= |xs|
    ensures forall i :: 0 <= i < n ==> xs[i] <= m
    ensures m == 0 || exists i :: 0 <= i < n && xs[i] == m
  {
    if n == 0 then 0 else if xs[n - 1] > Max(xs, n - 1) then xs[n - 1] else Max(xs, n - 1)
  }

  function Zeros(groups: nat): (r: seq<nat>)
    ensures |r| == groups
  {
    seq(groups, _ => 0)
  }

  /** The group at the head of the queue: least time, then least number. */
  function Earliest(loads: seq<nat>, n: nat): (g: nat)
    requires 0 < n <= |loads|
    ensures g < n
    ensures forall h :: 0 <= h < n ==> loads[g] < loads[h] || (loads[g] == loads[h] && g <= h)
  {
    if n == 1 then 0
    else if loads[n - 1] < loads[Earliest(loads, n - 1)] then n - 1 else Earliest(loads, n - 1)
  }

  /** Loads after the first `n` items when item `i` goes to group `a[i]`. */
  function Loads(costs: seq<nat>, a: seq<nat>, groups: nat, n: nat): (r: seq<nat>)
    requires n <= |costs| && n <= |a| && forall i :: 0 <= i < |a| ==> a[i] < groups
    ensures |r| == groups
  {
    if n == 0 then Zeros(groups)
    else
      var before := Loads(costs, a, groups, n - 1);
      before[a[n - 1] := before[a[n - 1]] + costs[n - 1]]
  }

  /** The groups that the queue hands out, item by item. */
  function GreedyPlan(costs: seq<nat>, groups: nat, n: nat): (a: seq<nat>)
    requires groups > 0 && n <= |costs|
    ensures |a| == n && forall i :: 0 <= i < n ==> a[i] < groups
  {
    if n == 0 then []
    else
      var before := GreedyPlan(costs, groups, n - 1);
      before + [Earliest(Loads(costs, before, groups, n - 1), groups)]
  }

  function GreedyLoads(costs: seq<nat>, groups: nat, n: nat): (r: seq<nat>)
    requires groups > 0 && n <= |costs|
    ensures |r| == groups
  {
    Loads(costs, GreedyPlan(costs, groups, n), groups, n)
  }

  function CyclePlan(groups: nat, n: nat): (a: seq<nat>)
    requires groups > 0
    ensures |a| == n && forall i :: 0 <= i < n ==> a[i] < groups
  {
    seq(n, i requires 0 <= i < n => i % groups)
  }

  function LowerBound(costs: seq<nat>, groups: nat): (b: real)
    requires groups > 0
  {
    var widest, even := Max(costs, |costs|) as real, Sum(costs, |costs|) as real / groups as real;
    if widest >= even then widest else even
  }

  function Makespan(loads: seq<nat>): nat {
    Max(loads, |loads|)
  }

  /** What the first `n` items cost that go to group `g`. */
  ghost function ShareOf(costs: seq<nat>, a: seq<nat>, g: nat, n: nat): nat
    requires n <= |costs| && n <= |a|
  {
    if n == 0 then 0 else ShareOf(costs, a, g, n - 1) + if a[n - 1] == g then costs[n - 1] else 0
  }

  /** A group's load is what its own items cost. */
  lemma {:induction false} LoadIsShare(costs: seq<nat>, a: seq<nat>, groups: nat, n: nat, g: nat)
    requires n <= |costs| && n <= |a| && g < groups && forall i :: 0 <= i < |a| ==> a[i] < groups
    ensures Loads(costs, a, groups, n)[g] == ShareOf(costs, a, g, n)
  {
    if n > 0 { LoadIsShare(costs, a, groups, n - 1, g); }
  }

  /** Round robin: item `i` goes to group `i` modulo the groups. */
  ghost predicate Cyclic(a: seq<nat>, groups: nat) {
    forall i :: 0 <= i < |a| ==> a[i] < groups && exists round: nat :: i == round * groups + a[i]
  }

  lemma CyclePlanIsCyclic(groups: nat, n: nat)
    requires groups > 0
    ensures Cyclic(CyclePlan(groups, n), groups)
  {
    var a := CyclePlan(groups, n);
    forall i | 0 <= i < |a|
      ensures exists round: nat :: i == round * groups + a[i]
    {
      DivMono(0, i, groups);
      var round: nat := i / groups;
      assert i == round * groups + a[i];
    }
  }

  /** Greedy: each item goes to the group that is free first, the least numbered of several. */
  ghost predicate FreeFirst(loads: seq<nat>, g: nat) {
    g < |loads| && forall h :: 0 <= h < |loads| ==> loads[g] < loads[h] || (loads[g] == loads[h] && g <= h)
  }

  lemma GreedyStep(costs: seq<nat>, groups: nat, n: nat)
    requires groups > 0 && n < |costs|
    ensures GreedyLoads(costs, groups, 0) == seq(groups, _ => 0)
    ensures var before := GreedyLoads(costs, groups, n);
            exists g: nat ::
              FreeFirst(before, g) && GreedyLoads(costs, groups, n + 1) == before[g := before[g] + costs[n]]
  {
    FirstLoads(costs, groups);
    NextLoads(costs, groups, n);
    hide GreedyLoads, Loads, Earliest;
    var before := GreedyLoads(costs, groups, n);
    assert FreeFirst(before, Earliest(before, groups));
  }

  /** The greatest entry: it bounds all and is one of them. */
  ghost predicate IsMax(loads: seq<nat>, m: nat) {
    (forall g :: 0 <= g < |loads| ==> loads[g] <= m) && (loads != [] ==> m in loads)
  }

  /** The larger of the greatest cost and the even share of all costs. */
  ghost predicate IsBound(costs: seq<nat>, groups: nat, b: real) {
    var share := Sum(costs, |costs|) as real;
    && (forall i :: 0 <= i < |costs| ==> costs[i] as real <= b) && share <= groups as real * b
    && ((exists i :: 0 <= i < |costs| && costs[i] as real == b) || share == groups as real * b)
  }

  lemma MakespanIsMax(loads: seq<nat>)
    ensures IsMax(loads, Makespan(loads))
  {
    if loads != [] && Makespan(loads) == 0 { assert loads[0] == 0; }
  }

  lemma BoundIsBound(costs: seq<nat>, groups: nat)
    requires groups > 0
    ensures IsBound(costs, groups, LowerBound(costs, groups))
  {
    hide *;
    BoundCovers(costs, groups);
    MaxAttained(costs);
    BoundAttained(costs, groups);
    var b, share := LowerBound(costs, groups), Sum(costs, |costs|) as real;
    if b == Max(costs, |costs|) as real && costs != [] {
      var i :| 0 <= i < |costs| && costs[i] == Max(costs, |costs|);
      assert costs[i] as real == b;
    }
    Bounds(costs, groups, b);
  }

  lemma Bounds(costs: seq<nat>, groups: nat, b: real)
    requires Max(costs, |costs|) as real <= b && Sum(costs, |costs|) as real <= groups as real * b
    requires (exists i :: 0 <= i < |costs| && costs[i] as real == b)
             || Sum(costs, |costs|) as real == groups as real * b
    ensures IsBound(costs, groups, b)
  {
    hide Sum, Max;
    MaxAttained(costs);
  }

  lemma BoundAttained(costs: seq<nat>, groups: nat)
    requires groups > 0
    ensures LowerBound(costs, groups) == Max(costs, |costs|) as real
            || Sum(costs, |costs|) as real == groups as real * LowerBound(costs, groups)
    ensures costs == [] ==> Sum(costs, |costs|) as real == groups as real * LowerBound(costs, groups)
  {
    hide Sum, Max;
    var sum := Sum(costs, |costs|) as real;
    EvenTimes(sum, groups as real);
    MaxAttained(costs);
    if costs == [] { assert sum / groups as real == 0.0; }
  }

  lemma MaxAttained(costs: seq<nat>)
    ensures costs != [] ==> exists i :: 0 <= i < |costs| && costs[i] == Max(costs, |costs|)
    ensures costs == [] ==> Max(costs, |costs|) == 0 == Sum(costs, |costs|)
    ensures forall i :: 0 <= i < |costs| ==> costs[i] <= Max(costs, |costs|)
  {
    if costs != [] && Max(costs, |costs|) == 0 { assert costs[0] == 0; }
  }

  lemma EvenTimes(sum: real, groups: real)
    requires groups > 0.0
    ensures groups * (sum / groups) == sum
  {
  }

  method ScheduleModel(counts: seq<int>, groups: int, cap: int) returns (r: Report)
    ensures r.NoGroups? <==> groups <= 0
    ensures groups > 0 ==>
              var costs := Costs(counts, cap, |counts|);
              && r.roundRobin == Loads(costs, CyclePlan(groups, |costs|), groups, |costs|)
              && r.roundRobinMakespan == Makespan(r.roundRobin)
              && r.greedyMakespan == Makespan(GreedyLoads(costs, groups, |costs|))
              && r.lowerBound == LowerBound(costs, groups)
    ensures groups > 0 ==> IsMax(r.roundRobin, r.roundRobinMakespan)
    ensures groups > 0 ==>
              var costs := Costs(counts, cap, |counts|);
              && IsMax(GreedyLoads(costs, groups, |costs|), r.greedyMakespan)
              && IsBound(costs, groups, r.lowerBound)
    ensures groups > 0 ==>
              var costs := Costs(counts, cap, |counts|);
              && |r.roundRobin| == groups
              && exists plan :: |plan| == |costs| && Cyclic(plan, groups)
                   && forall g :: 0 <= g < groups ==> r.roundRobin[g] == ShareOf(costs, plan, g, |costs|)
  {
    hide Loads, GreedyLoads, GreedyPlan, CyclePlan, Earliest;
    if groups <= 0 {
      return NoGroups;
    }
    var costs: seq<nat> := [];
    for i := 0 to |counts|
      invariant costs == Costs(counts, cap, i)
    {
      costs := costs + if 0 < counts[i] <= cap then [(counts[i] + 15) / 16] else [];
    }
    FirstLoads(costs, groups);
    var cycle, queue := Zeros(groups), Zeros(groups);
    var sum, widest := 0, 0;
    for i := 0 to |costs|
      invariant |cycle| == |queue| == groups
      invariant cycle == Loads(costs, CyclePlan(groups, |costs|), groups, i)
      invariant queue == GreedyLoads(costs, groups, i)
      invariant sum == Sum(costs, i) && widest == Max(costs, i)
    {
      NextLoads(costs, groups, i);
      cycle := cycle[i % groups := cycle[i % groups] + costs[i]];
      var g := HeapMin(queue);
      queue := queue[g := queue[g] + costs[i]];
      sum := sum + costs[i];
      widest := if costs[i] > widest then costs[i] else widest;
    }
    var top := Widest(queue);
    var cyclic := Widest(cycle);
    var even := sum as real / groups as real;
    r := Report(cycle, cyclic, top, if widest as real >= even then widest as real else even);
    MakespanIsMax(cycle);
    MakespanIsMax(queue);
    BoundIsBound(costs, groups);
    CyclePlanIsCyclic(groups, |costs|);
    ghost var plan := CyclePlan(groups, |costs|);
    forall g | 0 <= g < groups
      ensures cycle[g] == ShareOf(costs, plan, g, |costs|)
    {
      LoadIsShare(costs, plan, groups, |costs|, g);
    }
  }

  method HeapMin(queue: seq<nat>) returns (g: nat)
    requires queue != []
    ensures g == Earliest(queue, |queue|)
  {
    g := 0;
    for h := 1 to |queue|
      invariant g == Earliest(queue, h)
    {
      if queue[h] < queue[g] { g := h; }
    }
  }

  method Widest(loads: seq<nat>) returns (m: nat)
    ensures m == Makespan(loads)
  {
    m := 0;
    for h := 0 to |loads|
      invariant m == Max(loads, h)
    {
      if loads[h] > m { m := loads[h]; }
    }
  }

  lemma {:induction false} PlanExtends(costs: seq<nat>, a: seq<nat>, b: seq<nat>, groups: nat, n: nat)
    requires n <= |costs| && n <= |a| && n <= |b| && a[..n] == b[..n]
    requires (forall i :: 0 <= i < |a| ==> a[i] < groups) && forall i :: 0 <= i < |b| ==> b[i] < groups
    ensures Loads(costs, a, groups, n) == Loads(costs, b, groups, n)
  {
    if n > 0 {
      assert a[..n - 1] == a[..n][..n - 1] && b[..n - 1] == b[..n][..n - 1];
      assert a[n - 1] == a[..n][n - 1] == b[n - 1];
      PlanExtends(costs, a, b, groups, n - 1);
    }
  }

  lemma FirstLoads(costs: seq<nat>, groups: nat)
    requires groups > 0
    ensures Loads(costs, CyclePlan(groups, |costs|), groups, 0) == GreedyLoads(costs, groups, 0) == Zeros(groups)
  {
  }

  lemma NextLoads(costs: seq<nat>, groups: nat, i: nat)
    requires groups > 0 && i < |costs|
    ensures var before := Loads(costs, CyclePlan(groups, |costs|), groups, i);
            Loads(costs, CyclePlan(groups, |costs|), groups, i + 1)
              == before[i % groups := before[i % groups] + costs[i]]
    ensures var before := GreedyLoads(costs, groups, i);
            GreedyLoads(costs, groups, i + 1)
              == before[Earliest(before, groups) := before[Earliest(before, groups)] + costs[i]]
  {
    PlanExtends(costs, GreedyPlan(costs, groups, i), GreedyPlan(costs, groups, i + 1), groups, i);
  }

  // ---------------------------------------------------------------- conservation

  lemma {:induction false} SumUpdate(xs: seq<nat>, g: nat, x: nat, n: nat)
    requires n <= |xs| && g < |xs|
    ensures Sum(xs[g := x], n) == Sum(xs, n) + if g < n then x - xs[g] else 0
  {
    if n > 0 { SumUpdate(xs, g, x, n - 1); }
  }

  lemma {:induction false} SumZeros(groups: nat, n: nat)
    requires n <= groups
    ensures Sum(Zeros(groups), n) == 0
  {
    if n > 0 { SumZeros(groups, n - 1); }
  }

  /** Every assignment spends exactly the total cost. */
  lemma {:induction false} Conserved(costs: seq<nat>, a: seq<nat>, groups: nat, n: nat)
    requires n <= |costs| && n <= |a| && forall i :: 0 <= i < |a| ==> a[i] < groups
    ensures Sum(Loads(costs, a, groups, n), groups) == Sum(costs, n)
  {
    if n == 0 {
      SumZeros(groups, groups);
    } else {
      Conserved(costs, a, groups, n - 1);
      var before := Loads(costs, a, groups, n - 1);
      SumUpdate(before, a[n - 1], before[a[n - 1]] + costs[n - 1], groups);
    }
  }

  // ---------------------------------------------------------------- no assignment beats the bound

  lemma {:induction false} SumAtMost(xs: seq<nat>, m: nat, n: nat)
    requires n <= |xs| && forall i :: 0 <= i < n ==> xs[i] <= m
    ensures Sum(xs, n) <= n * m
  {
    if n > 0 {
      SumAtMost(xs, m, n - 1);
      assert n * m == (n - 1) * m + m;
    }
  }

  lemma {:induction false} SumAtLeast(xs: seq<nat>, m: nat, n: nat)
    requires n <= |xs| && forall i :: 0 <= i < n ==> xs[i] >= m
    ensures Sum(xs, n) >= n * m
  {
    if n > 0 {
      SumAtLeast(xs, m, n - 1);
      assert n * m == (n - 1) * m + m;
    }
  }

  lemma {:induction false} ItemFits(costs: seq<nat>, a: seq<nat>, groups: nat, n: nat, i: nat)
    requires i < n <= |costs| && n <= |a| && forall i :: 0 <= i < |a| ==> a[i] < groups
    ensures costs[i] <= Loads(costs, a, groups, n)[a[i]]
  {
    if i < n - 1 { ItemFits(costs, a, groups, n - 1, i); }
  }

  lemma BoundParts(costs: seq<nat>, a: seq<nat>, groups: nat)
    requires groups > 0 && |a| == |costs| && forall i :: 0 <= i < |a| ==> a[i] < groups
    ensures var m := Makespan(Loads(costs, a, groups, |costs|));
            Max(costs, |costs|) <= m && Sum(costs, |costs|) <= groups * m
  {
    var loads := Loads(costs, a, groups, |costs|);
    Conserved(costs, a, groups, |costs|);
    SumAtMost(loads, Makespan(loads), groups);
    if Max(costs, |costs|) > 0 {
      var i :| 0 <= i < |costs| && costs[i] == Max(costs, |costs|);
      ItemFits(costs, a, groups, |costs|, i);
    }
  }

  lemma Quotient(x: real, d: real, m: real)
    requires d > 0.0
    ensures x <= d * m <==> x / d <= m
  {
    var q := x / d;
    assert q * d == x;
    if q <= m {
      assert (m - q) * d >= 0.0;
    } else {
      assert (q - m) * d > 0.0;
    }
  }

  lemma EvenShare(sum: nat, groups: nat, m: nat)
    requires groups > 0 && sum <= groups * m
    ensures sum as real / groups as real <= m as real
  {
    assert (groups * m) as real == groups as real * m as real;
    Quotient(sum as real, groups as real, m as real);
  }

  /** `LowerBound` is at most the makespan of every assignment of the items to the groups. */
  lemma NoAssignmentBeatsBound(costs: seq<nat>, a: seq<nat>, groups: nat)
    requires groups > 0 && |a| == |costs| && forall i :: 0 <= i < |a| ==> a[i] < groups
    ensures LowerBound(costs, groups) <= Makespan(Loads(costs, a, groups, |costs|)) as real
  {
    hide Loads, Makespan, Sum, Max;
    BoundParts(costs, a, groups);
    EvenShare(Sum(costs, |costs|), groups, Makespan(Loads(costs, a, groups, |costs|)));
  }

  // ---------------------------------------------------------------- greedy is near the bound

  lemma GrahamOther(groups: nat, load: nat, sum: nat, c: nat, before: nat, after: nat)
    requires groups > 0 && groups * load <= sum + (groups - 1) * before && before <= after
    ensures groups * load <= sum + c + (groups - 1) * after
  {
    MulMonoLeft(groups - 1, before, after);
  }

  lemma GrahamChosen(groups: nat, least: nat, c: nat, sum: nat, widest: nat)
    requires groups > 0 && groups * least <= sum && c <= widest
    ensures groups * (least + c) <= sum + c + (groups - 1) * widest
  {
    assert groups * (least + c) == groups * least + c + (groups - 1) * c;
    MulMonoLeft(groups - 1, c, widest);
  }

  lemma LeastBelowAverage(loads: seq<nat>)
    requires loads != []
    ensures |loads| * loads[Earliest(loads, |loads|)] <= Sum(loads, |loads|)
  {
    SumAtLeast(loads, loads[Earliest(loads, |loads|)], |loads|);
  }

  /** Graham's bound, for every group after every item. */
  lemma {:induction false} Graham(costs: seq<nat>, groups: nat, n: nat, g: nat)
    requires groups > 0 && n <= |costs| && g < groups
    ensures groups * GreedyLoads(costs, groups, n)[g] <= Sum(costs, n) + (groups - 1) * Max(costs, n)
  {
    hide Loads, GreedyPlan, Earliest, GreedyLoads;
    if n == 0 {
      FirstLoads(costs, groups);
    } else {
      var before, c := GreedyLoads(costs, groups, n - 1), costs[n - 1];
      NextLoads(costs, groups, n - 1);
      assert Sum(costs, n) == Sum(costs, n - 1) + c && c <= Max(costs, n) && Max(costs, n - 1) <= Max(costs, n);
      hide Sum, Max;
      if g == Earliest(before, groups) {
        LeastBelowAverage(before);
        assert Sum(before, groups) == Sum(costs, n - 1) by { GreedyConserved(costs, groups, n - 1); }
        GrahamChosen(groups, before[g], c, Sum(costs, n - 1), Max(costs, n));
      } else {
        Graham(costs, groups, n - 1, g);
        GrahamOther(groups, before[g], Sum(costs, n - 1), c, Max(costs, n - 1), Max(costs, n));
      }
    }
  }

  lemma GreedyConserved(costs: seq<nat>, groups: nat, n: nat)
    requires groups > 0 && n <= |costs|
    ensures Sum(GreedyLoads(costs, groups, n), groups) == Sum(costs, n)
  {
    Conserved(costs, GreedyPlan(costs, groups, n), groups, n);
  }

  lemma GreedyMakespan(costs: seq<nat>, groups: nat)
    requires groups > 0
    ensures groups * Makespan(GreedyLoads(costs, groups, |costs|)) <=
            Sum(costs, |costs|) + (groups - 1) * Max(costs, |costs|)
  {
    hide Loads, GreedyPlan, Sum, Max, GreedyLoads, Makespan;
    var g := WidestGroup(GreedyLoads(costs, groups, |costs|));
    Graham(costs, groups, |costs|, g);
  }

  lemma WidestGroup(loads: seq<nat>) returns (g: nat)
    requires loads != []
    ensures g < |loads| && loads[g] == Makespan(loads)
  {
    if Makespan(loads) == 0 { g := 0; } else { g :| 0 <= g < |loads| && loads[g] == Makespan(loads); }
  }

  /** Greedy is within a factor 2 - 1/groups of every assignment. */
  lemma GreedyVersusAny(costs: seq<nat>, a: seq<nat>, groups: nat)
    requires groups > 0 && |a| == |costs| && forall i :: 0 <= i < |a| ==> a[i] < groups
    ensures groups * Makespan(GreedyLoads(costs, groups, |costs|)) <=
            (2 * groups - 1) * Makespan(Loads(costs, a, groups, |costs|))
  {
    hide Loads, GreedyLoads, Makespan, Sum, Max;
    GreedyMakespan(costs, groups);
    BoundParts(costs, a, groups);
    Combine(groups, Makespan(GreedyLoads(costs, groups, |costs|)), Sum(costs, |costs|), Max(costs, |costs|),
            Makespan(Loads(costs, a, groups, |costs|)));
  }

  lemma Combine(groups: nat, greedy: nat, sum: nat, widest: nat, m: nat)
    requires groups > 0 && groups * greedy <= sum + (groups - 1) * widest && sum <= groups * m && widest <= m
    ensures groups * greedy <= (2 * groups - 1) * m
  {
    MulMonoLeft(groups - 1, widest, m);
    assert groups * m + (groups - 1) * m == (2 * groups - 1) * m;
  }

  lemma {:induction false} CostsPositive(counts: seq<int>, cap: int, n: nat)
    requires n <= |counts|
    ensures forall i :: 0 <= i < |Costs(counts, cap, n)| ==> Costs(counts, cap, n)[i] > 0
  {
    if n > 0 { CostsPositive(counts, cap, n - 1); }
  }

  lemma BelowTwice(groups: real, greedy: real, sum: real, widest: real, bound: real)
    requires groups >= 1.0 && widest <= bound && sum <= groups * bound && bound > 0.0
    requires groups * greedy <= sum + (groups - 1.0) * widest
    ensures greedy < 2.0 * bound
  {
    ProdMono(widest, bound, groups - 1.0);
    assert groups * greedy <= groups * bound + (groups - 1.0) * bound;
    assert groups * bound + (groups - 1.0) * bound == groups * (2.0 * bound) - bound;
    if greedy >= 2.0 * bound { ProdMono(2.0 * bound, greedy, groups); }
  }

  lemma UnderTwiceBound(costs: seq<nat>, groups: nat)
    requires groups > 0 && costs != [] && costs[0] > 0
    ensures Makespan(GreedyLoads(costs, groups, |costs|)) as real < 2.0 * LowerBound(costs, groups)
  {
    hide Loads, GreedyLoads, Makespan, Sum, LowerBound, Max;
    GreedyMakespan(costs, groups);
    BoundCovers(costs, groups);
    InReals(groups, Makespan(GreedyLoads(costs, groups, |costs|)), Sum(costs, |costs|), Max(costs, |costs|));
    BelowTwice(groups as real, Makespan(GreedyLoads(costs, groups, |costs|)) as real,
               Sum(costs, |costs|) as real, Max(costs, |costs|) as real, LowerBound(costs, groups));
  }

  /** The greedy makespan is under twice the bound exactly when some expert is active. */
  lemma GreedyUnderTwiceBound(counts: seq<int>, cap: int, groups: nat)
    requires groups > 0
    ensures var costs := Costs(counts, cap, |counts|);
            Makespan(GreedyLoads(costs, groups, |costs|)) as real < 2.0 * LowerBound(costs, groups)
            <==> exists i :: 0 <= i < |counts| && 0 < counts[i] <= cap
  {
    hide GreedyLoads, Makespan, LowerBound;
    var costs := Costs(counts, cap, |counts|);
    NonemptyCosts(counts, cap, |counts|);
    if costs == [] {
      NothingToDo(groups);
    } else {
      CostsPositive(counts, cap, |counts|);
      UnderTwiceBound(costs, groups);
    }
  }

  lemma NothingToDo(groups: nat)
    requires groups > 0
    ensures LowerBound([], groups) == 0.0
  {
  }

  lemma BoundCovers(costs: seq<nat>, groups: nat)
    requires groups > 0
    ensures Max(costs, |costs|) as real <= LowerBound(costs, groups)
    ensures Sum(costs, |costs|) as real <= groups as real * LowerBound(costs, groups)
  {
    hide Sum, Max;
    var even := Sum(costs, |costs|) as real / groups as real;
    assert even <= LowerBound(costs, groups) && Max(costs, |costs|) as real <= LowerBound(costs, groups);
    hide LowerBound;
    Quotient(Sum(costs, |costs|) as real, groups as real, LowerBound(costs, groups));
  }

  lemma InReals(groups: nat, greedy: nat, sum: nat, widest: nat)
    requires groups > 0 && groups * greedy <= sum + (groups - 1) * widest
    ensures groups as real * greedy as real <= sum as real + (groups as real - 1.0) * widest as real
  {
    assert (groups * greedy) as real == groups as real * greedy as real;
    assert ((groups - 1) * widest) as real == (groups - 1) as real * widest as real;
  }

  lemma {:induction false} NonemptyCosts(counts: seq<int>, cap: int, n: nat)
    requires n <= |counts|
    ensures Costs(counts, cap, n) != [] <==> exists i :: 0 <= i < n && 0 < counts[i] <= cap
  {
    if n > 0 { NonemptyCosts(counts, cap, n - 1); }
  }
}
