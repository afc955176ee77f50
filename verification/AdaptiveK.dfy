/** The adaptive draft length: a per-request moving average of accepted tokens chooses, from a fixed set, how
    many draft tokens to verify, and only lengths with a captured graph may be chosen. */
module AdaptiveK {
  import opened Arith
  import opened Wrappers

  // ---------------------------------------------------------------- the moving average

  datatype Average = Average(ema: real, steps: nat)

  /** What one step counts for: a fully accepted draft counts as the longest there is, unless saturation is off. */
  function Observation(saturates: bool, kMax: int, draft: int, accepted: int): real {
    if accepted >= draft && saturates then (if kMax > draft then kMax else draft) as real else accepted as real
  }

  function Mix(obs: real, ema: real, alpha: real): real {
    obs * alpha + ema * (1.0 - alpha)
  }

  /** A request's first step blends with the longest length. */
  function Blend(st: Option<Average>, alpha: real, kMax: int, obs: real): Average {
    if st.None? then Average(Mix(obs, kMax as real, alpha), 1)
    else Average(Mix(obs, st.value.ema, alpha), st.value.steps + 1)
  }

  /** One step of a request's average, without its helpers: it moves towards what the step counts for by the smoothing
      factor. A request's first step moves from the longest length. */
  ghost predicate Moves(alpha: real, saturates: bool, kMax: int, st: Option<Average>, draft: int, accepted: int,
                        now: Average) {
    var from := if st.Some? then st.value.ema else kMax as real;
    && now.steps == (if st.Some? then st.value.steps else 0) + 1
    && (accepted < draft || !saturates ==> now.ema - from == alpha * (accepted as real - from))
    && (accepted >= draft && saturates && kMax <= draft ==> now.ema - from == alpha * (draft as real - from))
    && (accepted >= draft && saturates && kMax >= draft ==> now.ema - from == alpha * (kMax as real - from))
  }

  lemma BlendMoves(alpha: real, saturates: bool, kMax: int, st: Option<Average>, draft: int, accepted: int)
    ensures Moves(alpha, saturates, kMax, st, draft, accepted,
                  Blend(st, alpha, kMax, Observation(saturates, kMax, draft, accepted)))
  {
    var obs := Observation(saturates, kMax, draft, accepted);
    var from := if st.Some? then st.value.ema else kMax as real;
    assert Blend(st, alpha, kMax, obs).ema == Mix(obs, from, alpha);
    MixMoves(obs, from, alpha);
    assert Prod(obs - from, alpha) == alpha * (obs - from);
    hide Mix, Prod;
  }

  lemma MixMoves(obs: real, ema: real, alpha: real)
    ensures Mix(obs, ema, alpha) == ema + Prod(obs - ema, alpha)
  {
  }

  /** The average never leaves the range of draft lengths. */
  lemma BlendBounds(st: Option<Average>, alpha: real, saturates: bool, kMax: int, draft: int, accepted: int,
                    longest: int)
    requires 0.0 <= alpha <= 1.0 && 0 <= kMax <= longest && 0 <= accepted <= draft <= longest
    requires st.Some? ==> 0.0 <= st.value.ema <= longest as real
    ensures 0.0 <= Blend(st, alpha, kMax, Observation(saturates, kMax, draft, accepted)).ema <= longest as real
  {
    var obs, ema := Observation(saturates, kMax, draft, accepted), if st.None? then kMax as real else st.value.ema;
    assert 0.0 <= obs <= longest as real;
    assert Blend(st, alpha, kMax, obs).ema == Mix(obs, ema, alpha);
    hide *;
    MixMoves(obs, ema, alpha);
    ProdFraction(obs - ema, alpha);
  }

  /** The steps of a policy whose drafts are at most `longest` long: the average before, if any, is in range. */
  ghost predicate InRange(st: Option<Average>, kMax: int, draft: int, accepted: int, longest: int) {
    && 0 <= kMax <= longest && 0 <= accepted <= draft <= longest
    && (st.Some? ==> 0.0 <= st.value.ema <= longest as real)
  }

  ghost predicate StaysInRange(st: Option<Average>, alpha: real, saturates: bool, kMax: int, draft: int, accepted: int,
                               longest: int) {
    InRange(st, kMax, draft, accepted, longest) ==>
      0.0 <= Blend(st, alpha, kMax, Observation(saturates, kMax, draft, accepted)).ema <= longest as real
  }

  /** The smoothing factor is taken unchecked, and no factor outside [0, 1] keeps the range. */
  lemma BlendBoundsIff(alpha: real, longest: int)
    requires longest > 0
    ensures (forall st, saturates, kMax, draft, accepted ::
               StaysInRange(st, alpha, saturates, kMax, draft, accepted, longest)) <==> 0.0 <= alpha <= 1.0
  {
    if 0.0 <= alpha <= 1.0 {
      forall st, saturates, kMax, draft, accepted
        ensures StaysInRange(st, alpha, saturates, kMax, draft, accepted, longest)
      {
        if InRange(st, kMax, draft, accepted, longest) {
          BlendBounds(st, alpha, saturates, kMax, draft, accepted, longest);
        }
      }
    } else {
      FirstRejectionEscapes(alpha, true, longest, longest);
      assert !StaysInRange(None, alpha, true, longest, longest, 0, longest);
    }
  }

  /** A request's first step, when nothing of its draft is accepted, already leaves the range for every such factor. */
  lemma FirstRejectionEscapes(alpha: real, saturates: bool, kMax: int, draft: int)
    requires 0 < kMax && 0 < draft
    ensures Blend(None, alpha, kMax, Observation(saturates, kMax, draft, 0)).ema == Prod(kMax as real, 1.0 - alpha)
    ensures 0.0 <= Blend(None, alpha, kMax, Observation(saturates, kMax, draft, 0)).ema <= kMax as real <==>
              0.0 <= alpha <= 1.0
  {
    var ema := kMax as real;
    assert Blend(None, alpha, kMax, Observation(saturates, kMax, draft, 0)).ema == Mix(0.0, ema, alpha);
    assert Mix(0.0, ema, alpha) == Prod(ema, 1.0 - alpha);
    hide *;
    PartOf(ema, 1.0 - alpha);
  }

  lemma PartOf(x: real, a: real)
    requires x > 0.0
    ensures 0.0 <= Prod(x, a) <= x <==> 0.0 <= a <= 1.0
  {
    if a < 0.0 { assert x * -a > 0.0; }
    if a > 1.0 { assert x * (a - 1.0) > 0.0; }
    if 0.0 <= a <= 1.0 { ProdFraction(x, a); }
  }

  /** A factor of 2 takes a request with longest draft 7 to an average of -7 on its first rejected draft. */
  lemma FactorTwoEscapes()
    ensures Blend(None, 2.0, 7, Observation(true, 7, 7, 0)) == Average(-7.0, 1)
  {
  }

  // ---------------------------------------------------------------- the choice

  ghost predicate Increasing(s: seq<int>) {
    forall i, j :: 0 <= i < j < |s| ==> s[i] < s[j]
  }

  /** The largest entry within a limit, or the least entry of all. */
  function Within(s: seq<int>, limit: int, n: nat): (v: int)
    requires 0 < n <= |s|
    ensures v in s[..n]
  {
    if n == 1 || s[n - 1] <= limit then s[n - 1] else Within(s, limit, n - 1)
  }

  lemma {:induction false} WithinIsLargest(s: seq<int>, limit: int, n: nat)
    requires Increasing(s) && 0 < n <= |s|
    ensures Within(s, limit, n) <= limit || Within(s, limit, n) == s[0]
    ensures forall i :: 0 <= i < n && s[i] <= limit ==> s[i] <= Within(s, limit, n) <= limit
  {
    if n > 1 && s[n - 1] > limit { WithinIsLargest(s, limit, n - 1); }
  }

  function Ceil(x: real): int {
    -((-x).Floor)
  }

  function Pick(s: seq<int>, target: int, k: int): (n: int)
    requires s != []
  {
    var v := Within(s, if target < k then target else k, |s|);
    var m := if v < k then v else k;
    if m > 1 then m else 1
  }

  /** The entry that a limit allows: the largest within it, or the least of all when there is none. */
  ghost predicate Fits(s: seq<int>, target: int, k: int, w: int) {
    && w in s
    && (forall v :: v in s && v <= target && v <= k ==> v <= w)
    && ((w <= target && w <= k) || forall v :: v in s ==> (v > target || v > k) && w <= v)
  }

  /** The length of a request with average `ema` and full length `k`: the entry allowed by the average and the margin,
      rounded up, held between 1 and the full length. */
  ghost predicate IsLength(s: seq<int>, margin: real, ema: real, k: int, n: int) {
    exists target: int, w ::
      && target as real - 1.0 < ema + margin <= target as real && Fits(s, target, k, w)
      && 1 <= n <= k && (1 <= w <= k ==> n == w) && (w < 1 ==> n == 1) && (w > k ==> n == k)
  }

  lemma PickIsLength(s: seq<int>, margin: real, ema: real, k: int)
    requires s != [] && Increasing(s) && k >= 1
    ensures IsLength(s, margin, ema, k, Pick(s, Ceil(ema + margin), k))
    ensures forall n :: IsLength(s, margin, ema, k, n) ==> n == Pick(s, Ceil(ema + margin), k)
  {
    var target := Ceil(ema + margin);
    var limit := if target < k then target else k;
    var w := Within(s, limit, |s|);
    assert target as real - 1.0 < ema + margin <= target as real;
    WithinFits(s, target, k);
    forall n | IsLength(s, margin, ema, k, n)
      ensures n == Pick(s, target, k)
    {
      var t: int, u :| t as real - 1.0 < ema + margin <= t as real && Fits(s, t, k, u)
                       && 1 <= n <= k && (1 <= u <= k ==> n == u) && (u < 1 ==> n == 1) && (u > k ==> n == k);
      assert t == target;
      OneFits(s, target, k, u, w);
    }
  }

  lemma WithinFits(s: seq<int>, target: int, k: int)
    requires s != [] && Increasing(s)
    ensures Fits(s, target, k, Within(s, if target < k then target else k, |s|))
  {
    var limit := if target < k then target else k;
    WithinIsLargest(s, limit, |s|);
    assert s[..|s|] == s;
    forall v | v in s
      ensures s[0] <= v
    {
      var i :| 0 <= i < |s| && s[i] == v;
    }
  }

  lemma OneFits(s: seq<int>, target: int, k: int, u: int, w: int)
    requires Fits(s, target, k, u) && Fits(s, target, k, w)
    ensures u == w
  {
  }

  // ---------------------------------------------------------------- captured graphs

  /** Query lengths with a captured graph: the given ones, one more than each usable boot entry, and the full length. */
  function CapturedLens(enabled: bool, boot: seq<int>, lens: set<int>, full: int): set<int> {
    if !enabled then lens
    else lens + (set v | v in boot && 0 < v + 1 <= full :: v + 1) + {full}
  }

  /** Those are exactly the lengths with a graph. */
  lemma CapturedAre(enabled: bool, boot: seq<int>, lens: set<int>, full: int, length: int)
    ensures length in CapturedLens(enabled, boot, lens, full) <==>
              || length in lens
              || (enabled && length == full)
              || (enabled && length - 1 in boot && 1 <= length <= full)
  {
  }

  ghost predicate Sublist(s: seq<int>, boot: seq<int>) {
    s != [] && Increasing(s) && forall v :: v in s ==> v in boot
  }

  /** Whatever the average and the runtime set, the chosen length has its graph. */
  ghost predicate AlwaysCaptured(boot: seq<int>, k: int) {
    forall s, target :: Sublist(s, boot) ==> Pick(s, target, k) + 1 in CapturedLens(true, boot, {k + 1}, k + 1)
  }

  ghost predicate Usable(boot: seq<int>, k: int) {
    k == 1 || 1 in boot || forall v :: v in boot ==> v >= 1
  }

  lemma PickCaptured(boot: seq<int>, s: seq<int>, target: int, k: int, lens: set<int>)
    requires Sublist(s, boot) && k >= 1 && Usable(boot, k)
    ensures 1 <= Pick(s, target, k) <= k
    ensures Pick(s, target, k) + 1 in CapturedLens(true, boot, lens, k + 1)
  {
    var v := Within(s, if target < k then target else k, |s|);
    assert v in s;
  }

  /** Exactly: every chosen length is captured if and only if the boot set is positive, or holds 1, or the full length
      is 1. */
  lemma CapturedIff(boot: seq<int>, k: int)
    requires boot != [] && Increasing(boot) && k >= 1
    ensures AlwaysCaptured(boot, k) <==> Usable(boot, k)
  {
    if Usable(boot, k) {
      forall s, target | Sublist(s, boot)
        ensures Pick(s, target, k) + 1 in CapturedLens(true, boot, {k + 1}, k + 1)
      {
        PickCaptured(boot, s, target, k, {k + 1});
      }
    } else {
      NotCaptured(boot, k);
    }
  }

  lemma NotCaptured(boot: seq<int>, k: int)
    requires boot != [] && Increasing(boot) && k > 1 && 1 !in boot && exists v :: v in boot && v < 1
    ensures Sublist(boot, boot) && Pick(boot, 1, k) == 1 && 2 !in CapturedLens(true, boot, {k + 1}, k + 1)
  {
    WithinIsLargest(boot, 1, |boot|);
    var v := Within(boot, 1, |boot|);
    assert v in boot;
  }

  /** With entries 0 and 7, the default margin and one step that accepted nothing at alpha 1, the length chosen is 1,
      whose graph is not captured. */
  lemma ZeroEntryFails()
    ensures var st := Blend(None, 1.0, 7, Observation(true, 7, 7, 0));
            var n := Pick([0, 7], Ceil(st.ema + 1.0), 7);
            n + 1 !in CapturedLens(true, [0, 7], {8}, 8)
  {
    assert Blend(None, 1.0, 7, Observation(true, 7, 7, 0)).ema == 0.0;
    assert Ceil(1.0) == 1;
    assert 0 in [0, 7];
    NotCaptured([0, 7], 7);
  }

  // ---------------------------------------------------------------- recovery

  /** The average after `n` fully accepted steps with drafts of any length. */
  ghost function Accepted(ema: real, alpha: real, kMax: int, drafts: seq<int>, n: nat): real
    requires n <= |drafts|
  {
    if n == 0 then ema
    else Blend(Some(Average(Accepted(ema, alpha, kMax, drafts, n - 1), 0)), alpha, kMax,
               Observation(true, kMax, drafts[n - 1], drafts[n - 1])).ema
  }

  ghost function Power(x: real, n: nat): real {
    if n == 0 then 1.0 else Prod(x, Power(x, n - 1))
  }

  lemma {:induction false} PowerBounds(x: real, n: nat)
    requires 0.0 <= x <= 1.0
    ensures 0.0 <= Power(x, n) <= 1.0
  {
    hide Prod;
    if n > 0 {
      PowerBounds(x, n - 1);
      ProdFraction(Power(x, n - 1), x);
      ProdSwap(Power(x, n - 1), x);
    }
  }

  /** The gap to the longest length shrinks by the factor `1 - alpha` a step. */
  lemma {:induction false} GapShrinks(ema: real, alpha: real, kMax: int, drafts: seq<int>, n: nat)
    requires 0.0 <= alpha <= 1.0 && n <= |drafts|
    ensures kMax as real - Accepted(ema, alpha, kMax, drafts, n) <= Prod(kMax as real - ema, Power(1.0 - alpha, n))
  {
    hide Observation, Mix, Prod;
    var gap := kMax as real - ema;
    if n == 0 {
      ProdOne(gap);
    } else {
      GapShrinks(ema, alpha, kMax, drafts, n - 1);
      var before, obs := Accepted(ema, alpha, kMax, drafts, n - 1),
        Observation(true, kMax, drafts[n - 1], drafts[n - 1]);
      FullObservation(kMax, drafts[n - 1]);
      GapStep(kMax as real, before, obs, alpha, Prod(gap, Power(1.0 - alpha, n - 1)));
      ProdRegroup(gap, 1.0 - alpha, Power(1.0 - alpha, n - 1));
    }
  }

  lemma ProdSuccessor(n: nat, a: real)
    ensures Prod((n + 1) as real, a) == Prod(n as real, a) + a
  {
  }

  lemma FullObservation(kMax: int, draft: int)
    ensures Observation(true, kMax, draft, draft) >= kMax as real
  {
  }

  lemma GapStep(top: real, before: real, obs: real, alpha: real, gap: real)
    requires 0.0 <= alpha <= 1.0 && obs >= top && top - before <= gap
    ensures top - Mix(obs, before, alpha) <= Prod(1.0 - alpha, gap)
  {
    hide Mix, Prod;
    MixMoves(obs, before, alpha);
    ProdMono(top - before, obs - before, alpha);
    ProdComplement(top - before, alpha);
    ProdSwap(1.0 - alpha, gap);
    ProdSwap(1.0 - alpha, top - before);
    ProdMono(top - before, gap, 1.0 - alpha);
  }

  /** Bernoulli's inequality, in the form that bounds the gap. */
  lemma {:induction false} Bernoulli(alpha: real, n: nat)
    requires 0.0 <= alpha <= 1.0
    ensures Prod(Power(1.0 - alpha, n), 1.0 + Prod(n as real, alpha)) <= 1.0
  {
    if n == 0 {
      ProdZero(alpha);
    } else {
      hide Prod;
      Bernoulli(alpha, n - 1);
      PowerBounds(1.0 - alpha, n - 1);
      ProdNonNeg((n - 1) as real, alpha);
      BernoulliStep(Power(1.0 - alpha, n - 1), alpha, Prod((n - 1) as real, alpha));
      ProdSuccessor(n - 1, alpha);
    }
  }

  lemma BernoulliStep(p: real, alpha: real, s: real)
    requires 0.0 <= p && 0.0 <= alpha <= 1.0 && s >= 0.0 && Prod(p, 1.0 + s) <= 1.0
    ensures Prod(Prod(1.0 - alpha, p), 1.0 + (s + alpha)) <= 1.0
  {
    var less := (1.0 - alpha) * (1.0 + s + alpha);
    assert less <= 1.0 + s by {
      assert less == (1.0 + s) - alpha * (s + alpha);
      ProdNonNeg(alpha, s + alpha);
    }
    assert Prod(Prod(1.0 - alpha, p), 1.0 + (s + alpha)) == Prod(less, p);
    hide Prod;
    ProdMono(less, 1.0 + s, p);
    ProdSwap(1.0 + s, p);
  }

  /** After `(kMax - 1) / alpha` fully accepted steps, whatever came before, the target is the longest length. */
  lemma Recovers(ema: real, alpha: real, margin: real, kMax: int, drafts: seq<int>, n: nat)
    requires 0.0 < alpha <= 1.0 && margin > 0.0 && ema >= 0.0 && kMax >= 0 && n <= |drafts|
    requires n as real * alpha >= (kMax - 1) as real
    ensures Ceil(Accepted(ema, alpha, kMax, drafts, n) + margin) >= kMax
  {
    assert Prod(n as real, alpha) >= (kMax - 1) as real;
    hide *;
    var p, top := Power(1.0 - alpha, n), kMax as real;
    GapShrinks(ema, alpha, kMax, drafts, n);
    PowerBounds(1.0 - alpha, n);
    Bernoulli(alpha, n);
    ProdMono(top - ema, 1.0 + Prod(n as real, alpha), p);
    ProdSwap(1.0 + Prod(n as real, alpha), p);
    CeilReaches(Accepted(ema, alpha, kMax, drafts, n) + margin, kMax);
  }

  lemma CeilReaches(x: real, k: int)
    requires x > k as real - 1.0
    ensures Ceil(x) >= k
  {
  }

  /** Then the choice is the largest entry of the current set that the full length allows. */
  lemma RecoveredChoice(s: seq<int>, boot: seq<int>, target: int, kMax: int, k: int, v: int)
    requires Sublist(s, boot) && Increasing(boot) && k >= 1 && target >= kMax && (forall b :: b in boot ==> b <= kMax)
    requires v in s && 1 <= v <= k
    ensures v <= Pick(s, target, k) <= k
    ensures Pick(s, target, k) in s
  {
    var limit := if target < k then target else k;
    WithinIsLargest(s, limit, |s|);
    assert v in boot;
  }

  // ---------------------------------------------------------------- the policy object

  datatype Config = Config(enabled: bool, alpha: real, margin: real, minSteps: int, saturates: bool, kSet: seq<int>)

  /** A value of the override file: not there, not readable as its type, or a value. */
  datatype Field<T> = Missing | Bad | Good(value: T)

  datatype Override = Override(mode: Option<bool>, alpha: Field<real>, margin: Field<real>, minSteps: Field<int>,
                               saturates: Option<bool>, want: Field<set<int>>)

  datatype Look = Absent | Present(mtime: int, content: Option<Override>)

  function FieldOr<T>(f: Field<T>, default: T): T {
    if f.Good? then f.value else default
  }

  /** The boot entries that are wanted, in order. */
  function Wanted(boot: seq<int>, want: set<int>, n: nat): (r: seq<int>)
    requires n <= |boot|
  {
    if n == 0 then [] else Wanted(boot, want, n - 1) + if boot[n - 1] in want then [boot[n - 1]] else []
  }

  /** Fields are taken in order and the first unreadable one ends the update, keeping what was taken before it. */
  function Taken(c: Config, o: Override, boot: seq<int>): (Config, bool) {
    var c1 := c.(enabled := if o.mode.Some? then o.mode.value else true);
    if o.alpha.Bad? then (c1, false) else
    var c2 := c1.(alpha := FieldOr(o.alpha, c.alpha));
    if o.margin.Bad? then (c2, false) else
    var c3 := c2.(margin := FieldOr(o.margin, c.margin));
    if o.minSteps.Bad? then (c3, false) else
    var c4 := c3.(minSteps := FieldOr(o.minSteps, c.minSteps), saturates := Or(o.saturates, c.saturates));
    if o.want.Bad? then (c4, false) else
    var w := if o.want.Good? then Wanted(boot, o.want.value, |boot|) else c.kSet;
    (c4.(kSet := if w == [] then boot else w), true)
  }

  /** The same without its helpers: each field takes effect when it and all fields before it can be read. */
  ghost predicate Takes(c: Config, o: Override, boot: seq<int>, next: Config, complete: bool) {
    var alpha, margin, steps := !o.alpha.Bad?, !o.alpha.Bad? && !o.margin.Bad?,
                                !o.alpha.Bad? && !o.margin.Bad? && !o.minSteps.Bad?;
    && complete == (steps && !o.want.Bad?)
    && next.enabled == (o.mode.None? || o.mode.value)
    && next.alpha == (if o.alpha.Good? then o.alpha.value else c.alpha)
    && next.margin == (if alpha && o.margin.Good? then o.margin.value else c.margin)
    && next.minSteps == (if margin && o.minSteps.Good? then o.minSteps.value else c.minSteps)
    && next.saturates == (if steps && o.saturates.Some? then o.saturates.value else c.saturates)
    && (!complete || o.want.Missing? ==> next.kSet == c.kSet)
    && (complete && o.want.Good? ==>
          if exists v :: v in boot && v in o.want.value
          then Increasing(next.kSet) && forall v :: v in next.kSet <==> v in boot && v in o.want.value
          else next.kSet == boot)
  }

  lemma TakenTakes(c: Config, o: Override, boot: seq<int>)
    requires Increasing(boot) && c.kSet != []
    ensures var (next, complete) := Taken(c, o, boot); Takes(c, o, boot, next, complete)
  {
    hide Taken, Wanted, Increasing, FieldOr, Or;
    TakenFields(c, o, boot);
    if o.want.Good? { WantedAre(boot, o.want.value); }
  }

  lemma TakenFields(c: Config, o: Override, boot: seq<int>)
    requires c.kSet != []
    ensures var (next, complete) := Taken(c, o, boot);
            var alpha, margin := !o.alpha.Bad?, !o.alpha.Bad? && !o.margin.Bad?;
            var steps := margin && !o.minSteps.Bad?;
            && complete == (steps && !o.want.Bad?)
            && next.enabled == (o.mode.None? || o.mode.value)
            && next.alpha == (if o.alpha.Good? then o.alpha.value else c.alpha)
            && next.margin == (if alpha && o.margin.Good? then o.margin.value else c.margin)
            && next.minSteps == (if margin && o.minSteps.Good? then o.minSteps.value else c.minSteps)
            && next.saturates == (if steps && o.saturates.Some? then o.saturates.value else c.saturates)
            && next.kSet == if !complete || o.want.Missing? then c.kSet
                            else if Wanted(boot, o.want.value, |boot|) == [] then boot
                            else Wanted(boot, o.want.value, |boot|)
  {
    hide Wanted;
  }

  lemma WantedAre(boot: seq<int>, want: set<int>)
    requires Increasing(boot)
    ensures var w := Wanted(boot, want, |boot|);
            && Increasing(w) && (forall v :: v in w <==> v in boot && v in want)
            && (w == [] <==> !exists v :: v in boot && v in want)
  {
    WantedIsSublist(boot, want, |boot|);
    assert boot[..|boot|] == boot;
    var w := Wanted(boot, want, |boot|);
    if w != [] { assert w[0] in w; }
  }

  lemma {:induction false} WantedIsSublist(boot: seq<int>, want: set<int>, n: nat)
    requires Increasing(boot) && n <= |boot|
    ensures Increasing(Wanted(boot, want, n))
    ensures forall v :: v in Wanted(boot, want, n) <==> v in boot[..n] && v in want
  {
    if n > 0 {
      WantedIsSublist(boot, want, n - 1);
      assert boot[..n] == boot[..n - 1] + [boot[n - 1]];
      var before := Wanted(boot, want, n - 1);
      forall i | 0 <= i < |before|
        ensures before[i] < boot[n - 1]
      {
        assert before[i] in before && before[i] in boot[..n - 1];
      }
    }
  }

  lemma TakenKeepsSublist(c: Config, o: Override, boot: seq<int>)
    requires Increasing(boot) && boot != [] && Sublist(c.kSet, boot)
    ensures Sublist(Taken(c, o, boot).0.kSet, boot)
  {
    if o.want.Good? { WantedIsSublist(boot, o.want.value, |boot|); }
    assert boot[..|boot|] == boot;
  }

  datatype Request = Request(id: nat, isPrefill: bool, structured: bool)

  /** The length for one request, or none when it must stay at full length. */
  function Choose(c: Config, state: map<nat, Average>, id: nat, k: int, structured: bool): Option<int>
    requires c.kSet != []
  {
    if !c.enabled || structured || k <= 0 || id !in state || state[id].steps < c.minSteps then None
    else Some(Pick(c.kSet, Ceil(state[id].ema + c.margin), k))
  }

  function RequestChoice(c: Config, state: map<nat, Average>, r: Request, k: int): Option<int>
    requires c.kSet != []
  {
    Choose(c, state, r.id, k, r.structured)
  }

  /** The batch length over the first `n` slots: the least choice, or the full length when someone has none or nobody
      decodes. */
  function Batch(c: Config, state: map<nat, Average>, rs: seq<Option<Request>>, k: int, n: nat): Option<Option<int>>
    requires c.kSet != [] && n <= |rs|
  {
    if n == 0 then Some(None)
    else
      var before, r := Batch(c, state, rs, k, n - 1), rs[n - 1];
      if before.None? || r.None? || r.value.isPrefill then before
      else
        var x := RequestChoice(c, state, r.value, k);
        if x.None? then None
        else if before.value.Some? && before.value.value <= x.value then before
        else Some(x)
  }

  function Agreed(b: Option<Option<int>>, k: int): int {
    if b.Some? && b.value.Some? then b.value.value else k
  }

  /** A slot that counts: a request, and not one still in prefill. */
  ghost predicate Counts(r: Option<Request>) {
    r.Some? && !r.value.isPrefill
  }

  /** Why a request stays at full length: structured output, or no average of enough steps. */
  ghost predicate Stuck(c: Config, state: map<nat, Average>, id: nat, structured: bool) {
    structured || id !in state || state[id].steps < c.minSteps
  }

  lemma ChooseIs(c: Config, state: map<nat, Average>, id: nat, k: int, structured: bool)
    requires c.kSet != [] && Increasing(c.kSet)
    ensures Choose(c, state, id, k, structured).None? <==> !c.enabled || Stuck(c, state, id, structured) || k <= 0
    ensures c.enabled && !Stuck(c, state, id, structured) && k > 0 ==>
              forall n :: IsLength(c.kSet, c.margin, state[id].ema, k, n) <==>
                            n == Choose(c, state, id, k, structured).value
  {
    hide Pick, IsLength;
    if c.enabled && !Stuck(c, state, id, structured) && k > 0 {
      PickIsLength(c.kSet, c.margin, state[id].ema, k);
    }
  }

  /** The batch length, without its helpers: the full length when a decoding request is stuck or none decodes, and
      otherwise the least length of the decoding requests. */
  ghost predicate IsBatchLength(c: Config, state: map<nat, Average>, rs: seq<Option<Request>>, k: int, n: int) {
    if (forall i :: 0 <= i < |rs| ==> !Counts(rs[i]))
       || exists i :: 0 <= i < |rs| && Counts(rs[i]) && Stuck(c, state, rs[i].value.id, rs[i].value.structured)
    then n == k
    else
      && (exists i :: 0 <= i < |rs| && Counts(rs[i])
                      && IsLength(c.kSet, c.margin, state[rs[i].value.id].ema, k, n))
      && forall i, m ::
           0 <= i < |rs| && Counts(rs[i]) && IsLength(c.kSet, c.margin, state[rs[i].value.id].ema, k, m) ==> n <= m
  }

  lemma AgreedIsLength(c: Config, state: map<nat, Average>, rs: seq<Option<Request>>, k: int)
    requires c.enabled && c.kSet != [] && Increasing(c.kSet) && k > 0
    ensures IsBatchLength(c, state, rs, k, Agreed(Batch(c, state, rs, k, |rs|), k))
  {
    BatchIsLeast(c, state, rs, k, |rs|);
    forall i | 0 <= i < |rs| && Counts(rs[i])
      ensures var r := rs[i].value;
              && (RequestChoice(c, state, r, k).None? <==> Stuck(c, state, r.id, r.structured))
              && (RequestChoice(c, state, r, k).Some? ==>
                    forall n :: IsLength(c.kSet, c.margin, state[r.id].ema, k, n) <==>
                                  n == RequestChoice(c, state, r, k).value)
    {
      ChooseIs(c, state, rs[i].value.id, k, rs[i].value.structured);
    }
    hide Batch, RequestChoice, Stuck, IsLength;
  }

  /** The batch has no length of its own exactly when some request has none; otherwise it has the least choice. */
  lemma {:induction false} BatchIsLeast(c: Config, state: map<nat, Average>, rs: seq<Option<Request>>, k: int, n: nat)
    requires c.kSet != [] && n <= |rs|
    ensures Batch(c, state, rs, k, n).None? <==>
            exists i :: 0 <= i < n && Counts(rs[i]) && RequestChoice(c, state, rs[i].value, k).None?
    ensures var b := Batch(c, state, rs, k, n);
            b.Some? && b.value.None? ==> forall i :: 0 <= i < n ==> !Counts(rs[i])
    ensures var b := Batch(c, state, rs, k, n);
            b.Some? && b.value.Some? ==>
              && (forall i :: 0 <= i < n && Counts(rs[i]) ==>
                    RequestChoice(c, state, rs[i].value, k).Some?
                      && b.value.value <= RequestChoice(c, state, rs[i].value, k).value)
              && exists i :: 0 <= i < n && Counts(rs[i]) && RequestChoice(c, state, rs[i].value, k) == b.value
  {
    hide RequestChoice;
    if n > 0 {
      BatchIsLeast(c, state, rs, k, n - 1);
      var before, b := Batch(c, state, rs, k, n - 1), Batch(c, state, rs, k, n);
      assert !Counts(rs[n - 1]) ==> b == before;
    }
  }

  /** Every batch length is the full length or a length with a captured graph. */
  lemma {:induction false} BatchCaptured(c: Config, boot: seq<int>, state: map<nat, Average>, rs: seq<Option<Request>>,
                                         k: int, lens: set<int>, n: nat)
    requires Sublist(c.kSet, boot) && n <= |rs| && k >= 1 && Usable(boot, k)
    ensures 1 <= Agreed(Batch(c, state, rs, k, n), k) <= k
    ensures Agreed(Batch(c, state, rs, k, n), k) + 1 in CapturedLens(true, boot, lens, k + 1)
  {
    assert c.kSet != [];
    assert k + 1 in CapturedLens(true, boot, lens, k + 1);
    hide Pick, CapturedLens, Usable, Sublist;
    if n > 0 {
      BatchCaptured(c, boot, state, rs, k, lens, n - 1);
      var r := rs[n - 1];
      if r.Some? && RequestChoice(c, state, r.value, k).Some? {
        PickCaptured(boot, c.kSet, Ceil(state[r.value.id].ema + c.margin), k, lens);
      }
    }
  }

  method Agree(c: Config, state: map<nat, Average>, rs: seq<Option<Request>>, k: int) returns (n: int)
    requires c.kSet != []
    ensures n == Agreed(Batch(c, state, rs, k, |rs|), k)
  {
    hide RequestChoice;
    var best: Option<int> := None;
    for i := 0 to |rs|
      invariant Batch(c, state, rs, k, i) == Some(best)
    {
      if rs[i].Some? && !rs[i].value.isPrefill {
        var x := RequestChoice(c, state, rs[i].value, k);
        if x.None? {
          Pinned(c, state, rs, k, i + 1, |rs|);
          return k;
        }
        if best.None? || x.value < best.value {
          best := x;
        }
      }
    }
    n := if best.None? then k else best.value;
  }

  lemma {:induction false} Pinned(c: Config, state: map<nat, Average>, rs: seq<Option<Request>>, k: int, i: nat, n: nat)
    requires c.kSet != [] && i <= n <= |rs| && Batch(c, state, rs, k, i).None?
    ensures Batch(c, state, rs, k, n).None?
  {
    if i < n { Pinned(c, state, rs, k, i, n - 1); }
  }

  /** What a look at the override file leaves of configuration, averages and remembered file time, and whether it
      cleared the averages and the histogram. */
  datatype Reloaded = Reloaded(config: Config, state: map<nat, Average>, mtime: Option<int>, cleared: bool)

  ghost function AfterLook(bootEnabled: bool, boot: seq<int>, c: Config, state: map<nat, Average>, mtime: Option<int>,
                     look: Look): Reloaded {
    var now := if look.Present? then Some(look.mtime) else None;
    if !bootEnabled || now == mtime then Reloaded(c, state, mtime, false)
    else if look.Absent? || look.content.None? then Reloaded(c, state, now, false)
    else
      var (next, complete) := Taken(c, look.content.value, boot);
      Reloaded(next, if complete then map[] else state, now, complete)
  }

  /** One more step of length `n` in the histogram. */
  function Counted(hist: map<int, nat>, n: int): map<int, nat> {
    hist[n := (if n in hist then hist[n] else 0) + 1]
  }

  /** The averages left after a step: on every `every`-th step those of requests that are gone are dropped. */
  ghost function Swept(state: map<nat, Average>, live: set<nat>, every: int, steps: nat): map<nat, Average> {
    if every > 0 && steps % every == 0 then map id | id in state && id in live :: state[id] else state
  }

  lemma CountedOnce(hist: map<int, nat>, n: int)
    ensures var now := Counted(hist, n);
            && n in now && now[n] == (if n in hist then hist[n] else 0) + 1 && now - {n} == hist - {n}
  {
  }

  lemma SweptKeeps(state: map<nat, Average>, live: set<nat>, every: int, steps: nat)
    ensures var now := Swept(state, live, every, steps);
            && (every <= 0 || steps % every != 0 ==> now == state)
            && (every > 0 && steps % every == 0 ==>
                  && (forall id :: id in now <==> id in state && id in live)
                  && forall id :: id in now ==> now[id] == state[id])
  {
  }

  class Policy {
    const bootSet: seq<int>
    const bootEnabled: bool
    const kMax: int
    const histEvery: int
    var config: Config
    var state: map<nat, Average>
    var hist: map<int, nat>
    var steps: nat
    var mtime: Option<int>

    ghost predicate Valid()
      reads `config
    {
      && bootSet != [] && Increasing(bootSet) && kMax == bootSet[|bootSet| - 1]
      && Sublist(config.kSet, bootSet) && (!bootEnabled ==> !config.enabled)
    }

    /** Every average lies between zero and the longest draft. */
    ghost predicate Bounded(longest: int)
      reads `state
    {
      && 0 <= kMax <= longest
      && forall id :: id in state ==> 0.0 <= state[id].ema <= longest as real
    }

    constructor (enabled: bool, alpha: real, margin: real, minSteps: int, bootSet: seq<int>, saturates: bool,
                 histEvery: int, look: Look)
      requires bootSet != [] && Increasing(bootSet)
      ensures Valid() && state == map[] && hist == map[] && steps == 0
      ensures var boot := Config(enabled, alpha, margin, minSteps, saturates, bootSet);
              var r := AfterLook(enabled, bootSet, boot, map[], None, look); config == r.config && mtime == r.mtime
      ensures this.bootSet == bootSet && bootEnabled == enabled && this.histEvery == histEvery
      ensures kMax == bootSet[|bootSet| - 1]
    {
      this.bootSet, bootEnabled, kMax, this.histEvery := bootSet, enabled, bootSet[|bootSet| - 1], histEvery;
      config := Config(enabled, alpha, margin, minSteps, saturates, bootSet);
      state, hist, steps, mtime := map[], map[], 0, None;
      new;
      Reload(look);
    }

    method Reload(look: Look)
      requires Valid()
      modifies `config, `state, `hist, `mtime
      ensures Valid()
      ensures var r := AfterLook(bootEnabled, bootSet, old(config), old(state), old(mtime), look);
              config == r.config && state == r.state && mtime == r.mtime
              && hist == if r.cleared then map[] else old(hist)
      ensures !bootEnabled || old(mtime) == (if look.Present? then Some(look.mtime) else None) ==>
                config == old(config) && state == old(state) && hist == old(hist) && mtime == old(mtime)
      ensures bootEnabled && look.Absent? && old(mtime) != None ==>
                config == old(config) && state == old(state) && hist == old(hist) && mtime == None
      ensures bootEnabled && look.Present? && old(mtime) != Some(look.mtime) ==>
                && mtime == Some(look.mtime)
                && (look.content.None? ==> config == old(config) && state == old(state) && hist == old(hist))
                && (look.content.Some? ==>
                      exists complete ::
                        && Takes(old(config), look.content.value, bootSet, config, complete)
                        && state == (if complete then map[] else old(state))
                        && hist == (if complete then map[] else old(hist)))
      ensures forall longest :: old(Bounded(longest)) ==> Bounded(longest)
    {
      if !bootEnabled {
        return;
      }
      var now := if look.Present? then Some(look.mtime) else None;
      if now == mtime {
        return;
      }
      mtime := now;
      if look.Absent? || look.content.None? {
        return;
      }
      TakenKeepsSublist(config, look.content.value, bootSet);
      TakenTakes(config, look.content.value, bootSet);
      hide Takes, Taken;
      var (next, complete) := Taken(config, look.content.value, bootSet);
      config := next;
      if complete {
        state, hist := map[], map[];
      }
    }

    method Observe(id: nat, draft: int, accepted: int)
      requires Valid()
      modifies `state
      ensures state == if !config.enabled || draft <= 0 then old(state)
                       else old(state)[id := Blend(if id in old(state) then Some(old(state)[id])
                                                   else None, config.alpha, kMax,
                                                   Observation(config.saturates, kMax, draft, accepted))]
      ensures config.enabled && draft > 0 ==>
                && id in state && state - {id} == old(state) - {id}
                && Moves(config.alpha, config.saturates, kMax,
                         if id in old(state) then Some(old(state)[id]) else None, draft, accepted, state[id])
      ensures 0.0 <= config.alpha <= 1.0 ==>
                forall longest :: old(Bounded(longest)) && 0 <= accepted <= draft <= longest ==> Bounded(longest)
    {
      if !config.enabled || draft <= 0 {
        return;
      }
      var st := if id in state then Some(state[id]) else None;
      var obs := Observation(config.saturates, kMax, draft, accepted);
      BlendMoves(config.alpha, config.saturates, kMax, st, draft, accepted);
      forall longest | 0.0 <= config.alpha <= 1.0 && Bounded(longest) && 0 <= accepted <= draft <= longest
        ensures 0.0 <= Blend(st, config.alpha, kMax, obs).ema <= longest as real
      {
        BlendBounds(st, config.alpha, config.saturates, kMax, draft, accepted, longest);
      }
      state := state[id := Blend(st, config.alpha, kMax, obs)];
    }

    method Count(n: int, live: set<nat>)
      modifies `hist, `steps, `state
      ensures steps == old(steps) + 1
      ensures hist == Counted(old(hist), n) && state == Swept(old(state), live, histEvery, steps)
      ensures n in hist && hist[n] == (if n in old(hist) then old(hist)[n] else 0) + 1 && hist - {n} == old(hist) - {n}
      ensures if histEvery > 0 && steps % histEvery == 0
              then (forall id :: id in state <==> id in old(state) && id in live)
                   && forall id :: id in state ==> state[id] == old(state)[id]
              else state == old(state)
      ensures forall longest :: old(Bounded(longest)) ==> Bounded(longest)
    {
      CountedOnce(hist, n);
      SweptKeeps(state, live, histEvery, steps + 1);
      hist := Counted(hist, n);
      steps := steps + 1;
      if histEvery > 0 && steps % histEvery == 0 {
        state := map id | id in state && id in live :: state[id];
      }
    }

    /** The state in which a step decides: every fiftieth step looks at the file first. */
    ghost function Deciding(look: Look): Reloaded
      reads this
    {
      if steps % 50 == 0 then AfterLook(bootEnabled, bootSet, config, state, mtime, look)
      else Reloaded(config, state, mtime, false)
    }

    /** The histogram that a step adds to. */
    ghost function Tallied(look: Look): map<int, nat>
      reads this
    {
      if Deciding(look).cleared then map[] else hist
    }

    method ReloadIfDue(look: Look)
      requires Valid()
      modifies `config, `state, `hist, `mtime
      ensures Valid()
      ensures var r := old(Deciding(look)); config == r.config && state == r.state && mtime == r.mtime
      ensures hist == old(Tallied(look))
      ensures forall longest :: old(Bounded(longest)) ==> Bounded(longest)
    {
      if steps % 50 == 0 {
        Reload(look);
      }
    }

    /** The number of draft slots of every request on the next step. */
    method BatchK(k: int, rs: seq<Option<Request>>, live: set<nat>, look: Look)
      returns (n: int, ghost seen: map<nat, Average>)
      requires Valid()
      modifies this
      ensures Valid() && steps == old(steps) + 1
      ensures var r := old(Deciding(look)); config == r.config && seen == r.state && mtime == r.mtime
      ensures n == if !config.enabled || k <= 0 then k else Agreed(Batch(config, seen, rs, k, |rs|), k)
      ensures state == if config.enabled && k > 0 then Swept(seen, live, histEvery, steps) else seen
      ensures hist == if config.enabled && k > 0 then Counted(old(Tallied(look)), n) else old(Tallied(look))
      ensures forall longest :: old(Bounded(longest)) ==> Bounded(longest)
      ensures if config.enabled && k > 0 then IsBatchLength(config, seen, rs, k, n) else n == k
      ensures k >= 1 && bootEnabled && Usable(bootSet, k) ==>
                1 <= n <= k && n + 1 in CapturedLens(bootEnabled, bootSet, {}, k + 1)
    {
      hide Batch, Agreed, Usable, Counted, Swept, Deciding, Tallied, IsBatchLength, Increasing;
      ReloadIfDue(look);
      assert config.kSet != [] && Increasing(config.kSet);
      assert k >= 1 && bootEnabled ==> k + 1 in CapturedLens(bootEnabled, bootSet, {}, k + 1);
      hide CapturedLens, Sublist;
      seen := state;
      if !config.enabled || k <= 0 {
        steps := steps + 1;
        return k, seen;
      }
      n := Agree(config, state, rs, k);
      AgreedIsLength(config, state, rs, k);
      if k >= 1 && bootEnabled && Usable(bootSet, k) {
        BatchCaptured(config, bootSet, state, rs, k, {}, |rs|);
      }
      Count(n, live);
    }

    /** Trims the drafts of one batch: to one common length, or not at all when some request has no choice. */
    method Apply(rs: seq<Drafted>, live: set<nat>, look: Look)
      returns (out: seq<seq<int>>, ghost seen: map<nat, Average>)
      requires Valid()
      modifies this
      ensures Valid() && |out| == |rs| && steps == old(steps) + 1
      ensures var r := old(Deciding(look)); config == r.config && seen == r.state && mtime == r.mtime
      ensures state == if config.enabled && rs != [] then Swept(seen, live, histEvery, steps) else seen
      ensures forall longest :: old(Bounded(longest)) ==> Bounded(longest)
      ensures !config.enabled || rs == [] ==> hist == old(Tallied(look))
      ensures config.enabled && rs != [] && !AllChoose(config, seen, rs) ==>
                exists n :: IsLongest(rs, n) && hist == Counted(old(Tallied(look)), n)
      ensures forall i :: 0 <= i < |rs| ==> out[i] <= rs[i].tokens
      ensures if config.enabled && rs != []
                 && forall i :: 0 <= i < |rs| ==>
                      !Stuck(config, seen, rs[i].id, rs[i].structured) && rs[i].tokens != []
              then exists n :: IsCommon(config, seen, rs, n) && forall i :: 0 <= i < |rs| ==> |out[i]| == n
              else forall i :: 0 <= i < |rs| ==> out[i] == rs[i].tokens
      ensures config.enabled && rs != [] && AllChoose(config, seen, rs) ==>
                exists n ::
                  && IsLeastChoice(config, seen, rs, n) && n >= 1 && (forall i :: 0 <= i < |rs| ==> |out[i]| == n)
                  && hist == Counted(old(Tallied(look)), n)
      ensures !(config.enabled && AllChoose(config, seen, rs)) ==> forall i :: 0 <= i < |rs| ==> out[i] == rs[i].tokens
    {
      hide Deciding, Tallied, Increasing, Counted, Swept, Choose;
      ReloadIfDue(look);
      assert config.kSet != [] && Increasing(config.kSet);
      hide Sublist;
      seen := state;
      if !config.enabled || rs == [] {
        steps := steps + 1;
        return seq(|rs|, i requires 0 <= i < |rs| => rs[i].tokens), seen;
      }
      LeastIsCommon(config, state, rs);
      hide Stuck, IsLength;
      var n := Shortest(config, state, rs);
      out := seq(|rs|, i requires 0 <= i < |rs| => if |rs[i].tokens| > n then rs[i].tokens[..n] else rs[i].tokens);
      Count(n, live);
    }
  }

  datatype Drafted = Drafted(id: nat, tokens: seq<int>, structured: bool)

  ghost predicate AllChoose(c: Config, state: map<nat, Average>, rs: seq<Drafted>)
    requires c.kSet != []
  {
    forall i :: 0 <= i < |rs| ==> Choose(c, state, rs[i].id, |rs[i].tokens|, rs[i].structured).Some?
  }

  /** The least length of drafts that all have one. */
  ghost predicate IsCommon(c: Config, state: map<nat, Average>, rs: seq<Drafted>, n: int) {
    && (forall i :: 0 <= i < |rs| ==> !Stuck(c, state, rs[i].id, rs[i].structured) && rs[i].tokens != [])
    && (exists i :: 0 <= i < |rs| && IsLength(c.kSet, c.margin, state[rs[i].id].ema, |rs[i].tokens|, n))
    && forall i, m ::
         0 <= i < |rs| && IsLength(c.kSet, c.margin, state[rs[i].id].ema, |rs[i].tokens|, m) ==> n <= m
  }

  lemma LeastIsCommon(c: Config, state: map<nat, Average>, rs: seq<Drafted>)
    requires c.enabled && c.kSet != [] && Increasing(c.kSet)
    ensures AllChoose(c, state, rs) <==>
            forall i :: 0 <= i < |rs| ==> !Stuck(c, state, rs[i].id, rs[i].structured) && rs[i].tokens != []
    ensures forall n :: IsLeastChoice(c, state, rs, n) ==> IsCommon(c, state, rs, n)
  {
    forall i | 0 <= i < |rs|
      ensures var x := Choose(c, state, rs[i].id, |rs[i].tokens|, rs[i].structured);
              && (x.None? <==> Stuck(c, state, rs[i].id, rs[i].structured) || rs[i].tokens == [])
              && (x.Some? ==> forall n :: IsLength(c.kSet, c.margin, state[rs[i].id].ema, |rs[i].tokens|, n) <==>
                                            n == x.value)
    {
      ChooseIs(c, state, rs[i].id, |rs[i].tokens|, rs[i].structured);
    }
    hide Choose, Stuck, IsLength;
  }

  /** The length of the longest draft. */
  ghost predicate IsLongest(rs: seq<Drafted>, n: int) {
    && (forall i :: 0 <= i < |rs| ==> |rs[i].tokens| <= n)
    && exists i :: 0 <= i < |rs| && |rs[i].tokens| == n
  }

  ghost predicate IsLeastChoice(c: Config, state: map<nat, Average>, rs: seq<Drafted>, n: int)
    requires c.kSet != []
  {
    && AllChoose(c, state, rs)
    && (forall i :: 0 <= i < |rs| ==> n <= Choose(c, state, rs[i].id, |rs[i].tokens|, rs[i].structured).value)
    && exists i :: 0 <= i < |rs| && Choose(c, state, rs[i].id, |rs[i].tokens|, rs[i].structured) == Some(n)
  }

  /** The least choice, or the longest draft when someone has none. */
  method Shortest(c: Config, state: map<nat, Average>, rs: seq<Drafted>) returns (n: nat)
    requires c.kSet != [] && rs != []
    ensures AllChoose(c, state, rs) ==>
              IsLeastChoice(c, state, rs, n) && n >= 1 && forall i :: 0 <= i < |rs| ==> n <= |rs[i].tokens|
    ensures !AllChoose(c, state, rs) ==> IsLongest(rs, n)
  {
    hide Ceil, Pick;
    var best: Option<int> := None;
    var longest := 0;
    var pinned := false;
    for i := 0 to |rs|
      invariant pinned <==> exists j :: 0 <= j < i && Choose(c, state, rs[j].id, |rs[j].tokens|, rs[j].structured).None?
      invariant forall j :: 0 <= j < i ==> |rs[j].tokens| <= longest
      invariant if i == 0 then longest == 0 else exists j :: 0 <= j < i && |rs[j].tokens| == longest
      invariant !pinned ==> (best.None? <==> i == 0)
      invariant !pinned && best.Some? ==> best.value >= 1 && forall j :: 0 <= j < i ==> best.value <= |rs[j].tokens|
      invariant !pinned ==> forall j :: 0 <= j < i ==>
                  best.value <= Choose(c, state, rs[j].id, |rs[j].tokens|, rs[j].structured).value
      invariant !pinned && best.Some? ==>
                  exists j :: 0 <= j < i && Choose(c, state, rs[j].id, |rs[j].tokens|, rs[j].structured) == best
    {
      var x := Choose(c, state, rs[i].id, |rs[i].tokens|, rs[i].structured);
      if x.None? {
        pinned := true;
      } else {
        PickBounds(c.kSet, Ceil(state[rs[i].id].ema + c.margin), |rs[i].tokens|);
        if best.None? || x.value < best.value { best := x; }
      }
      if |rs[i].tokens| > longest { longest := |rs[i].tokens|; }
    }
    n := if pinned then longest else best.value;
  }

  lemma PickBounds(s: seq<int>, target: int, k: int)
    requires s != [] && k >= 1
    ensures 1 <= Pick(s, target, k) <= k
  {
  }
}
