/** The adaptive decode-first scheduler: a token bucket, with packet sizes that change from step to step,
    deciding when a prefill packet may join a batch that is also decoding. */
module DecodeFirst {
  import opened Arith
  import opened Wrappers

  // ---------------------------------------------------------------- profiles

  datatype RawTier = RawTier(maxDecoders: int, packet: int, interval: int, extra: Option<int>, maxPacket: Option<int>)
  datatype Raw = Raw(tiers: Option<seq<RawTier>>, globalBudget: Option<bool>, pureThreshold: Option<int>)

  datatype Tier = Tier(maxDecoders: int, packet: int, interval: int, extra: int, maxPacket: int)
  datatype Profile = Profile(globalBudget: bool, pureThreshold: int, tiers: seq<Tier>)

  function DefaultTiers(packet: int, interval: int): seq<RawTier> {
    [RawTier(2, packet, interval, None, None),
     RawTier(4, packet, if interval - 1 > 1 then interval - 1 else 1, None, None),
     RawTier(6, packet, if interval - 2 > 1 then interval - 2 else 1, None, None)]
  }

  function Normal(t: RawTier): Tier {
    Tier(t.maxDecoders, t.packet, t.interval, Or(t.extra, 0), Or(t.maxPacket, t.packet))
  }

  predicate TierOk(t: Tier) {
    t.packet > 0 && t.interval > 0 && t.extra >= 0 && t.maxPacket >= t.packet
  }

  predicate RisingTiers(tiers: seq<Tier>) {
    && (tiers != [] ==> tiers[0].maxDecoders > 0)
    && forall i :: 0 < i < |tiers| ==> tiers[i - 1].maxDecoders < tiers[i].maxDecoders
  }

  /** What every profile in use satisfies. */
  predicate ProfileOk(p: Profile) {
    && p.tiers != [] && RisingTiers(p.tiers) && (forall i :: 0 <= i < |p.tiers| ==> TierOk(p.tiers[i]))
    && p.tiers[|p.tiers| - 1].maxDecoders >= 6 && p.pureThreshold >= 0
  }

  function Normalized(raw: Raw, packet: int, interval: int): Profile {
    var tiers := Or(raw.tiers, DefaultTiers(packet, interval));
    Profile(Or(raw.globalBudget, true), Or(raw.pureThreshold, 0),
            seq(|tiers|, i requires 0 <= i < |tiers| => Normal(tiers[i])))
  }

  /** What the validation demands of a raw profile; without tiers it demands it of the fallback settings. */
  ghost predicate Acceptable(raw: Raw, packet: int, interval: int) {
    && (raw.pureThreshold.Some? ==> raw.pureThreshold.value >= 0)
    && match raw.tiers
       case None => packet > 0 && interval > 0
       case Some(tiers) =>
         && |tiers| > 0 && tiers[|tiers| - 1].maxDecoders >= 6 && tiers[0].maxDecoders > 0
         && (forall i, j :: 0 <= i < j < |tiers| ==> tiers[i].maxDecoders < tiers[j].maxDecoders)
         && (forall i :: 0 <= i < |tiers| ==> tiers[i].packet > 0 && tiers[i].interval > 0)
         && (forall i :: 0 <= i < |tiers| && tiers[i].extra.Some? ==> tiers[i].extra.value >= 0)
         && forall i :: 0 <= i < |tiers| && tiers[i].maxPacket.Some? ==> tiers[i].maxPacket.value >= tiers[i].packet
  }

  /** Profile `p` is what raw profile `raw` says, absent entries at their defaults. */
  ghost predicate Says(raw: Raw, packet: int, interval: int, p: Profile) {
    && (match raw.globalBudget case Some(g) => p.globalBudget == g case None => p.globalBudget)
    && (match raw.pureThreshold case Some(t) => p.pureThreshold == t case None => p.pureThreshold == 0)
    && match raw.tiers
       case None =>
         && |p.tiers| == 3
         && forall i :: 0 <= i < 3 ==>
              && p.tiers[i].maxDecoders == 2 * (i + 1) && p.tiers[i].packet == packet == p.tiers[i].maxPacket
              && p.tiers[i].extra == 0
              && (if interval > i + 1 then p.tiers[i].interval == interval - i
                  else p.tiers[i].interval == if i == 0 then interval else 1)
       case Some(tiers) =>
         && |p.tiers| == |tiers|
         && forall i :: 0 <= i < |tiers| ==> TierSays(tiers[i], p.tiers[i])
  }

  ghost predicate TierSays(raw: RawTier, t: Tier) {
    && t.maxDecoders == raw.maxDecoders && t.packet == raw.packet && t.interval == raw.interval
    && (match raw.extra case Some(e) => t.extra == e case None => t.extra == 0)
    && (match raw.maxPacket case Some(m) => t.maxPacket == m case None => t.maxPacket == t.packet)
  }

  lemma NormalizedSays(raw: Raw, packet: int, interval: int)
    ensures Says(raw, packet, interval, Normalized(raw, packet, interval))
  {
    var p := Normalized(raw, packet, interval);
    if raw.tiers.None? {
      forall i | 0 <= i < 3
        ensures p.tiers[i] == Normal(DefaultTiers(packet, interval)[i])
      {
      }
    }
  }

  lemma UsableIffAcceptable(raw: Raw, packet: int, interval: int)
    ensures ProfileOk(Normalized(raw, packet, interval)) <==> Acceptable(raw, packet, interval)
  {
    var p := Normalized(raw, packet, interval);
    NormalizedSays(raw, packet, interval);
    if raw.tiers.Some? {
      SameTiers(raw.tiers.value, p.tiers);
    } else {
      DefaultsOk(p.tiers, packet, interval);
    }
    hide Normalized, Says;
  }

  lemma DefaultsOk(tiers: seq<Tier>, packet: int, interval: int)
    requires Says(Raw(None, None, None), packet, interval, Profile(true, 0, tiers))
    ensures |tiers| == 3 && tiers[2].maxDecoders >= 6
    ensures RisingTiers(tiers) && (forall i :: 0 <= i < 3 ==> TierOk(tiers[i])) <==> packet > 0 && interval > 0
  {
    assert TierOk(tiers[0]) <==> packet > 0 && interval > 0;
  }

  lemma SameTiers(raw: seq<RawTier>, tiers: seq<Tier>)
    requires |raw| == |tiers| && forall i :: 0 <= i < |raw| ==> TierSays(raw[i], tiers[i])
    ensures forall i :: 0 <= i < |raw| ==>
              (TierOk(tiers[i]) <==>
                && raw[i].packet > 0 && raw[i].interval > 0 && (raw[i].extra.Some? ==> raw[i].extra.value >= 0)
                && (raw[i].maxPacket.Some? ==> raw[i].maxPacket.value >= raw[i].packet))
    ensures RisingTiers(tiers) <==>
              && (raw != [] ==> raw[0].maxDecoders > 0)
              && forall i, j :: 0 <= i < j < |raw| ==> raw[i].maxDecoders < raw[j].maxDecoders
  {
    if RisingTiers(tiers) {
      forall i, j | 0 <= i < j < |raw|
        ensures raw[i].maxDecoders < raw[j].maxDecoders
      {
        RisingFrom(tiers, i + 1, j);
      }
    }
  }

  /** Accepts exactly the acceptable raw profiles, and returns what they say. */
  method ValidateProfile(raw: Raw, packet: int, interval: int) returns (r: Option<Profile>)
    ensures r.Some? <==> Acceptable(raw, packet, interval)
    ensures r.Some? ==> Says(raw, packet, interval, r.value)
    ensures r.Some? <==> ProfileOk(Normalized(raw, packet, interval))
    ensures r.Some? ==> r.value == Normalized(raw, packet, interval)
  {
    UsableIffAcceptable(raw, packet, interval);
    NormalizedSays(raw, packet, interval);
    hide Acceptable, Says;
    var tiers := Or(raw.tiers, DefaultTiers(packet, interval));
    ghost var all := Normalized(raw, packet, interval).tiers;
    if tiers == [] {
      return None;
    }
    var normal: seq<Tier> := [];
    var previous := 0;
    for i := 0 to |tiers|
      invariant normal == all[..i] && RisingTiers(normal) && forall j :: 0 <= j < i ==> TierOk(normal[j])
      invariant previous == if i == 0 then 0 else normal[i - 1].maxDecoders
    {
      var t := Normal(tiers[i]);
      assert t == all[i];
      if t.maxDecoders <= previous || !TierOk(t) {
        assert i > 0 ==> all[i - 1] == normal[i - 1];
        return None;
      }
      normal, previous := normal + [t], t.maxDecoders;
    }
    assert normal == all;
    if previous < 6 || Or(raw.pureThreshold, 0) < 0 {
      return None;
    }
    r := Some(Profile(Or(raw.globalBudget, true), Or(raw.pureThreshold, 0), normal));
  }

  /** A profile read as the scheduler sees it: whether the last check is too recent, and the file if one is set. */
  datatype File = NoPath | File(same: bool, content: Option<Raw>)
  datatype Look = Look(tooSoon: bool, file: File)

  /** The profile a step uses: a recent or unchanged one is kept, a usable one read, a bad one ignored once there is
      one. */
  function Looked(cached: Option<Profile>, look: Look, packet: int, interval: int): (r: Option<Profile>)
    requires cached.Some? ==> ProfileOk(cached.value)
    ensures r.Some? ==> ProfileOk(r.value)
  {
    if cached.Some? && (look.tooSoon || (look.file.File? && look.file.same)) then cached
    else match look.file
      case NoPath => Usable(Raw(None, None, None), packet, interval)
      case File(_, content) =>
        var read := if content.Some? then Usable(content.value, packet, interval) else None;
        if read.Some? then read else cached
  }

  function Usable(raw: Raw, packet: int, interval: int): Option<Profile> {
    var p := Normalized(raw, packet, interval);
    if ProfileOk(p) then Some(p) else None
  }

  /** The same of the look itself, by cases: `r` is the profile for a step, or none when there is no usable one. */
  ghost predicate Answers(cached: Option<Profile>, look: Look, packet: int, interval: int, r: Option<Profile>) {
    if cached.Some? && (look.tooSoon || (look.file.File? && look.file.same)) then r == cached
    else match look.file
      case NoPath =>
        && (r.Some? <==> packet > 0 && interval > 0)
        && (r.Some? ==> Says(Raw(None, None, None), packet, interval, r.value))
      case File(_, content) =>
        if content.Some? && Acceptable(content.value, packet, interval)
        then r.Some? && Says(content.value, packet, interval, r.value)
        else r == cached
  }

  lemma LookedAnswers(cached: Option<Profile>, look: Look, packet: int, interval: int)
    requires cached.Some? ==> ProfileOk(cached.value)
    ensures Answers(cached, look, packet, interval, Looked(cached, look, packet, interval))
  {
    var fallback := Raw(None, None, None);
    UsableIffAcceptable(fallback, packet, interval);
    NormalizedSays(fallback, packet, interval);
    assert Acceptable(fallback, packet, interval) <==> packet > 0 && interval > 0;
    if look.file.File? && look.file.content.Some? {
      UsableIffAcceptable(look.file.content.value, packet, interval);
      NormalizedSays(look.file.content.value, packet, interval);
    }
    hide Acceptable, Says, Normalized, ProfileOk;
  }

  function SelectTier(p: Profile, decoders: int, n: nat): (t: Tier)
    requires p.tiers != [] && n <= |p.tiers|
    decreases |p.tiers| - n
  {
    if n == |p.tiers| then p.tiers[n - 1]
    else if decoders <= p.tiers[n].maxDecoders then p.tiers[n]
    else SelectTier(p, decoders, n + 1)
  }

  /** The chosen tier is the narrowest that covers the decoders, and the widest there is when none does. */
  lemma {:induction false} TierIsNarrowest(p: Profile, decoders: int, n: nat)
    requires ProfileOk(p) && n <= |p.tiers| && forall i :: 0 <= i < n ==> p.tiers[i].maxDecoders < decoders
    ensures SelectTier(p, decoders, n) in p.tiers
    ensures forall i :: 0 <= i < |p.tiers| && decoders <= p.tiers[i].maxDecoders ==>
              decoders <= SelectTier(p, decoders, n).maxDecoders <= p.tiers[i].maxDecoders
    ensures forall i :: 0 <= i < |p.tiers| && SelectTier(p, decoders, n).maxDecoders < decoders ==>
              p.tiers[i].maxDecoders <= SelectTier(p, decoders, n).maxDecoders
    decreases |p.tiers| - n
  {
    if n == |p.tiers| {
      RisingApart(p.tiers);
    } else if decoders <= p.tiers[n].maxDecoders {
      RisingApart(p.tiers);
    } else {
      TierIsNarrowest(p, decoders, n + 1);
    }
  }

  lemma {:induction false} RisingFrom(tiers: seq<Tier>, i: nat, j: nat)
    requires RisingTiers(tiers) && i <= j < |tiers|
    ensures tiers[i].maxDecoders <= tiers[j].maxDecoders
  {
    if i < j { RisingFrom(tiers, i, j - 1); }
  }

  lemma RisingApart(tiers: seq<Tier>)
    requires RisingTiers(tiers)
    ensures forall i, j :: 0 <= i <= j < |tiers| ==> tiers[i].maxDecoders <= tiers[j].maxDecoders
  {
    forall i, j | 0 <= i <= j < |tiers|
      ensures tiers[i].maxDecoders <= tiers[j].maxDecoders
    {
      RisingFrom(tiers, i, j);
    }
  }

  function EffectivePacket(t: Tier, prefills: nat): (p: int)
    requires TierOk(t)
    ensures t.packet <= p <= t.maxPacket
  {
    var wanted := t.packet + (if prefills > 1 then prefills - 1 else 0) * t.extra;
    if wanted < t.maxPacket then wanted else t.maxPacket
  }

  /** A lone prefill gets the base packet, and more prefills never shrink it. */
  lemma PacketGrows(t: Tier, fewer: nat, more: nat)
    requires TierOk(t) && fewer <= more
    ensures EffectivePacket(t, fewer) <= EffectivePacket(t, more)
    ensures fewer <= 1 ==> EffectivePacket(t, fewer) == t.packet
  {
    MulMono(if fewer > 1 then fewer - 1 else 0, if more > 1 then more - 1 else 0, t.extra);
  }

  /** Credit earned by one decode-bearing step. */
  function Increment(packet: int, interval: int): int {
    if packet <= 0 then 0 else var k := if interval > 1 then interval else 1; (packet + k - 1) / k
  }

  // ---------------------------------------------------------------- the bucket

  /** What one step brings: the packet and interval of its tier, whether decoders and prefills are both
      present, the caller's throttle, and the prefill tokens the parent then scheduled. */
  datatype Input = Input(packet: int, interval: int, mixed: bool, throttled: bool, scheduled: nat)

  datatype Bucket = Bucket(credit: Option<int>, active: bool)

  function Credit(b: Bucket, x: Input): int {
    if !x.mixed || !b.active then x.packet
    else
      var kept := if b.credit.Some? && b.credit.value < x.packet then b.credit.value else x.packet;
      var grown := kept + Increment(x.packet, x.interval);
      if grown < x.packet then grown else x.packet
  }

  predicate Admit(b: Bucket, x: Input) {
    x.mixed && !x.throttled && (b.active ==> Credit(b, x) >= x.packet)
  }

  ghost function After(b: Bucket, x: Input): Bucket {
    var c := Credit(b, x);
    Bucket(Some(if Admit(b, x) then (if c > x.scheduled then c - x.scheduled else 0) else c), x.mixed)
  }

  ghost function Run(b: Bucket, xs: seq<Input>, n: nat): Bucket
    requires n <= |xs|
  {
    if n == 0 then b else After(Run(b, xs, n - 1), xs[n - 1])
  }

  ghost predicate BucketOk(b: Bucket) {
    b.credit.Some? ==> b.credit.value >= 0
  }

  ghost predicate InputOk(x: Input) {
    x.packet > 0 && x.interval > 0
  }

  lemma IncrementBounds(packet: int, interval: int)
    requires packet > 0 && interval > 0
    ensures 1 <= Increment(packet, interval) <= packet
    ensures interval * Increment(packet, interval) >= packet
    ensures interval * (Increment(packet, interval) - 1) < packet
  {
    var q := Increment(packet, interval);
    assert packet + interval - 1 == q * interval + (packet + interval - 1) % interval;
    assert q * interval == interval * q;
    assert interval * (q - 1) == interval * q - interval;
    if q > packet {
      MulMono(packet + 1, q, interval);
      assert (packet + 1) * interval == packet + (packet * (interval - 1)) + interval;
      MulMono(1, packet, interval - 1);
    }
  }

  /** Credit stays between zero and the current packet, whatever happens. */
  lemma {:induction false} CreditInRange(b: Bucket, xs: seq<Input>, n: nat)
    requires BucketOk(b) && 0 < n <= |xs| && forall i :: 0 <= i < |xs| ==> InputOk(xs[i])
    ensures var r := Run(b, xs, n); r.credit.Some? && 0 <= r.credit.value <= xs[n - 1].packet
    ensures 0 <= Credit(Run(b, xs, n - 1), xs[n - 1]) <= xs[n - 1].packet
  {
    if n > 1 { CreditInRange(b, xs, n - 1); }
    assert InputOk(xs[n - 1]);
    IncrementBounds(xs[n - 1].packet, xs[n - 1].interval);
  }

  // ---------------------------------------------------------------- volume

  ghost function Scheduled(xs: seq<Input>, n: nat): nat
    requires n <= |xs|
  {
    if n == 0 then 0 else Scheduled(xs, n - 1) + xs[n - 1].scheduled
  }

  /** The first packet, then one increment a step. */
  ghost function Earned(xs: seq<Input>, n: nat): int
    requires n <= |xs|
  {
    if n == 0 then 0
    else if n == 1 then xs[0].packet
    else Earned(xs, n - 1) + Increment(xs[n - 1].packet, xs[n - 1].interval)
  }

  /** Tokens the parent scheduled beyond the packet of their own step. */
  ghost function Overrun(xs: seq<Input>, n: nat): nat
    requires n <= |xs|
  {
    if n == 0 then 0
    else Overrun(xs, n - 1)
         + if xs[n - 1].scheduled > xs[n - 1].packet then xs[n - 1].scheduled - xs[n - 1].packet else 0
  }

  /** All `n` steps are mixed, and a step that does not admit a packet schedules no prefill token. */
  ghost predicate Obeyed(b: Bucket, xs: seq<Input>, n: nat)
    requires n <= |xs|
  {
    n > 0 ==>
      && Obeyed(b, xs, n - 1) && xs[n - 1].mixed
      && (Admit(Run(b, xs, n - 1), xs[n - 1]) || xs[n - 1].scheduled == 0)
  }

  /** Over every window of a mixed phase, whatever the tiers do, the prefill tokens scheduled and the credit left are
      at most the window's first packet, an increment for each later step, and what overran its packet. */
  lemma {:induction false} VolumeBound(b: Bucket, xs: seq<Input>, n: nat)
    requires BucketOk(b) && 0 < n <= |xs| && Obeyed(b, xs, n) && forall i :: 0 <= i < |xs| ==> InputOk(xs[i])
    ensures Run(b, xs, n).credit.Some?
    ensures Scheduled(xs, n) + Run(b, xs, n).credit.value <= Earned(xs, n) + Overrun(xs, n)
    ensures Run(b, xs, n).credit.value >= 0 && Run(b, xs, n).active
  {
    CreditInRange(b, xs, n);
    assert InputOk(xs[n - 1]);
    if n > 1 {
      VolumeBound(b, xs, n - 1);
      StepVolume(Run(b, xs, n - 1), xs[n - 1]);
    } else {
      StepVolume(b, xs[0]);
    }
  }

  lemma StepVolume(b: Bucket, x: Input)
    requires InputOk(x) && BucketOk(b) && x.mixed && (Admit(b, x) || x.scheduled == 0)
    ensures After(b, x).credit.Some?
    ensures var over := if x.scheduled > x.packet then x.scheduled - x.packet else 0;
            && x.scheduled + After(b, x).credit.value <= Credit(b, x) + over
            && Credit(b, x) <= x.packet
            && (b.active && b.credit.Some? ==> Credit(b, x) <= b.credit.value + Increment(x.packet, x.interval))
  {
    IncrementBounds(x.packet, x.interval);
  }

  /** The volume is the steps' own tokens, and windows add up. */
  lemma {:induction false} ScheduledAdds(xs: seq<Input>, m: nat, n: nat)
    requires m <= n <= |xs|
    ensures Scheduled(xs, n) == Scheduled(xs, m) + Scheduled(xs[m..], n - m)
    ensures n == m + 1 ==> Scheduled(xs[m..], 1) == xs[m].scheduled
  {
    if m < n {
      ScheduledAdds(xs, m, n - 1);
      assert xs[m..][n - 1 - m] == xs[n - 1];
    }
  }

  /** The per-request limit the scheduler sets when it admits a packet. */
  function ScopedThreshold(globalBudget: bool, packet: int, prefills: nat): int
    requires prefills > 0
  {
    if globalBudget then (if packet / prefills > 1 then packet / prefills else 1) else packet
  }

  /** The comment that the floor division gives "a strict aggregate upper bound" holds for exactly these
      settings: all prefills together stay within the packet. */
  lemma AggregateBoundIff(globalBudget: bool, packet: int, prefills: nat)
    requires packet > 0 && prefills > 0
    ensures prefills * ScopedThreshold(globalBudget, packet, prefills) <= packet
            <==> prefills == 1 || (globalBudget && prefills <= packet)
  {
    if globalBudget {
      if prefills > packet {
        DivModUnique(packet, prefills, 0, packet);
      } else {
        ShareFits(packet, prefills);
      }
    } else if prefills > 1 {
      MulMono(2, prefills, packet);
    }
  }

  /** And no more is lost than it must be: the limit is the greatest that keeps the bound, so fewer tokens than there
      are prefills go unused; with more prefills than tokens each may have one, without a global budget the packet. */
  lemma LimitIsGreatest(globalBudget: bool, packet: int, prefills: nat)
    requires packet > 0 && prefills > 0
    ensures var limit := ScopedThreshold(globalBudget, packet, prefills);
            && (globalBudget && prefills <= packet ==>
                  prefills * limit <= packet < prefills * (limit + 1) && packet - prefills * limit < prefills)
            && (globalBudget && prefills > packet ==> limit == 1)
            && (!globalBudget ==> limit == packet)
  {
    if prefills > packet {
      DivModUnique(packet, prefills, 0, packet);
    } else {
      ShareFits(packet, prefills);
      var share := packet / prefills;
      assert packet == share * prefills + packet % prefills && share * prefills == prefills * share;
      assert prefills * (share + 1) == prefills * share + prefills;
    }
  }

  lemma ShareFits(packet: int, prefills: Pos)
    requires prefills <= packet
    ensures packet / prefills >= 1 && prefills * (packet / prefills) <= packet
  {
    var share := packet / prefills;
    assert packet == share * prefills + packet % prefills && share * prefills == prefills * share;
    DivMono(prefills, packet, prefills);
    DivModUnique(prefills, prefills, 1, 0);
  }

  /** Seven prefills under a six-token packet are scheduled seven tokens. */
  lemma AggregateBoundFails()
    ensures 7 * ScopedThreshold(true, 6, 7) > 6
  {
    assert 6 / 7 == 0;
  }

  // ---------------------------------------------------------------- progress

  /** No packet was admitted in the first `n` steps. */
  ghost predicate Starved(b: Bucket, xs: seq<Input>, n: nat)
    requires n <= |xs|
  {
    n > 0 ==> Starved(b, xs, n - 1) && xs[n - 1].mixed && !xs[n - 1].throttled && !Admit(Run(b, xs, n - 1), xs[n - 1])
  }

  lemma {:induction false} StarvedCredit(b: Bucket, xs: seq<Input>, n: nat, least: nat)
    requires BucketOk(b) && 0 < n <= |xs| && Starved(b, xs, n)
    requires forall i :: 0 <= i < |xs| ==> InputOk(xs[i]) && Increment(xs[i].packet, xs[i].interval) >= least
    ensures var r := Run(b, xs, n); r.credit.Some? && n * least <= r.credit.value < xs[n - 1].packet
  {
    assert InputOk(xs[n - 1]);
    IncrementBounds(xs[n - 1].packet, xs[n - 1].interval);
    if n > 1 {
      StarvedCredit(b, xs, n - 1, least);
      assert n * least == (n - 1) * least + least;
    }
  }

  /** Bounded wait with tiers and prefill counts changing at every step: with no outside throttle, a mixed
      phase goes at most `(largest packet - 1) / smallest increment` steps without admitting a packet. */
  lemma BoundedWait(b: Bucket, xs: seq<Input>, n: nat, least: Pos, largest: nat)
    requires BucketOk(b) && n <= |xs| && Starved(b, xs, n)
    requires forall i :: 0 <= i < |xs| ==>
               InputOk(xs[i]) && xs[i].packet <= largest
               && Increment(xs[i].packet, xs[i].interval) >= least
    ensures n * least < largest || n == 0
    ensures n > 0 ==> n <= (largest - 1) / least
  {
    if n > 0 {
      StarvedCredit(b, xs, n, least);
      assert xs[n - 1].packet <= largest;
      DivMono(n * least, largest - 1, least);
      DivModUnique(n * least, least, n, 0);
    }
  }

  lemma WaitQuotient(b: Bucket, xs: seq<Input>, n: nat, least: Pos, largest: Pos)
    requires BucketOk(b) && n <= |xs| && Starved(b, xs, n)
    requires forall i :: 0 <= i < |xs| ==>
               InputOk(xs[i]) && xs[i].packet <= largest && Increment(xs[i].packet, xs[i].interval) >= least
    ensures n <= (largest - 1) / least
  {
    BoundedWait(b, xs, n, least, largest);
    DivMono(0, largest - 1, least);
  }

  /** With a fixed tier it admits one in any `interval` consecutive steps. */
  lemma FixedTierWait(b: Bucket, xs: seq<Input>, n: nat, packet: int, interval: int)
    requires BucketOk(b) && n <= |xs| && Starved(b, xs, n) && packet > 0 && interval > 0
    requires forall i :: 0 <= i < |xs| ==> xs[i].packet == packet && xs[i].interval == interval
    ensures n < interval
  {
    IncrementBounds(packet, interval);
    if n > 0 {
      StarvedCredit(b, xs, n, Increment(packet, interval));
      if n >= interval { MulMono(interval, n, Increment(packet, interval)); }
    }
  }

  /** The wait is exactly as long as the missing credit takes to earn. */
  lemma {:induction false} WaitIsExact(c: nat, xs: seq<Input>, n: nat, packet: int, interval: int)
    requires n <= |xs| && packet > 0 && interval > 0 && c < packet
    requires forall i :: 0 <= i < |xs| ==>
               xs[i].packet == packet && xs[i].interval == interval && xs[i].mixed && !xs[i].throttled
    ensures Starved(Bucket(Some(c), true), xs, n) <==> c + n * Increment(packet, interval) < packet
    ensures Starved(Bucket(Some(c), true), xs, n) ==>
              Run(Bucket(Some(c), true), xs, n) == Bucket(Some(c + n * Increment(packet, interval)), true)
  {
    IncrementBounds(packet, interval);
    var step := Increment(packet, interval);
    if n > 0 {
      WaitIsExact(c, xs, n - 1, packet, interval);
      assert n * step == (n - 1) * step + step;
      assert xs[n - 1].mixed;
    }
  }

  // ---------------------------------------------------------------- the scheduler object

  datatype Request = Request(id: nat, isPrefill: bool)

  function CountPrefills(rs: seq<Request>, n: nat): (c: nat)
    requires n <= |rs|
    ensures c <= n
  {
    if n == 0 then 0 else CountPrefills(rs, n - 1) + if rs[n - 1].isPrefill then 1 else 0
  }

  ghost predicate IsPrefill(rs: seq<Request>, id: nat) {
    exists i :: 0 <= i < |rs| && rs[i] == Request(id, true)
  }

  /** Tokens given to the ids of a set. */
  ghost function Tokens(items: seq<(nat, nat)>, ids: set<nat>, n: nat): nat
    requires n <= |items|
  {
    if n == 0 then 0 else Tokens(items, ids, n - 1) + if items[n - 1].0 in ids then items[n - 1].1 else 0
  }

  ghost function Entries(items: seq<(nat, nat)>, ids: set<nat>, n: nat): nat
    requires n <= |items|
  {
    if n == 0 then 0 else Entries(items, ids, n - 1) + if items[n - 1].0 in ids then 1 else 0
  }

  /** The stock scheduler's request queues and slot count. */
  datatype Queues = Queues(running: seq<Request>, waiting: seq<Request>, skipped: seq<Request>, maxRunning: nat)
  {
    function Decoders(): (d: nat) {
      |running| - CountPrefills(running, |running|)
    }

    /** Running prefills, and waiting ones as far as sequence slots are free. */
    function Prefills(): (p: nat) {
      var free := if maxRunning > |running| then maxRunning - |running| else 0;
      var queued := CountPrefills(waiting, |waiting|) + CountPrefills(skipped, |skipped|);
      CountPrefills(running, |running|) + if free < queued then free else queued
    }

    ghost predicate IsPrefillId(id: nat) {
      IsPrefill(running, id) || IsPrefill(waiting, id) || IsPrefill(skipped, id)
    }

    method PrefillIds() returns (ids: set<nat>)
      ensures forall id: nat :: id in ids <==> IsPrefillId(id)
    {
      var a := PrefillIdsOf(running);
      var b := PrefillIdsOf(waiting);
      var c := PrefillIdsOf(skipped);
      ids := a + b + c;
    }
  }

  /** Counted item by item: one item counts its tokens if its id is in the set, and parts add up. */
  lemma {:induction false} TokensAdd(items: seq<(nat, nat)>, ids: set<nat>, m: nat, n: nat)
    requires m <= n <= |items|
    ensures Tokens(items, ids, n) == Tokens(items, ids, m) + Tokens(items[m..], ids, n - m)
    ensures n == m + 1 ==> Tokens(items[m..], ids, 1) == if items[m].0 in ids then items[m].1 else 0
  {
    if m < n {
      TokensAdd(items, ids, m, n - 1);
      assert items[m..][n - 1 - m] == items[n - 1];
    }
  }

  /** The requests of a queue of the given kind, by place. */
  ghost function Places(rs: seq<Request>, prefill: bool, n: nat): set<nat>
    requires n <= |rs|
  {
    set i: nat | i < n && rs[i].isPrefill == prefill
  }

  lemma {:induction false} CountIsPlaces(rs: seq<Request>, n: nat)
    requires n <= |rs|
    ensures CountPrefills(rs, n) == |Places(rs, true, n)| && n - CountPrefills(rs, n) == |Places(rs, false, n)|
  {
    if n == 0 {
      assert Places(rs, true, 0) == {} == Places(rs, false, 0);
    } else {
      CountIsPlaces(rs, n - 1);
      var kind := rs[n - 1].isPrefill;
      assert Places(rs, kind, n) == Places(rs, kind, n - 1) + {n - 1};
      assert Places(rs, !kind, n) == Places(rs, !kind, n - 1);
    }
  }

  /** Decoders are the running requests past prefill. Prefills are the running ones and as many of the waiting and
      skipped ones as there are free sequence slots. */
  ghost predicate Counted(q: Queues, decoders: nat, prefills: nat) {
    var ready, queued := |Places(q.running, true, |q.running|)|,
                         |Places(q.waiting, true, |q.waiting|)| + |Places(q.skipped, true, |q.skipped|)|;
    && decoders == |Places(q.running, false, |q.running|)|
    && ready <= prefills <= ready + queued
    && (prefills > ready ==> |q.running| + (prefills - ready) <= q.maxRunning)
    && (prefills < ready + queued ==> |q.running| + (prefills - ready) >= q.maxRunning)
  }

  lemma QueuesCounted(q: Queues)
    ensures Counted(q, q.Decoders(), q.Prefills())
  {
    CountIsPlaces(q.running, |q.running|);
    CountIsPlaces(q.waiting, |q.waiting|);
    CountIsPlaces(q.skipped, |q.skipped|);
    hide Places, CountPrefills;
  }

  /** Each scheduled item counts once for whichever of two apart sets of ids it is in, and not for others. */
  lemma {:induction false} TokensApart(items: seq<(nat, nat)>, a: set<nat>, b: set<nat>, n: nat)
    requires n <= |items| && a !! b
    ensures Tokens(items, a + b, n) == Tokens(items, a, n) + Tokens(items, b, n)
    ensures (forall i :: 0 <= i < n ==> items[i].0 !in a) ==> Tokens(items, a, n) == 0
    ensures n > 0 && a == {items[n - 1].0} && (forall i :: 0 <= i < n - 1 ==> items[i].0 !in a) ==>
              Tokens(items, a, n) == items[n - 1].1
  {
    if n > 0 { TokensApart(items, a, b, n - 1); }
  }

  class AdaptiveScheduler {
    var queues: Queues
    var threshold: int       // long_prefill_token_threshold
    var interval: int        // prefill_schedule_interval
    var capacityBound: bool
    var profile: Option<Profile>
    var credit: Option<int>
    var active: bool

    ghost predicate Valid()
      reads `profile, `credit
    {
      (profile.Some? ==> ProfileOk(profile.value)) && (credit.Some? ==> credit.value >= 0)
    }

    function State(): Bucket
      reads `credit, `active
    {
      Bucket(credit, active)
    }

    /** A bad update is ignored once there is a profile; without one it is the caller's error. */
    method CurrentProfile(look: Look) returns (r: Option<Profile>)
      requires Valid()
      modifies `profile
      ensures Valid() && r == Looked(old(profile), look, threshold, interval)
      ensures Answers(old(profile), look, threshold, interval, r)
      ensures profile == if r.Some? then r else old(profile)
    {
      LookedAnswers(profile, look, threshold, interval);
      hide Answers, Acceptable, Says;
      if profile.Some? && look.tooSoon {
        return profile;
      }
      match look.file
      case NoPath =>
        r := ValidateProfile(Raw(None, None, None), threshold, interval);
        if r.Some? { profile := r; }
      case File(same, content) =>
        if profile.Some? && same {
          return profile;
        }
        r := None;
        if content.Some? {
          r := ValidateProfile(content.value, threshold, interval);
        }
        if r.Some? {
          profile := r;
        } else if profile.Some? {
          r := profile;
        }
    }

    /** One step. The parent is the stock scheduler, called with the throttle, the scoped threshold and the
        capacity flag; it may raise. Settings are put back in every case, and the bucket moves only when the
        parent returns. */
    method Schedule(throttle: bool, look: Look, parent: (bool, int, bool) -> Option<seq<(nat, nat)>>)
      returns (out: Option<seq<(nat, nat)>>, ghost ids: set<nat>)
      requires Valid()
      modifies `profile, `credit, `active, `threshold, `capacityBound
      ensures Valid() && threshold == old(threshold) && capacityBound == old(capacityBound)
      ensures forall id: nat :: id in ids <==> queues.IsPrefillId(id)
      ensures Counted(queues, queues.Decoders(), queues.Prefills())
      ensures var p := Looked(old(profile), look, threshold, interval);
              if p.None? then out.None? && profile == old(profile) && State() == old(State())
              else
                && profile == p
                && out == AskParent(parent, p.value, old(State()), queues.Decoders(), queues.Prefills(), throttle,
                                    capacityBound)
                && State() == if out.None? then old(State())
                              else After(old(State()),
                                         StepInput(p.value, queues.Decoders(), queues.Prefills(), throttle,
                                                   Tokens(out.value, ids, |out.value|)))
      ensures Looked(old(profile), look, threshold, interval).Some? ==>
                exists packet, credit, call ::
                  && Asks(profile.value, old(State()), queues.Decoders(), queues.Prefills(), throttle, capacityBound,
                          packet, credit, call)
                  && out == parent(call.throttled, call.limit, call.bound)
                  && (out.Some? ==>
                        Leaves(queues.Decoders(), queues.Prefills(), throttle, packet, credit,
                               Tokens(out.value, ids, |out.value|), State()))
    {
      var current := CurrentProfile(look);
      assert State() == old(State()) && BucketOk(old(State())) && (current.Some? ==> ProfileOk(current.value));
      hide *;
      QueuesCounted(queues);
      var prefillIds := queues.PrefillIds();
      ids := prefillIds;
      if current.None? {
        return None, ids;
      }
      out := StepUnder(current.value, prefillIds, throttle, parent);
      ghost var packet, credit, call := StepAsks(parent, current.value, old(State()), queues.Decoders(),
                                                 queues.Prefills(), throttle, capacityBound);
    }

    /** The step once the profile is known. */
    method StepUnder(p: Profile, ids: set<nat>, throttle: bool, parent: (bool, int, bool) -> Option<seq<(nat, nat)>>)
      returns (out: Option<seq<(nat, nat)>>)
      requires Valid() && ProfileOk(p)
      modifies `credit, `active, `threshold, `capacityBound
      ensures Valid() && threshold == old(threshold) && capacityBound == old(capacityBound)
      ensures out == AskParent(parent, p, old(State()), queues.Decoders(), queues.Prefills(), throttle, capacityBound)
      ensures State() == if out.None? then old(State())
                         else After(old(State()), StepInput(p, queues.Decoders(), queues.Prefills(), throttle,
                                                            Tokens(out.value, ids, |out.value|)))
    {
      var decoders, prefills, before := queues.Decoders(), queues.Prefills(), State();
      assert BucketOk(before);
      hide After, Credit, Admit, SelectTier, EffectivePacket, ProfileOk, StepInput, AskParent, Throttled, Limit, Tokens,
        ScopedThreshold, CountPrefills;
      var level, admit, scoped := Decide(p, before, decoders, prefills, throttle);
      var mixed := decoders > 0 && prefills > 0;
      out := CallParent(throttle || (mixed && !admit), scoped, decoders > 0, parent);
      AskIs(parent, p, before, decoders, prefills, throttle, capacityBound);
      if out.Some? {
        AfterIs(p, before, decoders, prefills, throttle, Tokens(out.value, ids, |out.value|));
        if admit {
          var spent := TokensOf(out.value, ids);
          level := if level > spent then level - spent else 0;
        }
        credit, active := Some(level), mixed;
      }
      assert State() == if out.Some? then Bucket(Some(level), mixed) else before;
    }

    /** The parent call inside its temporary settings. */
    method CallParent(throttled: bool, scoped: int, decoding: bool,
                      parent: (bool, int, bool) -> Option<seq<(nat, nat)>>)
      returns (out: Option<seq<(nat, nat)>>)
      modifies `threshold, `capacityBound
      ensures threshold == old(threshold) && capacityBound == old(capacityBound)
      ensures out == parent(throttled, scoped, capacityBound && !(throttled && decoding))
    {
      var configured, bound := threshold, capacityBound;
      var force := throttled && decoding && bound;
      threshold := scoped;
      if force { capacityBound := false; }
      out := parent(throttled, threshold, capacityBound);
      threshold := configured;
      if force { capacityBound := bound; }
    }
  }

  /** A step of the bucket under a profile. */
  ghost function StepInput(p: Profile, decoders: nat, prefills: nat, throttle: bool, scheduled: nat): (x: Input)
    requires ProfileOk(p)
    ensures InputOk(x)
  {
    TierIsNarrowest(p, if decoders > 1 then decoders else 1, 0);
    var tier := SelectTier(p, if decoders > 1 then decoders else 1, 0);
    Input(EffectivePacket(tier, prefills), tier.interval, decoders > 0 && prefills > 0, throttle, scheduled)
  }

  /** Whether the parent is throttled, and its limit per request: the shared packet, the whole packet, or the
      pure-prefill limit. */
  ghost function Throttled(p: Profile, b: Bucket, decoders: nat, prefills: nat, throttle: bool): bool
    requires ProfileOk(p)
  {
    throttle || (decoders > 0 && prefills > 0 && !Admit(b, StepInput(p, decoders, prefills, throttle, 0)))
  }

  ghost function Limit(p: Profile, b: Bucket, decoders: nat, prefills: nat, throttle: bool): int
    requires ProfileOk(p)
  {
    var x := StepInput(p, decoders, prefills, throttle, 0);
    if decoders == 0 then p.pureThreshold
    else if Admit(b, x) then ScopedThreshold(p.globalBudget, x.packet, prefills)
    else x.packet
  }

  /** The call the parent must get; a throttle is never released by the capacity flag while decoding. */
  ghost function AskParent(parent: (bool, int, bool) -> Option<seq<(nat, nat)>>, p: Profile, b: Bucket,
                           decoders: nat, prefills: nat, throttle: bool, capacityBound: bool): Option<seq<(nat, nat)>>
    requires ProfileOk(p)
  {
    var throttled := Throttled(p, b, decoders, prefills, throttle);
    parent(throttled, Limit(p, b, decoders, prefills, throttle), capacityBound && !(throttled && decoders > 0))
  }

  lemma AskIs(parent: (bool, int, bool) -> Option<seq<(nat, nat)>>, p: Profile, b: Bucket,
              decoders: nat, prefills: nat, throttle: bool, capacityBound: bool)
    requires ProfileOk(p)
    ensures var throttled := Throttled(p, b, decoders, prefills, throttle);
            AskParent(parent, p, b, decoders, prefills, throttle, capacityBound)
            == parent(throttled, Limit(p, b, decoders, prefills, throttle),
                      capacityBound && !(throttled && decoders > 0))
  {
  }

  // ---------------------------------------------------------------- a step without its helpers

  /** What the parent is asked: its throttle, its limit for each request, and the capacity flag. */
  datatype Call = Call(throttled: bool, limit: int, bound: bool)

  /** The narrowest tier that covers the decoders, or the widest when none does. */
  ghost predicate IsTier(p: Profile, decoders: nat, t: Tier) {
    var need := if decoders > 1 then decoders else 1;
    && t in p.tiers
    && (forall u :: u in p.tiers && need <= u.maxDecoders ==> need <= t.maxDecoders <= u.maxDecoders)
    && (t.maxDecoders < need ==> forall u :: u in p.tiers ==> u.maxDecoders <= t.maxDecoders)
  }

  /** The base packet and the extra tokens of every prefill but one, up to the tier's maximum. */
  ghost predicate IsPacket(t: Tier, prefills: nat, packet: int) {
    var wanted := if prefills == 0 then t.packet else t.packet + (prefills - 1) * t.extra;
    packet <= wanted && packet <= t.maxPacket && (packet == wanted || packet == t.maxPacket)
  }

  /** The credit before the step: full outside a mixed phase and at its start, and otherwise what was left and one
      increment, which is the packet over the interval rounded up, but never more than the packet. */
  ghost predicate IsCredit(b: Bucket, mixed: bool, packet: int, interval: int, credit: int) {
    if !mixed || !b.active || b.credit.None? then credit == packet
    else
      exists earned ::
        && interval * earned >= packet > interval * (earned - 1)
        && credit <= packet && credit <= b.credit.value + earned
        && (credit == packet || credit == b.credit.value + earned)
  }

  /** The greatest limit with which all prefills together stay within the packet, but at least one token. */
  ghost predicate IsShare(packet: int, prefills: nat, limit: int) {
    if prefills <= packet then prefills * limit <= packet < prefills * (limit + 1) else limit == 1
  }

  /** One step: what is asked of the parent, and the credit before it. */
  ghost predicate Asks(p: Profile, b: Bucket, decoders: nat, prefills: nat, throttle: bool, bound: bool, packet: int,
                       credit: int, call: Call) {
    var mixed := decoders > 0 && prefills > 0;
    var admits := mixed && !throttle && credit == packet;
    && (exists t :: IsTier(p, decoders, t) && IsPacket(t, prefills, packet)
                    && IsCredit(b, mixed, packet, t.interval, credit))
    && call.throttled == (throttle || (mixed && !admits))
    && (decoders == 0 ==> call.limit == p.pureThreshold)
    && (decoders > 0 && admits && p.globalBudget ==> IsShare(packet, prefills, call.limit))
    && (decoders > 0 && !(admits && p.globalBudget) ==> call.limit == packet)
    && call.bound == (bound && !(call.throttled && decoders > 0))
  }

  /** The bucket after a step: an admitted packet is paid for with what was scheduled of it. */
  ghost predicate Leaves(decoders: nat, prefills: nat, throttle: bool, packet: int, credit: int, scheduled: nat,
                         after: Bucket) {
    var mixed := decoders > 0 && prefills > 0;
    && after.active == mixed && after.credit.Some?
    && after.credit.value == if mixed && !throttle && credit == packet
                             then (if scheduled < credit then credit - scheduled else 0) else credit
  }

  /** The call and the bucket of a step are those. */
  lemma StepAsks(parent: (bool, int, bool) -> Option<seq<(nat, nat)>>, p: Profile, b: Bucket, decoders: nat,
                 prefills: nat, throttle: bool, bound: bool) returns (packet: int, credit: int, call: Call)
    requires ProfileOk(p) && BucketOk(b)
    ensures Asks(p, b, decoders, prefills, throttle, bound, packet, credit, call)
    ensures AskParent(parent, p, b, decoders, prefills, throttle, bound)
         == parent(call.throttled, call.limit, call.bound)
    ensures forall scheduled: nat ::
              Leaves(decoders, prefills, throttle, packet, credit, scheduled,
                     After(b, StepInput(p, decoders, prefills, throttle, scheduled)))
  {
    var x := StepInput(p, decoders, prefills, throttle, 0);
    packet, credit := x.packet, Credit(b, x);
    var t := StepTier(p, decoders, prefills, throttle);
    CreditIs(b, x);
    var throttled := Throttled(p, b, decoders, prefills, throttle);
    call := Call(throttled, Limit(p, b, decoders, prefills, throttle), bound && !(throttled && decoders > 0));
    AdmitsWhenFull(b, x);
    if decoders > 0 && prefills > 0 {
      LimitIsGreatest(p.globalBudget, packet, prefills);
    }
    hide IsTier, IsPacket, IsCredit, Credit, SelectTier, EffectivePacket, ProfileOk, ScopedThreshold;
    forall scheduled: nat
      ensures Leaves(decoders, prefills, throttle, packet, credit, scheduled,
                     After(b, StepInput(p, decoders, prefills, throttle, scheduled)))
    {
      AdmitsWhenFull(b, StepInput(p, decoders, prefills, throttle, scheduled));
      SameCredit(b, x, scheduled);
    }
  }

  lemma SameCredit(b: Bucket, x: Input, scheduled: nat)
    ensures Credit(b, x.(scheduled := scheduled)) == Credit(b, x)
  {
  }

  lemma StepTier(p: Profile, decoders: nat, prefills: nat, throttle: bool) returns (t: Tier)
    requires ProfileOk(p)
    ensures var x := StepInput(p, decoders, prefills, throttle, 0);
            IsTier(p, decoders, t) && IsPacket(t, prefills, x.packet) && x.interval == t.interval
  {
    var need := if decoders > 1 then decoders else 1;
    TierIsNarrowest(p, need, 0);
    t := SelectTier(p, need, 0);
    forall u | u in p.tiers
      ensures need <= u.maxDecoders ==> need <= t.maxDecoders <= u.maxDecoders
      ensures t.maxDecoders < need ==> u.maxDecoders <= t.maxDecoders
    {
      var i :| 0 <= i < |p.tiers| && p.tiers[i] == u;
    }
    hide SelectTier;
  }

  lemma CreditIs(b: Bucket, x: Input)
    requires BucketOk(b) && InputOk(x)
    ensures IsCredit(b, x.mixed, x.packet, x.interval, Credit(b, x))
  {
    IncrementBounds(x.packet, x.interval);
    var earned := Increment(x.packet, x.interval);
    assert x.interval * earned >= x.packet > x.interval * (earned - 1);
  }

  lemma AdmitsWhenFull(b: Bucket, x: Input)
    requires BucketOk(b) && InputOk(x)
    ensures Admit(b, x) <==> x.mixed && !x.throttled && Credit(b, x) == x.packet
  {
    IncrementBounds(x.packet, x.interval);
  }

  method Decide(p: Profile, b: Bucket, decoders: nat, prefills: nat, throttle: bool)
    returns (level: int, admit: bool, scoped: int)
    requires ProfileOk(p)
    ensures var x := StepInput(p, decoders, prefills, throttle, 0); level == Credit(b, x) && admit == Admit(b, x)
    ensures (throttle || (decoders > 0 && prefills > 0 && !admit)) == Throttled(p, b, decoders, prefills, throttle)
    ensures scoped == Limit(p, b, decoders, prefills, throttle)
  {
    TierIsNarrowest(p, if decoders > 1 then decoders else 1, 0);
    var tier := SelectTier(p, if decoders > 1 then decoders else 1, 0);
    var packet := EffectivePacket(tier, prefills);
    level := if b.credit.Some? && b.credit.value < packet then b.credit.value else packet;
    admit := false;
    if decoders == 0 || prefills == 0 {
      level := packet;
    } else if !b.active {
      level, admit := packet, !throttle;
    } else {
      level := level + Increment(packet, tier.interval);
      level := if level < packet then level else packet;
      admit := level >= packet && !throttle;
    }
    scoped := packet;
    if decoders == 0 {
      scoped := p.pureThreshold;
    } else if admit && p.globalBudget {
      scoped := if packet / prefills > 1 then packet / prefills else 1;
    }
  }

  lemma AfterIs(p: Profile, b: Bucket, decoders: nat, prefills: nat, throttle: bool, scheduled: nat)
    requires ProfileOk(p) && BucketOk(b)
    ensures var x := StepInput(p, decoders, prefills, throttle, 0);
            var level := Credit(b, x);
            && After(b, StepInput(p, decoders, prefills, throttle, scheduled)) ==
               Bucket(Some(if Admit(b, x) then (if level > scheduled then level - scheduled else 0) else level),
                      decoders > 0 && prefills > 0)
            && level >= 0
  {
    var x := StepInput(p, decoders, prefills, throttle, 0);
    IncrementBounds(x.packet, x.interval);
  }

  method PrefillIdsOf(rs: seq<Request>) returns (ids: set<nat>)
    ensures forall id: nat :: id in ids <==> IsPrefill(rs, id)
  {
    ids := {};
    for i := 0 to |rs|
      invariant forall id: nat :: id in ids <==> exists j :: 0 <= j < i && rs[j] == Request(id, true)
    {
      if rs[i].isPrefill { ids := ids + {rs[i].id}; }
    }
  }

  method TokensOf(items: seq<(nat, nat)>, ids: set<nat>) returns (t: nat)
    ensures t == Tokens(items, ids, |items|)
  {
    t := 0;
    for i := 0 to |items|
      invariant t == Tokens(items, ids, i)
    {
      t := t + if items[i].0 in ids then items[i].1 else 0;
    }
  }

  // ---------------------------------------------------------------- the parent's side of the bound

  /** What the bounds need of the stock scheduler: throttled, it schedules no prefill; otherwise at most
      `prefills` of them, each within the threshold. */
  ghost predicate ParentOk(items: seq<(nat, nat)>, ids: set<nat>, throttled: bool, limit: int, prefills: nat) {
    && (throttled ==> Entries(items, ids, |items|) == 0)
    && Entries(items, ids, |items|) <= prefills
    && forall i :: 0 <= i < |items| && items[i].0 in ids ==> items[i].1 <= limit
  }

  lemma {:induction false} TokensAtMost(items: seq<(nat, nat)>, ids: set<nat>, limit: nat, n: nat)
    requires n <= |items| && forall i :: 0 <= i < |items| && items[i].0 in ids ==> items[i].1 <= limit
    ensures Tokens(items, ids, n) <= Entries(items, ids, n) * limit
  {
    if n > 0 {
      TokensAtMost(items, ids, limit, n - 1);
      assert (Entries(items, ids, n - 1) + 1) * limit == Entries(items, ids, n - 1) * limit + limit;
    }
  }

  /** So a step within the exact setting never overruns its packet, and a throttled one schedules nothing. */
  lemma ParentStaysInPacket(items: seq<(nat, nat)>, ids: set<nat>, throttled: bool, globalBudget: bool, packet: int,
                            prefills: nat)
    requires packet > 0 && prefills > 0 && (prefills == 1 || (globalBudget && prefills <= packet))
    requires ParentOk(items, ids, throttled, ScopedThreshold(globalBudget, packet, prefills), prefills)
    ensures Tokens(items, ids, |items|) <= packet
    ensures throttled ==> Tokens(items, ids, |items|) == 0
  {
    var limit := ScopedThreshold(globalBudget, packet, prefills);
    AggregateBoundIff(globalBudget, packet, prefills);
    assert limit >= 1;
    TokensAtMost(items, ids, limit, |items|);
    MulMono(Entries(items, ids, |items|), prefills, limit);
  }

  /** With every step in its packet, a mixed phase schedules no more than it has earned. */
  lemma {:induction false} NoOverrun(xs: seq<Input>, n: nat)
    requires n <= |xs| && forall i :: 0 <= i < n ==> xs[i].scheduled <= xs[i].packet
    ensures Overrun(xs, n) == 0
  {
    if n > 0 { NoOverrun(xs, n - 1); }
  }

  lemma MixedPhaseVolume(b: Bucket, xs: seq<Input>, n: nat)
    requires BucketOk(b) && 0 < n <= |xs| && Obeyed(b, xs, n) && forall i :: 0 <= i < |xs| ==> InputOk(xs[i])
    requires forall i :: 0 <= i < n ==> xs[i].scheduled <= xs[i].packet
    ensures Scheduled(xs, n) <= Earned(xs, n)
  {
    VolumeBound(b, xs, n);
    NoOverrun(xs, n);
  }

  // ---------------------------------------------------------------- whole runs of the scheduler

  /** One step of the scheduler in which the parent returned: what it looked at, and what the parent scheduled. */
  datatype Step = Step(profile: Profile, decoders: nat, prefills: nat, throttle: bool, items: seq<(nat, nat)>,
                       ids: set<nat>)

  ghost predicate ProfilesOk(steps: seq<Step>) {
    forall i :: 0 <= i < |steps| ==> ProfileOk(steps[i].profile)
  }

  ghost function InputOf(s: Step): (x: Input)
    requires ProfileOk(s.profile)
    ensures InputOk(x)
  {
    StepInput(s.profile, s.decoders, s.prefills, s.throttle, Tokens(s.items, s.ids, |s.items|))
  }

  ghost function Inputs(steps: seq<Step>): (xs: seq<Input>)
    requires ProfilesOk(steps)
    ensures |xs| == |steps| && forall i :: 0 <= i < |steps| ==> xs[i] == InputOf(steps[i]) && InputOk(xs[i])
  {
    seq(|steps|, i requires 0 <= i < |steps| => InputOf(steps[i]))
  }

  /** The parent keeps to the throttle and the limit that the scheduler passes it from bucket `b`. */
  ghost predicate Kept(b: Bucket, s: Step)
    requires ProfileOk(s.profile)
  {
    && s.decoders > 0 && s.prefills > 0
    && ParentOk(s.items, s.ids, Throttled(s.profile, b, s.decoders, s.prefills, s.throttle),
                Limit(s.profile, b, s.decoders, s.prefills, s.throttle), s.prefills)
  }

  /** The settings for which the aggregate bound holds. */
  ghost predicate Bounded(s: Step)
    requires ProfileOk(s.profile)
  {
    s.prefills == 1 || (s.profile.globalBudget && s.prefills <= InputOf(s).packet)
  }

  /** The first `n` steps are mixed, the parent keeps to each of its calls, and every setting is bounded. */
  ghost predicate KeptRun(b: Bucket, steps: seq<Step>, n: nat)
    requires n <= |steps| && ProfilesOk(steps)
  {
    n > 0 ==>
      && KeptRun(b, steps, n - 1) && Bounded(steps[n - 1])
      && Kept(Run(b, Inputs(steps), n - 1), steps[n - 1])
  }

  /** What a kept call means for the bucket: within the packet, and nothing unless admitted. */
  lemma KeptStep(b: Bucket, s: Step)
    requires ProfileOk(s.profile) && Kept(b, s) && Bounded(s)
    ensures var x := InputOf(s); x.mixed && x.scheduled <= x.packet && (Admit(b, x) || x.scheduled == 0)
  {
    var x, x0 := InputOf(s), StepInput(s.profile, s.decoders, s.prefills, s.throttle, 0);
    assert x == x0.(scheduled := x.scheduled) && Credit(b, x) == Credit(b, x0) && Admit(b, x) == Admit(b, x0);
    var limit := Limit(s.profile, b, s.decoders, s.prefills, s.throttle);
    if Admit(b, x) {
      ParentStaysInPacket(s.items, s.ids, false, s.profile.globalBudget, x.packet, s.prefills);
    } else {
      assert Throttled(s.profile, b, s.decoders, s.prefills, s.throttle) && limit == x.packet;
      TokensAtMost(s.items, s.ids, limit, |s.items|);
    }
  }

  lemma {:induction false} KeptRunObeys(b: Bucket, steps: seq<Step>, n: nat)
    requires n <= |steps| && ProfilesOk(steps) && KeptRun(b, steps, n)
    ensures Obeyed(b, Inputs(steps), n)
    ensures forall i :: 0 <= i < n ==> Inputs(steps)[i].scheduled <= Inputs(steps)[i].packet
  {
    hide Kept, Bounded, Admit;
    if n > 0 {
      KeptRunObeys(b, steps, n - 1);
      KeptStep(Run(b, Inputs(steps), n - 1), steps[n - 1]);
    }
  }

  /** The volume bound of the scheduler itself: over every mixed run in which the parent keeps to the calls it gets,
      with profiles, decoders and prefills changing at every step, the prefill tokens scheduled are at most the first
      packet and one increment for each later step. */
  lemma ScheduledVolume(b: Bucket, steps: seq<Step>, n: nat)
    requires BucketOk(b) && 0 < n <= |steps| && ProfilesOk(steps) && KeptRun(b, steps, n)
    ensures Scheduled(Inputs(steps), n) <= Earned(Inputs(steps), n)
  {
    hide *;
    KeptRunObeys(b, steps, n);
    MixedPhaseVolume(b, Inputs(steps), n);
  }

  // ---------------------------------------------------------------- the wait that a profile promises

  ghost function LargestPacket(p: Profile, n: nat): (m: int)
    requires n <= |p.tiers|
    ensures forall i :: 0 <= i < n ==> p.tiers[i].maxPacket <= m
    ensures m >= 0
  {
    if n == 0 then 0
    else if p.tiers[n - 1].maxPacket > LargestPacket(p, n - 1) then p.tiers[n - 1].maxPacket
    else LargestPacket(p, n - 1)
  }

  ghost function SmallestIncrement(p: Profile, n: nat): (m: int)
    requires 0 < n <= |p.tiers|
    ensures forall i :: 0 <= i < n ==> m <= Increment(p.tiers[i].packet, p.tiers[i].interval)
    ensures exists i :: 0 <= i < n && m == Increment(p.tiers[i].packet, p.tiers[i].interval)
  {
    var last := Increment(p.tiers[n - 1].packet, p.tiers[n - 1].interval);
    if n == 1 || last < SmallestIncrement(p, n - 1) then last else SmallestIncrement(p, n - 1)
  }

  lemma IncrementGrows(a: int, b: int, interval: int)
    requires 0 < a <= b && interval > 0
    ensures Increment(a, interval) <= Increment(b, interval)
  {
    DivMono(a + interval - 1, b + interval - 1, interval);
  }

  /** Whatever tier a profile selects, its packet and increment lie within the profile's own bounds. */
  lemma InputWithinProfile(s: Step)
    requires ProfileOk(s.profile)
    ensures var x, n := InputOf(s), |s.profile.tiers|;
            && x.packet <= LargestPacket(s.profile, n)
            && 0 < SmallestIncrement(s.profile, n) <= Increment(x.packet, x.interval)
  {
    var p := s.profile;
    var decoders := if s.decoders > 1 then s.decoders else 1;
    TierIsNarrowest(p, decoders, 0);
    var tier := SelectTier(p, decoders, 0);
    var i :| 0 <= i < |p.tiers| && p.tiers[i] == tier;
    IncrementGrows(tier.packet, EffectivePacket(tier, s.prefills), tier.interval);
    SmallestPositive(p);
  }

  /** Every step runs under profile `p`. */
  ghost predicate Under(p: Profile, steps: seq<Step>)
    ensures Under(p, steps) ==> ProfilesOk(steps) && p.tiers != []
  {
    ProfileOk(p) && forall i :: 0 <= i < |steps| ==> steps[i].profile == p
  }

  /** Under one profile a mixed run without outside throttle admits a packet at least once in every
      `(largest maxPacket - 1) / smallest increment + 1` steps, however decoders and prefills change. */
  lemma ProfileWait(b: Bucket, p: Profile, steps: seq<Step>, n: nat)
    requires BucketOk(b) && Under(p, steps) && n <= |steps| && Starved(b, Inputs(steps), n)
    ensures SmallestIncrement(p, |p.tiers|) > 0
    ensures n <= (LargestPacket(p, |p.tiers|) - 1) / SmallestIncrement(p, |p.tiers|)
  {
    hide *;
    AllWithinProfile(p, steps);
    WaitQuotient(b, Inputs(steps), n, SmallestIncrement(p, |p.tiers|), LargestPacket(p, |p.tiers|));
  }

  lemma AllWithinProfile(p: Profile, steps: seq<Step>)
    requires Under(p, steps)
    ensures SmallestIncrement(p, |p.tiers|) > 0 && LargestPacket(p, |p.tiers|) > 0
    ensures var least, largest, xs := SmallestIncrement(p, |p.tiers|), LargestPacket(p, |p.tiers|), Inputs(steps);
            forall i :: 0 <= i < |xs| ==> xs[i].packet <= largest && Increment(xs[i].packet, xs[i].interval) >= least
  {
    hide SmallestIncrement, LargestPacket, InputOf, Increment, Inputs;
    SmallestPositive(p);
    var xs := Inputs(steps);
    forall i | 0 <= i < |xs|
      ensures xs[i].packet <= LargestPacket(p, |p.tiers|)
      ensures Increment(xs[i].packet, xs[i].interval) >= SmallestIncrement(p, |p.tiers|)
    {
      InputWithinProfile(steps[i]);
    }
  }

  lemma SmallestPositive(p: Profile)
    requires ProfileOk(p)
    ensures SmallestIncrement(p, |p.tiers|) > 0 && LargestPacket(p, |p.tiers|) > 0
  {
    var k :| 0 <= k < |p.tiers|
             && SmallestIncrement(p, |p.tiers|) == Increment(p.tiers[k].packet, p.tiers[k].interval);
    IncrementBounds(p.tiers[k].packet, p.tiers[k].interval);
    assert TierOk(p.tiers[0]) && p.tiers[0].maxPacket <= LargestPacket(p, |p.tiers|);
  }
}
