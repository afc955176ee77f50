/** KV cache layout of the hybrid model with a speculative drafter: the group builder's choice of exact fit or
    standalone tensors, and the three consumers that must agree with it. */
module DrafterLayout {
  import opened Arith
  import opened Wrappers

  /** The drafter's layers share one spec: a block of tokens and the bytes of one token. */
  datatype Draft = Draft(layers: Pos, block: Pos, tokenBytes: Pos)

  datatype Geometry = Geometry(mla: Pos, indexers: nat, tails: bool, mamba: nat, groups: Pos,
                               mlaPage: Pos, idxPage: nat, mlaBlock: Pos, draft: Option<Draft>)

  /** A layer of the model, by kind and position. */
  datatype Layer = Mla(i: nat) | Indexer(i: nat) | Tail(i: nat) | Mamba(k: nat) | Drafter(i: nat)

  ghost predicate IsLayer(g: Geometry, x: Layer) {
    match x
    case Mla(i) => i < g.mla
    case Indexer(i) => i < g.indexers
    case Tail(i) => g.tails && i < g.indexers
    case Mamba(k) => k < g.mamba
    case Drafter(i) => g.draft.Some? && i < g.draft.value.layers
  }

  // ---------------------------------------------------------------- the builder

  /** Tokens that exactly fill an MLA page, or zero. */
  function FitBlock(g: Geometry): nat
    requires g.draft.Some?
  {
    if g.mlaPage % g.draft.value.tokenBytes == 0 then g.mlaPage / g.draft.value.tokenBytes else 0
  }

  predicate ExactFit(g: Geometry) {
    g.draft.Some? &&
    var fit := FitBlock(g);
    && fit > 0 && fit % 64 == 0
    && (fit % g.mlaBlock == 0 || g.mlaBlock % fit == 0)
    && g.draft.value.layers <= g.mla
  }

  /** The manager block of the drafter group that the builder appends. */
  function BuiltBlock(g: Geometry): nat
    requires g.draft.Some?
  {
    if ExactFit(g) then FitBlock(g) else g.draft.value.block
  }

  function DraftPage(g: Geometry): nat
    requires g.draft.Some?
  {
    BuiltBlock(g) * g.draft.value.tokenBytes
  }

  /** How the consumers tell the two modes apart: by the page alone. */
  predicate Shared(g: Geometry) {
    g.draft.Some? && DraftPage(g) == g.mlaPage
  }

  /** Layout detection: a drafter on MLA pages needs an MLA tensor for each of its layers. */
  predicate Detected(g: Geometry) {
    Shared(g) ==> g.draft.value.layers <= g.mla
  }

  lemma FitFills(g: Geometry)
    requires ExactFit(g)
    ensures DraftPage(g) == g.mlaPage
  {
    var b := g.draft.value.tokenBytes;
    assert g.mlaPage == g.mlaPage / b * b + g.mlaPage % b;
  }

  /** The consumers see the builder's mode, except for a standalone drafter whose own page already is the MLA page
      although a guard of the exact fit fails: that one they all take for shared. */
  lemma ModesAgreeIff(g: Geometry)
    requires g.draft.Some?
    ensures (Shared(g) <==> ExactFit(g)) <==> ExactFit(g) || g.draft.value.block * g.draft.value.tokenBytes != g.mlaPage
    ensures !Detected(g) <==>
              g.draft.value.block * g.draft.value.tokenBytes == g.mlaPage && g.draft.value.layers > g.mla
  {
    if ExactFit(g) { FitFills(g); }
  }

  /** Twelve drafter layers on eleven MLA layers, with a drafter page of its own accord equal to the MLA page: the
      builder chooses standalone tensors, and detection then rejects the whole layout. */
  lemma StandaloneRejected()
    ensures var g := Geometry(11, 11, true, 33, 3, 2359296, 16384, 4608, Some(Draft(12, 2304, 1024)));
            !ExactFit(g) && Shared(g) && !Detected(g)
  {
  }

  /** A block of `fit` tokens fills the MLA page exactly, splits into every kernel block size, divides the MLA block
      or is a multiple of it, and each drafter layer has an MLA tensor to ride. */
  ghost predicate Fits(g: Geometry, fit: nat) {
    && g.draft.Some? && fit > 0 && fit * g.draft.value.tokenBytes == g.mlaPage && fit % 64 == 0
    && (fit % g.mlaBlock == 0 || g.mlaBlock % fit == 0)
    && g.draft.value.layers <= g.mla
  }

  /** The builder takes the block that fits, and without one leaves the drafter's own block. */
  lemma BuilderTakesFit(g: Geometry, fit: nat)
    requires g.draft.Some?
    ensures Fits(g, fit) ==> BuiltBlock(g) == fit
    ensures Fits(g, fit) ==> ExactFit(g)
    ensures ExactFit(g) ==> Fits(g, BuiltBlock(g))
    ensures !ExactFit(g) ==> BuiltBlock(g) == g.draft.value.block
  {
    if ExactFit(g) { FitFills(g); }
    if Fits(g, fit) { DivModUnique(g.mlaPage, g.draft.value.tokenBytes, fit, 0); }
  }

  /** The drafter has tensors of its own: no block fits, and its own page is not the MLA page. */
  ghost predicate Alone(g: Geometry) {
    && g.draft.Some? && (forall fit: nat :: !Fits(g, fit))
    && g.draft.value.block * g.draft.value.tokenBytes != g.mlaPage
  }

  lemma ModeIs(g: Geometry)
    ensures Alone(g) <==> g.draft.Some? && !Shared(g)
    ensures Alone(g) ==> DraftPage(g) == g.draft.value.block * g.draft.value.tokenBytes
  {
    if g.draft.Some? {
      hide Fits, FitBlock, ExactFit;
      forall fit: nat
        ensures Fits(g, fit) ==> ExactFit(g)
      {
        BuilderTakesFit(g, fit);
      }
      BuilderTakesFit(g, BuiltBlock(g));
      if ExactFit(g) { FitFills(g); }
    }
  }

  // ---------------------------------------------------------------- tensors

  datatype Tensor = Tensor(size: nat, owners: seq<Layer>)

  /** Mamba layers are dealt to the groups in turn. */
  method GroupMamba(g: Geometry) returns (r: seq<seq<Layer>>)
    ensures |r| == g.groups
    ensures forall j :: 0 <= j < g.groups ==> forall i :: 0 <= i < |r[j]| ==> r[j][i] == Mamba(Dealt(g, i, j))
    ensures forall j, i :: 0 <= j < g.groups && 0 <= i ==> (i < |r[j]| <==> Dealt(g, i, j) < g.mamba)
  {
    r := seq(g.groups, _ => []);
    for k := 0 to g.mamba
      invariant |r| == g.groups
      invariant forall j :: 0 <= j < g.groups ==> forall i :: 0 <= i < |r[j]| ==> r[j][i] == Mamba(Dealt(g, i, j))
      invariant forall j, i :: 0 <= j < g.groups && 0 <= i ==> (i < |r[j]| <==> Dealt(g, i, j) < k)
    {
      var j := k % g.groups;
      DealtIs(g, k);
      ghost var before := r;
      assert |r[j]| == k / g.groups by { assert !(k / g.groups < |r[j]|); RowBefore(g, k, |r[j]|); }
      r := r[j := r[j] + [Mamba(k)]];
      forall h, i | 0 <= h < g.groups && 0 <= i
        ensures i < |r[h]| <==> Dealt(g, i, h) < k + 1
      {
        DealtOnce(g, i, h, k);
        assert i < |before[h]| <==> Dealt(g, i, h) < k;
      }
    }
  }

  /** The layer at row `i` of group `j`. */
  ghost function Dealt(g: Geometry, i: nat, j: nat): nat {
    i * g.groups + j
  }

  lemma DealtIs(g: Geometry, k: nat)
    ensures Dealt(g, k / g.groups, k % g.groups) == k
  {
  }

  lemma DealtOnce(g: Geometry, i: nat, j: nat, k: nat)
    requires j < g.groups
    ensures Dealt(g, i, j) == k <==> i == k / g.groups && j == k % g.groups
  {
    DivModUnique(Dealt(g, i, j), g.groups, i, j);
  }

  lemma RowBefore(g: Geometry, k: nat, n: nat)
    requires n <= k / g.groups
    requires n < k / g.groups ==> !(Dealt(g, n, k % g.groups) < k)
    ensures n == k / g.groups
  {
    if n < k / g.groups {
      MulGap(n, k / g.groups, g.groups);
      DealtIs(g, k);
    }
  }

  /** Row `i` over the first `n` groups. */
  ghost function MambaRow(g: Geometry, i: nat, n: nat): seq<Layer> {
    if n == 0 then []
    else MambaRow(g, i, n - 1) + if Dealt(g, i, n - 1) < g.mamba then [Mamba(Dealt(g, i, n - 1))] else []
  }

  ghost function MlaOwners(g: Geometry, i: nat): seq<Layer> {
    [Mla(i)] + MambaRow(g, i, g.groups) + if Shared(g) && i < g.draft.value.layers then [Drafter(i)] else []
  }

  ghost function IndexOwners(g: Geometry, i: nat): seq<Layer> {
    if g.tails then [Indexer(i), Tail(i)] else [Indexer(i)]
  }

  function Standalone(g: Geometry): nat {
    if g.draft.Some? && !Shared(g) then g.draft.value.layers else 0
  }

  /** `_pool_bytes_per_block`. */
  function PoolBytesPerBlock(g: Geometry): nat {
    g.mla * g.mlaPage + g.indexers * g.idxPage + if Standalone(g) > 0 then Standalone(g) * DraftPage(g) else 0
  }

  /** The tensor at position `t`: first the MLA tensors, then the indexers', then standalone drafters. */
  ghost function TensorAt(g: Geometry, blocks: nat, t: nat): Tensor {
    if t < g.mla then Tensor(g.mlaPage * blocks, MlaOwners(g, t))
    else if t < g.mla + g.indexers then Tensor(g.idxPage * blocks, IndexOwners(g, t - g.mla))
    else if t < g.mla + g.indexers + Standalone(g) then Tensor(DraftPage(g) * blocks, [Drafter(t - g.mla - g.indexers)])
    else Tensor(0, [])
  }

  /** What one block costs: an MLA page and an index page a layer, and a page for each drafter layer on its own. */
  ghost function BlockCost(g: Geometry): int {
    g.mla * g.mlaPage + g.indexers * g.idxPage
    + if Alone(g) then g.draft.value.layers * (g.draft.value.block * g.draft.value.tokenBytes) else 0
  }

  /** The tensor at position `t`, by what it must hold: an MLA layer first, with it the mamba layers of row `t` in
      order and under a shared drafter its layer `t`; an indexer with its tail; or one drafter layer. */
  ghost predicate IsTensor(g: Geometry, blocks: nat, t: nat, x: Tensor) {
    if t < g.mla then
      && x.size == g.mlaPage * blocks && Once(x.owners) && MambaRise(x.owners)
      && (forall y :: y in x.owners <==> IsLayer(g, y) && OnMla(g, t, y))
      && x.owners != [] && x.owners[0] == Mla(t)
      && (forall i :: 0 <= i < |x.owners| && x.owners[i].Drafter? ==> i == |x.owners| - 1)
    else if t < g.mla + g.indexers then
      && x.size == g.idxPage * blocks
      && x.owners == [Indexer(t - g.mla)] + if g.tails then [Tail(t - g.mla)] else []
    else
      && Alone(g) && x.size == g.draft.value.block * g.draft.value.tokenBytes * blocks
      && x.owners == [Drafter(t - g.mla - g.indexers)]
  }

  /** The layers on MLA tensor `t`. */
  ghost predicate OnMla(g: Geometry, t: nat, y: Layer) {
    match y
    case Mla(i) => i == t
    case Mamba(k) => k / g.groups == t
    case Drafter(i) => i == t && !Alone(g)
    case _ => false
  }

  ghost predicate MambaRise(xs: seq<Layer>) {
    forall a, b :: 0 <= a < b < |xs| && xs[a].Mamba? && xs[b].Mamba? ==> xs[a].k < xs[b].k
  }

  /** `get_kv_cache_config_from_groups`; no configuration when detection rejects the layout. */
  method EmitTensors(g: Geometry, available: nat) returns (r: Option<(nat, seq<Tensor>)>)
    ensures r.Some? <==> Detected(g)
    ensures r.None? <==>
              && g.draft.Some? && g.draft.value.layers > g.mla
              && g.draft.value.block * g.draft.value.tokenBytes == g.mlaPage
    ensures r.Some? ==>
              && r.value.0 == available / Pool(g)
              && |r.value.1| == g.mla + g.indexers + Standalone(g)
              && forall t :: 0 <= t < |r.value.1| ==> r.value.1[t] == TensorAt(g, r.value.0, t)
    ensures r.Some? ==>
              && BlockCost(g) > 0 && r.value.0 == available / BlockCost(g)
              && |r.value.1| == g.mla + g.indexers + (if Alone(g) then g.draft.value.layers else 0)
              && forall t :: 0 <= t < |r.value.1| ==> IsTensor(g, r.value.0, t, r.value.1[t])
  {
    RejectedExactly(g);
    PoolIsPerBlock(g);
    CostIs(g);
    StandaloneIs(g);
    hide *;
    if !Detected(g) {
      return None;
    }
    var blocks := available / PerBlock(g);
    var mla := MlaTensors(g, blocks);
    var indexers := IndexTensors(g, blocks);
    var drafters := DraftTensors(g, blocks);
    r := Some((blocks, mla + indexers + drafters));
    forall t | 0 <= t < |r.value.1|
      ensures IsTensor(g, blocks, t, r.value.1[t])
    {
      TensorIs(g, blocks, t);
    }
  }

  /** The block cost as the emission computes it. */
  function PerBlock(g: Geometry): Pos {
    MulMono(1, g.mla, g.mlaPage);
    MulMono(0, g.indexers, g.idxPage);
    var perBlock := g.mla * g.mlaPage + g.indexers * g.idxPage;
    if g.draft.Some? && !Shared(g) then perBlock + g.draft.value.layers * DraftPage(g) else perBlock
  }

  lemma RejectedExactly(g: Geometry)
    ensures !Detected(g) <==>
              && g.draft.Some? && g.draft.value.layers > g.mla
              && g.draft.value.block * g.draft.value.tokenBytes == g.mlaPage
  {
    if g.draft.Some? { ModesAgreeIff(g); }
  }

  lemma PoolIsPerBlock(g: Geometry)
    ensures Pool(g) == PerBlock(g)
  {
    hide Shared, DraftPage;
  }

  method MlaTensors(g: Geometry, blocks: nat) returns (r: seq<Tensor>)
    requires Detected(g)
    ensures |r| == g.mla && forall t :: 0 <= t < g.mla ==> r[t] == TensorAt(g, blocks, t)
  {
    hide MambaRow, Dealt;
    var dealt := GroupMamba(g);
    r := [];
    for i := 0 to g.mla
      invariant |r| == i && forall t :: 0 <= t < i ==> r[t] == TensorAt(g, blocks, t)
    {
      var row := RowOf(g, dealt, i);
      var owners := [Mla(i)] + row + if Shared(g) && i < g.draft.value.layers then [Drafter(i)] else [];
      assert owners == MlaOwners(g, i);
      hide MlaOwners;
      r := r + [Tensor(g.mlaPage * blocks, owners)];
    }
  }

  method IndexTensors(g: Geometry, blocks: nat) returns (r: seq<Tensor>)
    ensures |r| == g.indexers && forall t :: 0 <= t < g.indexers ==> r[t] == TensorAt(g, blocks, g.mla + t)
  {
    r := [];
    for i := 0 to g.indexers
      invariant |r| == i && forall t :: 0 <= t < i ==> r[t] == TensorAt(g, blocks, g.mla + t)
    {
      r := r + [Tensor(g.idxPage * blocks, if g.tails then [Indexer(i), Tail(i)] else [Indexer(i)])];
    }
  }

  method DraftTensors(g: Geometry, blocks: nat) returns (r: seq<Tensor>)
    ensures |r| == Standalone(g)
    ensures forall t :: 0 <= t < Standalone(g) ==> r[t] == TensorAt(g, blocks, g.mla + g.indexers + t)
  {
    r := [];
    if g.draft.Some? && !Shared(g) {
      for i := 0 to g.draft.value.layers
        invariant |r| == i && forall t :: 0 <= t < i ==> r[t] == TensorAt(g, blocks, g.mla + g.indexers + t)
      {
        r := r + [Tensor(DraftPage(g) * blocks, [Drafter(i)])];
      }
    }
  }

  method RowOf(g: Geometry, dealt: seq<seq<Layer>>, i: nat) returns (owners: seq<Layer>)
    requires |dealt| == g.groups
    requires forall j :: 0 <= j < g.groups ==> forall i :: 0 <= i < |dealt[j]| ==> dealt[j][i] == Mamba(Dealt(g, i, j))
    requires forall j, i :: 0 <= j < g.groups && 0 <= i ==> (i < |dealt[j]| <==> Dealt(g, i, j) < g.mamba)
    ensures owners == MambaRow(g, i, g.groups)
  {
    owners := [];
    for j := 0 to g.groups
      invariant owners == MambaRow(g, i, j)
    {
      if i < |dealt[j]| { owners := owners + [dealt[j][i]]; }
    }
  }

  /** The per-block bytes, which are positive. */
  function Pool(g: Geometry): Pos {
    MulMono(1, g.mla, g.mlaPage);
    MulMono(0, g.indexers, g.idxPage);
    PoolBytesPerBlock(g)
  }

  /** `_max_memory_usage_bytes_from_groups`, given the block demand of the other groups and of the drafter. */
  function MaxMemory(g: Geometry, others: nat, drafter: nat): int {
    var perBlock := g.mla * g.mlaPage + g.indexers * g.idxPage;
    if g.draft.None? then others * perBlock
    else (others + drafter) * (perBlock + if DraftPage(g) != g.mlaPage then g.draft.value.layers * DraftPage(g) else 0)
  }

  // ---------------------------------------------------------------- bytes

  ghost function TotalSize(g: Geometry, blocks: nat, n: nat): nat {
    if n == 0 then 0 else TotalSize(g, blocks, n - 1) + TensorAt(g, blocks, n - 1).size
  }

  lemma {:induction false} SectionSize(g: Geometry, blocks: nat, from: nat, n: nat, size: nat)
    requires from + n <= g.mla + g.indexers + Standalone(g)
    requires forall t :: from <= t < from + n ==> TensorAt(g, blocks, t).size == size
    ensures TotalSize(g, blocks, from + n) == TotalSize(g, blocks, from) + n * size
  {
    if n > 0 {
      SectionSize(g, blocks, from, n - 1, size);
      assert n * size == (n - 1) * size + size;
    }
  }

  /** The emitted tensors take exactly the block count times the pool bytes per block, within the available memory;
      and the demand of `n` blocks is charged at that same cost. */
  lemma BytesAgree(g: Geometry, available: nat, others: nat, drafter: nat)
    ensures var blocks := available / Pool(g);
            && TotalSize(g, blocks, g.mla + g.indexers + Standalone(g)) == blocks * PoolBytesPerBlock(g) <= available
            && MaxMemory(g, others, drafter)
              == (if g.draft.Some? then others + drafter else others) * PoolBytesPerBlock(g)
    ensures PoolBytesPerBlock(g) == BlockCost(g)
  {
    PoolIs(g);
    CostIs(g);
    hide Pool, PoolBytesPerBlock, Shared, TotalSize, MaxMemory, Standalone;
    var blocks := available / Pool(g);
    SizeIs(g, blocks);
    assert available == blocks * Pool(g) + available % Pool(g);
    DemandIs(g, others, drafter);
  }

  lemma PoolIs(g: Geometry)
    ensures Pool(g) == PoolBytesPerBlock(g)
  {
    hide PoolBytesPerBlock;
  }

  lemma SizeIs(g: Geometry, blocks: nat)
    ensures TotalSize(g, blocks, g.mla + g.indexers + Standalone(g)) == blocks * PoolBytesPerBlock(g)
  {
    var page := if Standalone(g) > 0 then DraftPage(g) else 0;
    Sections(g, blocks, page);
    Collect(g.mla, g.mlaPage, g.indexers, g.idxPage, Standalone(g), page, blocks);
    assert Standalone(g) * page == if Standalone(g) > 0 then Standalone(g) * DraftPage(g) else 0;
  }

  lemma Sections(g: Geometry, blocks: nat, page: nat)
    requires page == if Standalone(g) > 0 then DraftPage(g) else 0
    ensures TotalSize(g, blocks, g.mla + g.indexers + Standalone(g)) ==
            g.mla * (g.mlaPage * blocks) + g.indexers * (g.idxPage * blocks) + Standalone(g) * (page * blocks)
  {
    hide MlaOwners, IndexOwners, DraftPage, Standalone;
    SectionSize(g, blocks, 0, g.mla, g.mlaPage * blocks);
    SectionSize(g, blocks, g.mla, g.indexers, g.idxPage * blocks);
    SectionSize(g, blocks, g.mla + g.indexers, Standalone(g), page * blocks);
  }

  lemma DemandIs(g: Geometry, others: nat, drafter: nat)
    ensures MaxMemory(g, others, drafter) == (if g.draft.Some? then others + drafter else others) * PoolBytesPerBlock(g)
  {
    hide DraftPage;
  }

  lemma Collect(a: nat, p: nat, b: nat, q: nat, c: nat, r: nat, n: nat)
    ensures a * (p * n) + b * (q * n) + c * (r * n) == n * (a * p + b * q + c * r)
  {
    assert a * (p * n) == n * (a * p) && b * (q * n) == n * (b * q) && c * (r * n) == n * (c * r);
  }

  // ---------------------------------------------------------------- ownership

  lemma {:induction false} InRow(g: Geometry, i: nat, n: nat, x: Layer)
    requires n <= g.groups
    ensures x in MambaRow(g, i, n) <==> x.Mamba? && x.k < g.mamba && x.k / g.groups == i && x.k % g.groups < n
  {
    if n > 0 {
      InRow(g, i, n - 1, x);
      if x.Mamba? { DealtOnce(g, i, n - 1, x.k); }
    }
  }

  ghost predicate Once(xs: seq<Layer>) {
    forall a, b :: 0 <= a < b < |xs| ==> xs[a] != xs[b]
  }

  lemma {:induction false} RowOnce(g: Geometry, i: nat, n: nat)
    requires n <= g.groups
    ensures Once(MambaRow(g, i, n))
  {
    if n > 0 {
      RowOnce(g, i, n - 1);
      var x := Mamba(Dealt(g, i, n - 1));
      InRow(g, i, n - 1, x);
      DealtOnce(g, i, n - 1, x.k);
    }
  }

  /** The tensor that must hold a layer. */
  ghost function Home(g: Geometry, x: Layer): nat
    requires IsLayer(g, x)
  {
    match x
    case Mla(i) => i
    case Indexer(i) => g.mla + i
    case Tail(i) => g.mla + i
    case Mamba(k) => k / g.groups
    case Drafter(i) => if Shared(g) then i else g.mla + g.indexers + i
  }

  lemma OwnersOf(g: Geometry, blocks: nat, t: nat, x: Layer)
    requires Detected(g) && t < g.mla + g.indexers + Standalone(g)
    ensures x in TensorAt(g, blocks, t).owners <==> IsLayer(g, x) && Home(g, x) == t && (x.Mamba? ==> t < g.mla)
    ensures Once(TensorAt(g, blocks, t).owners)
  {
    if t < g.mla {
      InRow(g, t, g.groups, x);
      RowOnce(g, t, g.groups);
      var row := MambaRow(g, t, g.groups);
      forall a | 0 <= a < |row|
        ensures row[a].Mamba?
      {
        assert row[a] in row;
        InRow(g, t, g.groups, row[a]);
      }
    }
  }

  lemma CostIs(g: Geometry)
    ensures Pool(g) == BlockCost(g)
  {
    ModeIs(g);
    PoolIs(g);
    hide Pool, Shared, Alone, DraftPage;
  }

  lemma StandaloneIs(g: Geometry)
    ensures Standalone(g) == if Alone(g) then g.draft.value.layers else 0
  {
    ModeIs(g);
    hide Shared, Alone;
  }

  lemma TensorIs(g: Geometry, blocks: nat, t: nat)
    requires Detected(g) && t < g.mla + g.indexers + Standalone(g)
    ensures IsTensor(g, blocks, t, TensorAt(g, blocks, t))
  {
    ModeIs(g);
    if t < g.mla {
      MlaTensorIs(g, blocks, t);
    } else {
      hide Shared, Alone, DraftPage, MlaOwners, Detected;
    }
  }

  lemma MlaTensorIs(g: Geometry, blocks: nat, t: nat)
    requires Detected(g) && t < g.mla
    ensures IsTensor(g, blocks, t, TensorAt(g, blocks, t))
  {
    var xs := MlaOwners(g, t);
    ModeIs(g);
    RowRises(g, t, g.groups);
    forall y
      ensures y in xs <==> IsLayer(g, y) && OnMla(g, t, y)
    {
      InRow(g, t, g.groups, y);
      ModOf(y, g.groups);
    }
    OwnersOf(g, blocks, t, Mla(t));
    MambaOnly(g, t);
    hide Shared, Alone, DraftPage, MambaRow, Detected;
  }

  lemma ModOf(y: Layer, groups: Pos)
    ensures y.Mamba? ==> y.k % groups < groups
  {
  }

  lemma MambaOnly(g: Geometry, t: nat)
    ensures forall a :: 0 <= a < |MambaRow(g, t, g.groups)| ==> MambaRow(g, t, g.groups)[a].Mamba?
  {
    var row := MambaRow(g, t, g.groups);
    forall a | 0 <= a < |row|
      ensures row[a].Mamba?
    {
      assert row[a] in row;
      InRow(g, t, g.groups, row[a]);
    }
  }

  lemma {:induction false} RowRises(g: Geometry, i: nat, n: nat)
    requires n <= g.groups
    ensures MambaRise(MambaRow(g, i, n))
  {
    if n > 0 {
      RowRises(g, i, n - 1);
      var row := MambaRow(g, i, n - 1);
      forall a | 0 <= a < |row| && row[a].Mamba?
        ensures row[a].k < Dealt(g, i, n - 1)
      {
        assert row[a] in row;
        InRow(g, i, n - 1, row[a]);
        BeforeInRow(g, i, n - 1, row[a].k);
      }
    }
  }

  lemma BeforeInRow(g: Geometry, i: nat, n: nat, k: nat)
    requires k / g.groups == i && k % g.groups < n
    ensures k < Dealt(g, i, n)
  {
    assert k == k / g.groups * g.groups + k % g.groups;
  }

  /** Every layer owns exactly one tensor, once, if and only if the mamba layers fit the groups and MLA tensors. */
  lemma EachLayerOwnsOne(g: Geometry, blocks: nat)
    requires Detected(g)
    ensures (forall x :: IsLayer(g, x) ==>
               exists t :: 0 <= t < g.mla + g.indexers + Standalone(g) && x in TensorAt(g, blocks, t).owners)
            <==> g.mamba <= g.groups * g.mla
    ensures forall t, u, x :: 0 <= t < u < g.mla + g.indexers + Standalone(g) && x in TensorAt(g, blocks, t).owners ==>
              x !in TensorAt(g, blocks, u).owners
  {
    var total := g.mla + g.indexers + Standalone(g);
    forall t, u, x | 0 <= t < u < total && x in TensorAt(g, blocks, t).owners
      ensures x !in TensorAt(g, blocks, u).owners
    {
      OwnersOf(g, blocks, t, x);
      OwnersOf(g, blocks, u, x);
    }
    if g.mamba <= g.groups * g.mla {
      forall x | IsLayer(g, x)
        ensures exists t :: 0 <= t < total && x in TensorAt(g, blocks, t).owners
      {
        if x.Mamba? { RowInRange(g, x.k); }
        OwnersOf(g, blocks, Home(g, x), x);
      }
    } else {
      var x := Mamba(g.groups * g.mla);
      DivModUnique(g.groups * g.mla, g.groups, g.mla, 0);
      assert IsLayer(g, x);
      forall t | 0 <= t < total
        ensures x !in TensorAt(g, blocks, t).owners
      {
        OwnersOf(g, blocks, t, x);
      }
    }
  }

  lemma RowInRange(g: Geometry, k: nat)
    requires k < g.mamba <= g.groups * g.mla
    ensures k / g.groups < g.mla
  {
    assert k == k / g.groups * g.groups + k % g.groups;
    if k / g.groups >= g.mla { MulMono(g.mla, k / g.groups, g.groups); }
  }

  // ---------------------------------------------------------------- kernel blocks of an exact fit

  /** Kernel block `j` of manager block `b` of a drafter layer, as the contiguous view places it. */
  function KernelBlockStart(g: Geometry, kernel: Pos, b: nat, j: nat): int
    requires g.draft.Some?
  {
    (b * (BuiltBlock(g) / kernel) + j) * KernelPage(g, kernel)
  }

  function KernelPage(g: Geometry, kernel: Pos): Pos
    requires g.draft.Some?
  {
    MulMono(1, kernel, g.draft.value.tokenBytes);
    kernel * g.draft.value.tokenBytes
  }

  lemma PageHoldsKernelBlocks(g: Geometry, kernel: Pos)
    requires ExactFit(g) && BuiltBlock(g) % kernel == 0
    ensures BuiltBlock(g) / kernel * KernelPage(g, kernel) == g.mlaPage
  {
    FitFills(g);
    assert g.draft.Some?;
    hide BuiltBlock, ExactFit;
    var ratio := BuiltBlock(g) / kernel;
    assert BuiltBlock(g) == ratio * kernel;
    assert ratio * (kernel * g.draft.value.tokenBytes) == (ratio * kernel) * g.draft.value.tokenBytes;
  }

  lemma Expand(b: nat, ratio: nat, j: nat, page: nat)
    ensures (b * ratio + j) * page == b * (ratio * page) + j * page
  {
    assert (b * ratio) * page == b * (ratio * page);
  }

  /** Under an exact fit and any kernel block that divides the manager block, kernel block `j` of block `b` lies
      inside page `b` of the MLA tensor, `j` kernel pages from its start. */
  lemma KernelBlockInPage(g: Geometry, kernel: Pos, b: nat, j: nat)
    requires ExactFit(g) && BuiltBlock(g) % kernel == 0 && j < BuiltBlock(g) / kernel
    ensures var at := KernelBlockStart(g, kernel, b, j);
            && at == b * g.mlaPage + j * KernelPage(g, kernel)
            && b * g.mlaPage <= at && at + KernelPage(g, kernel) <= b * g.mlaPage + g.mlaPage
  {
    PageHoldsKernelBlocks(g, kernel);
    Expand(b, BuiltBlock(g) / kernel, j, KernelPage(g, kernel));
    MulMono(0, j, KernelPage(g, kernel));
    MulGap(j, BuiltBlock(g) / kernel, KernelPage(g, kernel));
  }

  /** The SWA kernels' block sizes all divide an exact-fit block. */
  lemma KernelSizesDivide(g: Geometry, kernel: Pos)
    requires ExactFit(g) && kernel in {16, 32, 64}
    ensures BuiltBlock(g) % kernel == 0
  {
    var fit := FitBlock(g);
    assert BuiltBlock(g) == fit && fit % 64 == 0;
    hide *;
    MultipleOf64(fit);
  }

  lemma MultipleOf64(n: nat)
    requires n % 64 == 0
    ensures n % 16 == 0 && n % 32 == 0
  {
    var q := n / 64;
    DivModUnique(n, 16, 4 * q, 0);
    DivModUnique(n, 32, 2 * q, 0);
  }

  /** Different kernel blocks never overlap. */
  lemma KernelBlocksDisjoint(g: Geometry, kernel: Pos, b: nat, j: nat, c: nat, i: nat)
    requires ExactFit(g) && BuiltBlock(g) % kernel == 0 && j < BuiltBlock(g) / kernel && i < BuiltBlock(g) / kernel
    requires b < c || (b == c && j < i)
    ensures KernelBlockStart(g, kernel, b, j) + KernelPage(g, kernel) <= KernelBlockStart(g, kernel, c, i)
  {
    KernelBlockInPage(g, kernel, b, j);
    KernelBlockInPage(g, kernel, c, i);
    assert g.draft.Some?;
    hide *;
    if b < c { MulGap(b, c, g.mlaPage); } else { MulGap(j, i, KernelPage(g, kernel)); }
  }
}
