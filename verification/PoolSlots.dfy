/** Where a completed pool is written when the index cache is sharded across context-parallel ranks. */
module PoolSlots {
  import opened Arith

  /** `block` records per physical block, `world` ranks, `ratio` tokens per pool. */
  datatype Shards = Shards(block: Pos, world: Pos, ratio: Pos)
  {
    /** Pools covered by one logical block over all ranks. */
    function Span(): Pos { MulMono(1, block, world); MulMono(1, world, 1); block * world }

    function Pool(position: nat): nat { DivMono(0, position, ratio); position / ratio }
    function Owner(pool: nat): nat { pool % Span() % world }
    function Block(pool: nat): nat { DivMono(0, pool, Span()); pool / Span() }
    function Offset(pool: nat): nat { DivMono(0, pool % Span(), world); pool % Span() / world }

    function PoolAt(owner: nat, blk: nat, offset: nat): nat {
      MulMono(0, blk, Span()); MulMono(0, offset, world);
      blk * Span() + offset * world + owner
    }
  }

  predicate Complete(g: Shards, position: nat) { (position + 1) % g.ratio == 0 }

  /** The write slot of a token on one rank, -1 unless it completes a pool this rank owns. */
  function SlotAt(g: Shards, rank: nat, row: seq<nat>, position: nat): (slot: int)
    requires RowReaches(g, rank, row, position)
  {
    var pool := g.Pool(position);
    if Complete(g, position) && g.Owner(pool) == rank then row[g.Block(pool)] * g.block + g.Offset(pool) else -1
  }

  /** Each request maps its last tokens; its table row reaches every block they touch. */
  ghost predicate BatchOk(g: Shards, rank: nat, starts: seq<nat>, lens: seq<nat>, table: seq<seq<nat>>, n: nat) {
    && |starts| == |table| + 1 && |lens| == |table|
    && (forall r :: 0 <= r < |table| ==> starts[r] <= starts[r + 1] && starts[r + 1] - starts[r] <= lens[r])
    && (forall r, s :: 0 <= r < s <= |table| ==> starts[r] <= starts[s])
    && starts[|table|] <= n
    && (forall r, position :: 0 <= r < |table| && 0 <= position < lens[r] ==> RowReaches(g, rank, table[r], position))
  }

  predicate RowReaches(g: Shards, rank: nat, row: seq<nat>, position: nat) {
    Complete(g, position) && g.Owner(g.Pool(position)) == rank ==> g.Block(g.Pool(position)) < |row|
  }

  ghost predicate Mapped(g: Shards, rank: nat, row: seq<nat>, first: nat, out: seq<int>, start: nat, end: nat)
    requires end <= |out|
  {
    forall i :: start <= i < end ==> RowReaches(g, rank, row, first + i - start)
                                     && out[i] == SlotAt(g, rank, row, first + i - start)
  }

  /** The mapping kernel: one program per request over a buffer filled with the padding id. */
  method MapSlots(g: Shards, rank: nat, starts: seq<nat>, lens: seq<nat>, table: seq<seq<nat>>, tile: Pos,
                  out: array<int>)
    requires BatchOk(g, rank, starts, lens, table, out.Length)
    modifies out
    ensures forall r :: 0 <= r < |table| ==>
              Mapped(g, rank, table[r], lens[r] - (starts[r + 1] - starts[r]), out[..], starts[r], starts[r + 1])
    ensures forall r, i :: 0 <= r < |table| && starts[r] <= i < starts[r + 1] ==>
              IsSlot(g, rank, table[r], lens[r] - (starts[r + 1] - i), out[i])
    ensures forall i :: starts[|table|] <= i < out.Length || 0 <= i < starts[0] ==> out[i] == -1
  {
    hide IsSlot, SlotAt, RowReaches;
    for i := 0 to out.Length
      invariant forall j :: 0 <= j < i ==> out[j] == -1
    {
      out[i] := -1;
    }
    for req := 0 to |table|
      invariant forall r :: 0 <= r < req ==>
                  Mapped(g, rank, table[r], lens[r] - (starts[r + 1] - starts[r]), out[..], starts[r], starts[r + 1])
      invariant forall i :: starts[req] <= i < out.Length || 0 <= i < starts[0] ==> out[i] == -1
    {
      ghost var before := out[..];
      var queryLen := starts[req + 1] - starts[req];
      MapRequest(g, rank, table[req], lens[req] - queryLen, starts[req], queryLen, tile, out);
      forall r | 0 <= r < req
        ensures Mapped(g, rank, table[r], lens[r] - (starts[r + 1] - starts[r]), out[..], starts[r], starts[r + 1])
      {
        assert Mapped(g, rank, table[r], lens[r] - (starts[r + 1] - starts[r]), before, starts[r], starts[r + 1]);
        assert starts[r + 1] <= starts[req];
      }
    }
    forall r, i | 0 <= r < |table| && starts[r] <= i < starts[r + 1]
      ensures IsSlot(g, rank, table[r], lens[r] - (starts[r + 1] - i), out[i])
    {
      assert Mapped(g, rank, table[r], lens[r] - (starts[r + 1] - starts[r]), out[..], starts[r], starts[r + 1]);
      SlotAtIs(g, rank, table[r], lens[r] - (starts[r + 1] - starts[r]) + i - starts[r]);
    }
  }

  /** One request, in tiles of `tile` lanes. */
  method MapRequest(g: Shards, rank: nat, row: seq<nat>, first: nat, start: nat, count: nat, tile: Pos, out: array<int>)
    requires start + count <= out.Length
    requires forall position :: 0 <= position < first + count ==> RowReaches(g, rank, row, position)
    modifies out
    ensures Mapped(g, rank, row, first, out[..], start, start + count)
    ensures forall i :: 0 <= i < start || start + count <= i < out.Length ==> out[i] == old(out[i])
  {
    var base := 0;
    while base < count
      invariant 0 <= base
      invariant Mapped(g, rank, row, first, out[..], start, start + if base < count then base else count)
      invariant forall i :: 0 <= i < start || start + count <= i < out.Length ==> out[i] == old(out[i])
    {
      for lane := 0 to tile
        invariant Mapped(g, rank, row, first, out[..], start,
                         start + if base + lane < count then base + lane else count)
        invariant forall i :: 0 <= i < start || start + count <= i < out.Length ==> out[i] == old(out[i])
      {
        if base + lane < count {
          out[start + base + lane] := LaneSlot(g, rank, row, first + base + lane);
        }
      }
      base := base + tile;
    }
  }

  /** One lane's arithmetic, in the kernel's order. */
  method LaneSlot(g: Shards, rank: nat, row: seq<nat>, position: nat) returns (slot: int)
    requires RowReaches(g, rank, row, position)
    ensures slot == SlotAt(g, rank, row, position)
  {
    var complete := (position + 1) % g.ratio == 0;
    var pool := g.Pool(position);
    var virtualOffset := pool % g.Span();
    var isLocal := virtualOffset % g.world == rank;
    if complete && isLocal {
      slot := row[g.Block(pool)] * g.block + g.Offset(pool);
    } else {
      slot := -1;
    }
  }

  // ---------------------------------------------------------------- the mapping is a partition

  /** (owner, block, offset) is a bijection between pools and cells of the sharded cache. */
  lemma CellOfPool(g: Shards, pool: nat)
    ensures g.Owner(pool) < g.world && g.Offset(pool) < g.block
    ensures g.PoolAt(g.Owner(pool), g.Block(pool), g.Offset(pool)) == pool
    ensures pool == (g.Block(pool) * g.block + g.Offset(pool)) * g.world + g.Owner(pool)
  {
    var span := g.Span();
    var v := pool % span;
    assert pool == (pool / span) * span + v;
    assert v == (v / g.world) * g.world + v % g.world;
    if v / g.world >= g.block {
      MulMono(g.block, v / g.world, g.world);
    }
    Nested(pool / span, g.block, g.world, v / g.world);
  }

  lemma Nested(b: int, block: int, world: int, o: int)
    ensures (b * block + o) * world == b * (block * world) + o * world
  {
    assert (b * block) * world == b * (block * world);
  }

  lemma PoolOfCell(g: Shards, owner: nat, blk: nat, offset: nat)
    requires owner < g.world && offset < g.block
    ensures var pool := g.PoolAt(owner, blk, offset);
            g.Owner(pool) == owner && g.Block(pool) == blk && g.Offset(pool) == offset
  {
    var pool, v := g.PoolAt(owner, blk, offset), offset * g.world + owner;
    MulGap(offset, g.block, g.world);
    MulMono(0, offset, g.world);
    DivModUnique(pool, g.Span(), blk, v);
    DivModUnique(v, g.world, offset, owner);
  }

  /** Pools are dealt to the ranks in turn, and each rank fills its blocks in order: the token at `position` is the
      last of the pool that `rank` keeps at `offset` of block `blk`. */
  ghost predicate Completes(g: Shards, rank: nat, position: int, blk: int, offset: int) {
    && rank < g.world && 0 <= blk && 0 <= offset < g.block
    && position + 1 == ((blk * g.block + offset) * g.world + rank + 1) * g.ratio
  }

  /** The write slot, by what it must be. */
  ghost predicate IsSlot(g: Shards, rank: nat, row: seq<nat>, position: int, slot: int) {
    if exists b, o :: Completes(g, rank, position, b, o) then
      exists b, o :: Completes(g, rank, position, b, o) && b < |row| && slot == row[b] * g.block + o
    else slot == -1
  }

  lemma CompletesIff(g: Shards, rank: nat, position: nat, b: int, o: int)
    ensures Completes(g, rank, position, b, o) <==>
              && rank < g.world && Complete(g, position) && g.Owner(g.Pool(position)) == rank
              && b == g.Block(g.Pool(position)) && o == g.Offset(g.Pool(position))
  {
    var pool := g.Pool(position);
    CellOfPool(g, pool);
    if Completes(g, rank, position, b, o) {
      var p := (b * g.block + o) * g.world + rank;
      Nested(b, g.block, g.world, o);
      assert (p + 1) * g.ratio == p * g.ratio + g.ratio;
      DivModUnique(position, g.ratio, p, g.ratio - 1);
      DivModUnique(position + 1, g.ratio, p + 1, 0);
      PoolOfCell(g, rank, b, o);
    }
    if Complete(g, position) {
      LastOfPool(position, g.ratio);
    }
  }

  lemma LastOfPool(position: nat, ratio: Pos)
    requires (position + 1) % ratio == 0
    ensures position + 1 == (position / ratio + 1) * ratio
  {
    var q := (position + 1) / ratio;
    assert position + 1 == q * ratio;
    assert (q - 1) * ratio == q * ratio - ratio;
    DivModUnique(position, ratio, q - 1, ratio - 1);
  }

  lemma SlotAtIs(g: Shards, rank: nat, row: seq<nat>, position: nat)
    requires RowReaches(g, rank, row, position)
    ensures IsSlot(g, rank, row, position, SlotAt(g, rank, row, position))
  {
    hide Completes;
    var pool := g.Pool(position);
    var b, o := g.Block(pool), g.Offset(pool);
    CompletesIff(g, rank, position, b, o);
    if x, y :| Completes(g, rank, position, x, y) {
      CompletesIff(g, rank, position, x, y);
    }
  }

  /** A completed pool gets a slot on exactly one rank, and nothing else gets one anywhere. */
  lemma ExactlyOneWriter(g: Shards, rows: seq<seq<nat>>, position: nat)
    requires |rows| == g.world
    requires forall rank :: 0 <= rank < g.world ==> RowReaches(g, rank, rows[rank], position)
    ensures Complete(g, position) ==>
              exists rank :: 0 <= rank < g.world && SlotAt(g, rank, rows[rank], position) >= 0
                             && forall other :: 0 <= other < g.world && other != rank ==>
                                     SlotAt(g, other, rows[other], position) == -1
    ensures !Complete(g, position) ==> forall rank :: 0 <= rank < g.world ==>
              SlotAt(g, rank, rows[rank], position) == -1
  {
    CellOfPool(g, g.Pool(position));
    if Complete(g, position) {
      var rank := g.Owner(g.Pool(position));
      assert RowReaches(g, rank, rows[rank], position);
      var b := rows[rank][g.Block(g.Pool(position))];
      MulMono(0, b, g.block);
      assert SlotAt(g, rank, rows[rank], position) >= 0;
    }
  }

  ghost predicate NoSharedBlocks(rowA: seq<nat>, rowB: seq<nat>, same: bool) {
    forall i, j :: 0 <= i < |rowA| && 0 <= j < |rowB| && (same ==> i != j) ==> rowA[i] != rowB[j]
  }

  /** Slots on one rank collide only for the same pool of the same request. */
  lemma SlotsNeverCollide(g: Shards, rank: nat, rowA: seq<nat>, rowB: seq<nat>, same: bool, a: nat, b: nat)
    requires RowReaches(g, rank, rowA, a) && RowReaches(g, rank, rowB, b)
    requires same ==> rowA == rowB && a != b
    requires NoSharedBlocks(rowA, rowB, same)
    requires SlotAt(g, rank, rowA, a) >= 0
    ensures SlotAt(g, rank, rowA, a) != SlotAt(g, rank, rowB, b)
  {
    if SlotAt(g, rank, rowB, b) >= 0 {
      var p, q := g.Pool(a), g.Pool(b);
      CellOfPool(g, p);
      CellOfPool(g, q);
      var i, j := g.Block(p), g.Block(q);
      if SlotAt(g, rank, rowA, a) == SlotAt(g, rank, rowB, b) {
        var slot := SlotAt(g, rank, rowA, a);
        DivModUnique(slot, g.block, rowA[i], g.Offset(p));
        DivModUnique(slot, g.block, rowB[j], g.Offset(q));
        assert rowA[i] == rowB[j];
        assert same && i == j;
        assert p == q;
        SamePoolEnd(a, b, g.ratio);
      }
    }
  }

  lemma SamePoolEnd(a: nat, b: nat, ratio: Pos)
    requires a / ratio == b / ratio && (a + 1) % ratio == 0 && (b + 1) % ratio == 0
    ensures a == b
  {
    var q := a / ratio;
    assert a == q * ratio + a % ratio && b == q * ratio + b % ratio;
    if a % ratio < ratio - 1 { DivModUnique(a + 1, ratio, q, a % ratio + 1); }
    if b % ratio < ratio - 1 { DivModUnique(b + 1, ratio, q, b % ratio + 1); }
  }

  /** With one rank the mapping is ordinary paging by pool. */
  lemma OneRankIsPaging(g: Shards, row: seq<nat>, position: nat)
    requires g.world == 1 && RowReaches(g, 0, row, position) && Complete(g, position)
    ensures g.Pool(position) / g.block < |row|
    ensures SlotAt(g, 0, row, position) == row[g.Pool(position) / g.block] * g.block + g.Pool(position) % g.block
  {
    var pool := g.Pool(position);
    DivMono(0, pool, g.block);
    assert g.Span() == g.block;
    CellOfPool(g, pool);
    assert g.PoolAt(0, pool / g.block, pool % g.block) == pool;
    PoolOfCell(g, 0, pool / g.block, pool % g.block);
  }
}
