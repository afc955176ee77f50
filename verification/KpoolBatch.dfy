/** From one request to the shared buffers: concurrent requests, batched prefill, sharded ranks. */
module KpoolBatch {
  import opened Arith
  import opened KpoolRing
  import opened KpoolRuns
  import opened PoolSlots

  // ---------------------------------------------------------------- concurrent requests

  /** The lane of position `q`: its tail slot lies in the request's own block. */
  ghost predicate IsLane<Entry, Record>(l: Layout<Entry, Record>, block: nat, h: seq<Entry>, q: nat, t: Token<Entry>)
    requires q < |h|
  {
    t.entry == h[q] && t.position == q && t.tailSlot >= 0 && t.tailSlot / l.size == block && t.cacheSlot == SlotOf(l, q)
  }

  /** A padding lane, or a lane of a request with another tail block and other records. */
  ghost predicate IsForeign<Entry, Record>(l: Layout<Entry, Record>, block: nat, t: Token<Entry>) {
    || t.position < 0
    || t.tailSlot < 0
    || (t.tailSlot / l.size != block && forall start: nat :: l.loc(start) >= 0 ==> l.loc(start) != t.cacheSlot)
  }

  /** The first `m` lanes are some interleaving of positions `c .. n - 1` with foreign lanes. */
  ghost predicate Interleaved<Entry, Record>(l: Layout<Entry, Record>, block: nat, h: seq<Entry>, c: nat, n: nat,
                                             ts: seq<Token<Entry>>, m: nat)
    requires c <= n <= |h| && m <= |ts|
  {
    if m == 0 then n == c
    else
      || (IsForeign(l, block, ts[m - 1]) && Interleaved(l, block, h, c, n, ts, m - 1))
      || (c < n && IsLane(l, block, h, n - 1, ts[m - 1]) && Interleaved(l, block, h, c, n - 1, ts, m - 1))
  }

  /** A store seen from one request. */
  ghost predicate Agrees<Entry, Record>(l: Layout<Entry, Record>, block: nat, s: Store<Entry, Record>,
                                        v: Solo<Entry, Record>) {
    && block < |s.rings| && |s.cache| == |v.cache| && s.rings[block] == v.ring
    && forall start: nat :: 0 <= l.loc(start) < |s.cache| ==> s.cache[l.loc(start)] == v.cache[l.loc(start)]
  }

  lemma ForeignStep<Entry, Record>(l: Layout<Entry, Record>, block: nat, s: Store<Entry, Record>,
                                   v: Solo<Entry, Record>, t: Token<Entry>)
    requires StoreOk(l.size, s) && TokenOk(l.size, |s.rings|, |s.cache|, t) && IsForeign(l, block, t)
    requires Agrees(l, block, s, v)
    ensures Agrees(l, block, Step(l.size, l.pool, s, t), v)
  {
  }

  lemma OwnStep<Entry, Record>(l: Layout<Entry, Record>, block: nat, s: Store<Entry, Record>, v: Solo<Entry, Record>,
                               h: seq<Entry>, q: nat, t: Token<Entry>)
    requires StoreOk(l.size, s) && TokenOk(l.size, |s.rings|, |s.cache|, t) && SoloOk(l, v) && Agrees(l, block, s, v)
    requires q < |h| && IsLane(l, block, h, q, t)
    ensures Agrees(l, block, Step(l.size, l.pool, s, t), Feed(l, v, q, h[q]))
  {
  }

  /** Requests are isolated: under every interleaving of all lanes of a launch, padding included, a request that sees
      `v` in the store sees afterwards what it would have made of `v` alone. */
  lemma {:induction false} RequestsAreIsolated<Entry, Record>(l: Layout<Entry, Record>, block: nat,
                                                              s: Store<Entry, Record>, v: Solo<Entry, Record>,
                                                              h: seq<Entry>, c: nat, n: nat, ts: seq<Token<Entry>>,
                                                              m: nat)
    requires StoreOk(l.size, s) && TokensOk(l.size, |s.rings|, |s.cache|, ts) && m <= |ts|
    requires SoloOk(l, v) && Agrees(l, block, s, v) && c <= n <= |h| && Interleaved(l, block, h, c, n, ts, m)
    ensures Agrees(l, block, Steps(l.size, l.pool, s, ts, m), FeedTo(l, v, h, c, n))
  {
    hide Step, Feed;
    if m > 0 {
      var t, before := ts[m - 1], Steps(l.size, l.pool, s, ts, m - 1);
      if IsForeign(l, block, t) && Interleaved(l, block, h, c, n, ts, m - 1) {
        RequestsAreIsolated(l, block, s, v, h, c, n, ts, m - 1);
        ForeignStep(l, block, before, FeedTo(l, v, h, c, n), t);
      } else {
        RequestsAreIsolated(l, block, s, v, h, c, n - 1, ts, m - 1);
        OwnStep(l, block, before, FeedTo(l, v, h, c, n - 1), h, n - 1, t);
      }
    }
  }

  // ---------------------------------------------------------------- batched prefill

  /** Rows of a request whose chunk starts on a pool boundary have slots only at pool ends. */
  ghost predicate Aligned(size: Pos, slots: seq<int>) {
    forall i :: 0 <= i < |slots| && slots[i] >= 0 ==> (i + 1) % size == 0
  }

  /** Every window of a concatenated batch lies in its own request: inserting the batch is inserting
      the requests one after another. */
  lemma BatchedInsert<Entry, Record>(size: Pos, pool: seq<Entry> -> Record, cache: seq<Record>,
                                     a: seq<Entry>, sa: seq<int>, b: seq<Entry>, sb: seq<int>)
    requires |a| == |sa| && |b| == |sb| && Aligned(size, sb)
    requires forall i :: 0 <= i < |sa| ==> sa[i] < |cache|
    requires forall i :: 0 <= i < |sb| ==> sb[i] < |cache|
    ensures Insert(size, pool, cache, a + b, sa + sb, |a + b|)
         == Insert(size, pool, Insert(size, pool, cache, a, sa, |a|), b, sb, |b|)
  {
    assert (a + b)[|a|..] == b && (sa + sb)[|a|..] == sb;
    InsertPrefix(size, pool, cache, a, sa, b, sb, |a|);
    SecondRequest(size, pool, cache, a + b, sa + sb, |a|, b, sb, |b|);
  }

  /** One request's rows of a prefill batch, with their slots and the request's tail block. */
  datatype Part<Entry> = Part(block: nat, rows: seq<Entry>, slots: seq<int>)

  ghost predicate PartsOk<Entry>(size: Pos, slots: nat, batch: seq<Part<Entry>>) {
    forall r :: 0 <= r < |batch| ==>
      && |batch[r].rows| == |batch[r].slots| && Aligned(size, batch[r].slots)
      && forall i :: 0 <= i < |batch[r].slots| ==> batch[r].slots[i] < slots
  }

  ghost function AllRows<Entry>(batch: seq<Part<Entry>>, n: nat): seq<Entry>
    requires n <= |batch|
  {
    if n == 0 then [] else AllRows(batch, n - 1) + batch[n - 1].rows
  }

  ghost function AllSlots<Entry>(size: Pos, slots: nat, batch: seq<Part<Entry>>, n: nat): (r: seq<int>)
    requires n <= |batch| && PartsOk(size, slots, batch)
    ensures |r| == |AllRows(batch, n)| && forall i :: 0 <= i < |r| ==> r[i] < slots
  {
    if n == 0 then [] else AllSlots(size, slots, batch, n - 1) + batch[n - 1].slots
  }

  ghost function InsertEach<Entry, Record>(size: Pos, pool: seq<Entry> -> Record, cache: seq<Record>,
                                           batch: seq<Part<Entry>>, n: nat): (r: seq<Record>)
    requires n <= |batch| && PartsOk(size, |cache|, batch)
    ensures |r| == |cache|
  {
    if n == 0 then cache
    else Insert(size, pool, InsertEach(size, pool, cache, batch, n - 1), batch[n - 1].rows, batch[n - 1].slots,
                |batch[n - 1].rows|)
  }

  /** For any number of concatenated requests on pool boundaries, no window crosses a request. */
  lemma {:induction false} BatchIsPerRequest<Entry, Record>(size: Pos, pool: seq<Entry> -> Record, cache: seq<Record>,
                                                            batch: seq<Part<Entry>>, n: nat)
    requires n <= |batch| && PartsOk(size, |cache|, batch)
    ensures Insert(size, pool, cache, AllRows(batch, n), AllSlots(size, |cache|, batch, n), |AllRows(batch, n)|)
         == InsertEach(size, pool, cache, batch, n)
  {
    hide *;
    if n == 0 {
      NoRequests(size, pool, cache, batch);
    } else {
      BatchIsPerRequest(size, pool, cache, batch, n - 1);
      OneMoreRequest(size, pool, cache, batch, n);
    }
  }

  lemma NoRequests<Entry, Record>(size: Pos, pool: seq<Entry> -> Record, cache: seq<Record>, batch: seq<Part<Entry>>)
    requires PartsOk(size, |cache|, batch)
    ensures Insert(size, pool, cache, AllRows(batch, 0), AllSlots(size, |cache|, batch, 0), 0) == cache
    ensures |AllRows(batch, 0)| == 0 && InsertEach(size, pool, cache, batch, 0) == cache
  {
  }

  lemma OneMoreRequest<Entry, Record>(size: Pos, pool: seq<Entry> -> Record, cache: seq<Record>,
                                      batch: seq<Part<Entry>>, n: nat)
    requires 0 < n <= |batch| && PartsOk(size, |cache|, batch)
    requires Insert(size, pool, cache, AllRows(batch, n - 1), AllSlots(size, |cache|, batch, n - 1),
                    |AllRows(batch, n - 1)|)
          == InsertEach(size, pool, cache, batch, n - 1)
    ensures Insert(size, pool, cache, AllRows(batch, n), AllSlots(size, |cache|, batch, n), |AllRows(batch, n)|)
         == InsertEach(size, pool, cache, batch, n)
  {
    hide Insert, Aligned;
    var rows, slots, part := AllRows(batch, n - 1), AllSlots(size, |cache|, batch, n - 1), batch[n - 1];
    BatchedInsert(size, pool, cache, rows, slots, part.rows, part.slots);
  }

  lemma {:induction false} SecondRequest<Entry, Record>(size: Pos, pool: seq<Entry> -> Record, cache: seq<Record>,
                                                        rows: seq<Entry>, slots: seq<int>, k: nat, b: seq<Entry>,
                                                        sb: seq<int>, n: nat)
    requires k <= |rows| == |slots| && b == rows[k..] && sb == slots[k..] && n <= |b| && Aligned(size, sb)
    requires forall i :: 0 <= i < |slots| ==> slots[i] < |cache|
    ensures Insert(size, pool, cache, rows, slots, k + n)
         == Insert(size, pool, Insert(size, pool, cache, rows, slots, k), b, sb, n)
  {
    hide *;
    if n == 0 {
      InsertNone(size, pool, Insert(size, pool, cache, rows, slots, k), b, sb);
    } else {
      SecondRequest(size, pool, cache, rows, slots, k, b, sb, n - 1);
      NextRow(size, pool, cache, Insert(size, pool, cache, rows, slots, k), rows, slots, k, b, sb, n);
    }
  }

  lemma InsertNone<Entry, Record>(size: Pos, pool: seq<Entry> -> Record, cache: seq<Record>, rows: seq<Entry>,
                                  slots: seq<int>)
    requires |rows| == |slots| && forall i :: 0 <= i < |slots| ==> slots[i] < |cache|
    ensures Insert(size, pool, cache, rows, slots, 0) == cache
  {
  }

  lemma NextRow<Entry, Record>(size: Pos, pool: seq<Entry> -> Record, cache: seq<Record>, middle: seq<Record>,
                               rows: seq<Entry>, slots: seq<int>, k: nat, b: seq<Entry>, sb: seq<int>, n: nat)
    requires k <= |rows| == |slots| && b == rows[k..] && sb == slots[k..] && 0 < n <= |b| && Aligned(size, sb)
    requires |middle| == |cache|
    requires forall i :: 0 <= i < |slots| ==> slots[i] < |cache|
    requires Insert(size, pool, cache, rows, slots, k + n - 1) == Insert(size, pool, middle, b, sb, n - 1)
    ensures Insert(size, pool, cache, rows, slots, k + n) == Insert(size, pool, middle, b, sb, n)
  {
    hide *;
    InsertRow(size, pool, cache, rows, slots, k + n - 1);
    InsertRow(size, pool, middle, b, sb, n - 1);
    SameRow(size, rows, slots, k, b, sb, n);
  }

  /** A row of the second request has the same window in the batch as on its own. */
  lemma SameRow<Entry>(size: Pos, rows: seq<Entry>, slots: seq<int>, k: nat, b: seq<Entry>, sb: seq<int>, n: nat)
    requires k <= |rows| == |slots| && b == rows[k..] && sb == slots[k..] && 0 < n <= |b| && Aligned(size, sb)
    ensures slots[k + n - 1] == sb[n - 1]
    ensures sb[n - 1] >= 0 ==> n >= size && rows[k + n - size..k + n] == b[n - size..n]
  {
    if sb[n - 1] >= 0 { LastInPool(n - 1, size); }
  }

  lemma InsertRow<Entry, Record>(size: Pos, pool: seq<Entry> -> Record, cache: seq<Record>, rows: seq<Entry>,
                                 slots: seq<int>, n: nat)
    requires n < |rows| == |slots| && forall i :: 0 <= i < |slots| ==> slots[i] < |cache|
    ensures var before := Insert(size, pool, cache, rows, slots, n);
            Insert(size, pool, cache, rows, slots, n + 1) ==
              if slots[n] >= 0 && n + 1 >= size then before[slots[n] := pool(rows[n + 1 - size..n + 1])] else before
  {
  }

  lemma {:induction false} InsertPrefix<Entry, Record>(size: Pos, pool: seq<Entry> -> Record, cache: seq<Record>,
                                                       a: seq<Entry>, sa: seq<int>, b: seq<Entry>, sb: seq<int>, n: nat)
    requires n <= |a| == |sa| && |b| == |sb|
    requires forall i :: 0 <= i < |sa| ==> sa[i] < |cache|
    requires forall i :: 0 <= i < |sb| ==> sb[i] < |cache|
    ensures Insert(size, pool, cache, a + b, sa + sb, n) == Insert(size, pool, cache, a, sa, n)
  {
    if n > 0 {
      InsertPrefix(size, pool, cache, a, sa, b, sb, n - 1);
      assert (sa + sb)[n - 1] == sa[n - 1];
      if n >= size { assert (a + b)[n - size..n] == a[n - size..n]; }
    }
  }

  // ---------------------------------------------------------------- sharded ranks

  /** The slots one rank stores, as the mapping kernel assigns them from a request's block row. */
  ghost function RankLoc(g: Shards, rank: nat, row: seq<nat>, start: int): int {
    if start < 0 || start % g.ratio != 0 then -1
    else
      var p := g.Pool(start);
      if g.Owner(p) == rank && g.Block(p) < |row| then row[g.Block(p)] * g.block + g.Offset(p) else -1
  }

  ghost function RankLayout<Entry, Record>(g: Shards, rank: nat, row: seq<nat>,
                                           pool: seq<Entry> -> Record): Layout<Entry, Record> {
    Layout(g.ratio, pool, start => RankLoc(g, rank, row, start))
  }

  lemma RankLocInjective(g: Shards, rank: nat, row: seq<nat>, a: nat, b: nat)
    requires forall i, j :: 0 <= i < j < |row| ==> row[i] != row[j]
    requires a < b && RankLoc(g, rank, row, a) >= 0
    ensures RankLoc(g, rank, row, a) != RankLoc(g, rank, row, b)
  {
    if RankLoc(g, rank, row, b) >= 0 {
      var p, q := g.Pool(a), g.Pool(b);
      CellOfPool(g, p);
      CellOfPool(g, q);
      AlignDown(a, g.ratio);
      AlignDown(b, g.ratio);
      if RankLoc(g, rank, row, a) == RankLoc(g, rank, row, b) {
        DivModUnique(RankLoc(g, rank, row, a), g.block, row[g.Block(p)], g.Offset(p));
        DivModUnique(RankLoc(g, rank, row, b), g.block, row[g.Block(q)], g.Offset(q));
      }
    }
  }

  lemma RankLocInRange(g: Shards, rank: nat, row: seq<nat>, blocks: nat, start: nat)
    requires forall i :: 0 <= i < |row| ==> row[i] < blocks
    ensures RankLoc(g, rank, row, start) < blocks * g.block
  {
    MulMono(0, blocks, g.block);
    if RankLoc(g, rank, row, start) >= 0 {
      CellOfPool(g, g.Pool(start));
      MulGap(row[g.Block(g.Pool(start))], blocks, g.block);
    }
  }

  ghost predicate BlocksOk(row: seq<nat>, blocks: nat) {
    && (forall i :: 0 <= i < |row| ==> row[i] < blocks)
    && Distinct(row)
  }

  /** A rank's slots form a legal layout over its blocks. */
  lemma RankLayoutOk<Entry, Record>(g: Shards, rank: nat, row: seq<nat>, blocks: nat, pool: seq<Entry> -> Record,
                                    slots: nat)
    requires BlocksOk(row, blocks) && slots == blocks * g.block
    ensures LayoutOk(RankLayout(g, rank, row, pool), slots)
  {
    hide RankLoc;
    var l := RankLayout(g, rank, row, pool);
    forall start | 0 <= start ensures l.loc(start) < slots { RankLocInRange(g, rank, row, blocks, start); }
    forall a, b | 0 <= a < b && 0 <= l.loc(a) ensures l.loc(a) != l.loc(b) { RankLocInjective(g, rank, row, a, b); }
  }

  /** The decode kernel writes a completed pool at the slot the mapping kernel computed. */
  lemma MapperAgrees<Entry, Record>(g: Shards, rank: nat, row: seq<nat>, pool: seq<Entry> -> Record, position: nat)
    requires RowReaches(g, rank, row, position)
    ensures SlotOf(RankLayout(g, rank, row, pool), position) == SlotAt(g, rank, row, position)
  {
    LastInPool(position, g.ratio);
    if Complete(g, position) {
      var q := position / g.ratio;
      assert position == q * g.ratio + g.ratio - 1;
      DivModUnique(position + 1 - g.ratio, g.ratio, q, 0);
    }
  }

  lemma OwnerHasPlace(g: Shards, rank: nat, row: seq<nat>, start: nat)
    requires start % g.ratio == 0 && g.Block(g.Pool(start)) < |row|
    ensures RankLoc(g, rank, row, start) >= 0 <==> rank == g.Owner(g.Pool(start))
  {
    MulMono(0, row[g.Block(g.Pool(start))], g.block);
  }

  /** Across ranks: after a safe run fed to every rank, each committed pool is right on its owner, and
      no other rank stores it. */
  lemma ShardedPoolsRight<Entry, Record>(g: Shards, rank: nat, row: seq<nat>, l: Layout<Entry, Record>,
                                         s: Solo<Entry, Record>, events: seq<Event<Entry>>, n: nat, start: nat)
    requires l == RankLayout(g, rank, row, l.pool) && SoloOk(l, s)
    requires n <= |events| && LegalRun(l.size, events, n) && forall i :: 0 <= i < n ==> SafeAt(l.size, events, i)
    requires start % l.size == 0 && start + l.size <= |Committed(events, n)| && g.Block(g.Pool(start)) < |row|
    ensures l.loc(start) >= 0 <==> rank == g.Owner(g.Pool(start))
    ensures l.loc(start) >= 0 ==>
              Exec(l, s, events, n).solo.cache[l.loc(start)] == l.pool(Committed(events, n)[start..start + l.size])
  {
    assert LayoutOk(l, |s.cache|) && l.size == g.ratio && l.loc(start) == RankLoc(g, rank, row, start);
    OwnerHasPlace(g, rank, row, start);
    hide *;
    CommittedPoolsRight(l, s, events, n);
    RightThere(l, Exec(l, s, events, n).solo.cache, Committed(events, n), start);
  }

  lemma RightThere<Entry, Record>(l: Layout<Entry, Record>, cache: seq<Record>, h: seq<Entry>, start: nat)
    requires LayoutOk(l, |cache|) && PoolRight(l, cache, h, start) && start + l.size <= |h|
    ensures l.loc(start) < |cache|
    ensures l.loc(start) >= 0 ==> cache[l.loc(start)] == l.pool(h[start..start + l.size])
  {
  }
}
