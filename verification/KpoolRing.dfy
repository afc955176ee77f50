/** The indexer's pooled key cache and its tail rings, as the decode and prefill kernels update them.
    An `Entry` is one token's raw key and gate score; a `Record` is one compressed pool in the cache.
    Pooling, rotation and quantisation of one window are the single function `pool`. */
module KpoolRing {
  import opened Arith

  /** One lane of the decode grid: padding lanes carry -1 in their position and slots. */
  datatype Token<Entry> = Token(entry: Entry, position: int, tailSlot: int, cacheSlot: int)

  /** The two shared buffers: one ring of `pool size` entries per tail block, and the record slots. */
  datatype Store<Entry, Record> = Store(rings: seq<seq<Entry>>, cache: seq<Record>)

  ghost predicate StoreOk<Entry, Record>(size: Pos, s: Store<Entry, Record>) {
    forall b :: 0 <= b < |s.rings| ==> |s.rings[b]| == size
  }

  /** The slots of a token lie inside the buffers whenever the kernel uses them. */
  ghost predicate TokenOk<Entry>(size: Pos, blocks: nat, slots: nat, t: Token<Entry>) {
    && (t.position >= 0 && t.tailSlot >= 0 ==> t.tailSlot / size < blocks)
    && t.cacheSlot < slots
  }

  ghost predicate TokensOk<Entry>(size: Pos, blocks: nat, slots: nat, ts: seq<Token<Entry>>) {
    forall i :: 0 <= i < |ts| ==> TokenOk(size, blocks, slots, ts[i])
  }

  /** What one token does: complete a pool from the ring before overwriting the token's own slot. */
  ghost function Step<Entry, Record>(size: Pos, pool: seq<Entry> -> Record,
                                     s: Store<Entry, Record>, t: Token<Entry>): (r: Store<Entry, Record>)
    requires StoreOk(size, s) && TokenOk(size, |s.rings|, |s.cache|, t)
    ensures StoreOk(size, r) && |r.rings| == |s.rings| && |r.cache| == |s.cache|
  {
    if t.position < 0 || t.tailSlot < 0 then s
    else
      var slot := t.position % size;
      var block := t.tailSlot / size;
      var ring := s.rings[block];
      var cache := if t.cacheSlot >= 0 && slot == size - 1
                   then s.cache[t.cacheSlot := pool(ring[..size - 1] + [t.entry])]
                   else s.cache;
      Store(s.rings[block := ring[slot := t.entry]], cache)
  }

  /** Entry by entry: a live token takes its own ring slot and nothing else in the rings; the record it names is
      written only at the end of a pool, from the pool's older entries as they were and the token itself. */
  lemma StepIs<Entry, Record>(size: Pos, pool: seq<Entry> -> Record, s: Store<Entry, Record>, t: Token<Entry>,
                              window: seq<Entry>)
    requires StoreOk(size, s) && TokenOk(size, |s.rings|, |s.cache|, t)
    requires t.position >= 0 && t.tailSlot >= 0 ==>
               && |window| == size && window[size - 1] == t.entry
               && forall j :: 0 <= j < size - 1 ==> window[j] == s.rings[t.tailSlot / size][j]
    ensures var live, r := t.position >= 0 && t.tailSlot >= 0, Step(size, pool, s, t);
            && (forall b, j :: 0 <= b < |s.rings| && 0 <= j < size ==>
                  r.rings[b][j] == if live && b == t.tailSlot / size && j == t.position % size then t.entry
                                   else s.rings[b][j])
            && (forall i :: 0 <= i < |s.cache| ==>
                  r.cache[i] == if live && i == t.cacheSlot && t.position % size == size - 1 then pool(window)
                                else s.cache[i])
  {
    if t.position >= 0 && t.tailSlot >= 0 {
      assert s.rings[t.tailSlot / size][..size - 1] + [t.entry] == window;
    }
  }

  /** The first `n` tokens of `ts`. */
  ghost function Steps<Entry, Record>(size: Pos, pool: seq<Entry> -> Record,
                                      s: Store<Entry, Record>, ts: seq<Token<Entry>>, n: nat): (r: Store<Entry, Record>)
    requires StoreOk(size, s) && TokensOk(size, |s.rings|, |s.cache|, ts) && n <= |ts|
    ensures StoreOk(size, r) && |r.rings| == |s.rings| && |r.cache| == |s.cache|
  {
    if n == 0 then s else Step(size, pool, Steps(size, pool, s, ts, n - 1), ts[n - 1])
  }

  /** Windowed prefill: row `i` writes the pool of rows `i - size + 1 .. i` at its slot, if it has one. */
  ghost function Insert<Entry, Record>(size: Pos, pool: seq<Entry> -> Record, cache: seq<Record>,
                                       rows: seq<Entry>, slots: seq<int>, upto: nat): (r: seq<Record>)
    requires upto <= |rows| == |slots|
    requires forall i :: 0 <= i < |slots| ==> slots[i] < |cache|
    ensures |r| == |cache|
  {
    if upto == 0 then cache
    else
      var before := Insert(size, pool, cache, rows, slots, upto - 1);
      if slots[upto - 1] >= 0 && upto >= size
      then before[slots[upto - 1] := pool(rows[upto - size..upto])]
      else before
  }

  class IndexCache<Entry(0), Record> {
    const size: Pos
    const pool: seq<Entry> -> Record
    const tail: array2<Entry>
    const cache: array<Record>

    ghost predicate Valid() {
      tail.Length1 == size
    }

    ghost function Contents(): (s: Store<Entry, Record>)
      requires Valid()
      reads tail, cache
      ensures StoreOk(size, s) && |s.rings| == tail.Length0 && |s.cache| == cache.Length
    {
      Store(seq(tail.Length0, b requires 0 <= b < tail.Length0 reads tail =>
                              seq(tail.Length1, j requires 0 <= j < tail.Length1 reads tail => tail[b, j])),
            cache[..])
    }

    constructor (size: Pos, pool: seq<Entry> -> Record, tail: array2<Entry>, cache: array<Record>)
      requires tail.Length1 == size
      ensures Valid() && this.size == size && this.pool == pool && this.tail == tail && this.cache == cache
    {
      this.size, this.pool, this.tail, this.cache := size, pool, tail, cache;
    }

    /** Gathers a completed pool by ring address, taking the current token from registers. */
    method GatherWindow(block: nat, position: nat, entry: Entry) returns (window: seq<Entry>)
      requires Valid() && block < tail.Length0 && position % size == size - 1
      ensures window == Contents().rings[block][..size - 1] + [entry]
    {
      window := [];
      var ringSlot := position % size;
      var logicalStart := position - ringSlot;
      AlignDown(position, size);
      for poolSlot := 0 to size
        invariant |window| == poolSlot
        invariant forall j :: 0 <= j < poolSlot ==> window[j] == if j == size - 1 then entry else tail[block, j]
      {
        AlignedOffset(logicalStart, size, poolSlot);
        var physical := (logicalStart + poolSlot) % size;
        window := window + [if poolSlot == ringSlot then entry else tail[block, physical]];
      }
      assert |Contents().rings[block]| == size;
      assert forall j :: 0 <= j < size - 1 ==> Contents().rings[block][j] == tail[block, j];
    }

    /** The ordered decode updater for one request's lanes. */
    method DecodeUpdate(tokens: seq<Token<Entry>>)
      requires Valid() && TokensOk(size, tail.Length0, cache.Length, tokens)
      modifies tail, cache
      ensures Contents() == Steps(size, pool, old(Contents()), tokens, |tokens|)
    {
      for i := 0 to |tokens|
        invariant Contents() == Steps(size, pool, old(Contents()), tokens, i)
      {
        UpdateToken(tokens[i]);
      }
    }

    method UpdateToken(t: Token<Entry>)
      requires Valid() && TokenOk(size, tail.Length0, cache.Length, t)
      modifies tail, cache
      ensures Contents() == Step(size, pool, old(Contents()), t)
    {
      var validTail := t.position >= 0 && t.tailSlot >= 0;
      var safePosition := if t.position > 0 then t.position else 0;
      var ringSlot := safePosition % size;
      var block := (if t.tailSlot > 0 then t.tailSlot else 0) / size;
      if validTail && t.cacheSlot >= 0 && ringSlot == size - 1 {
        var window := GatherWindow(block, safePosition, t.entry);
        cache[t.cacheSlot] := pool(window);
      }
      if validTail {
        tail[block, ringSlot] := t.entry;
      }
      ghost var was, now := old(Contents()), Step(size, pool, old(Contents()), t);
      forall b | 0 <= b < |now.rings|
        ensures Contents().rings[b] == now.rings[b]
      {
        assert forall j :: 0 <= j < size ==> was.rings[b][j] == old(tail[b, j]);
      }
    }

    /** Prefill insertion over one flat batch of rows; short batches cannot complete a pool. */
    method PrefillInsert(rows: seq<Entry>, slots: seq<int>)
      requires Valid() && |rows| == |slots|
      requires forall i :: 0 <= i < |slots| ==> slots[i] < cache.Length
      modifies cache
      ensures cache[..] == Insert(size, pool, old(cache[..]), rows, slots, |rows|)
    {
      if |rows| < size {
        ShortInsert(size, pool, cache[..], rows, slots, |rows|);
        return;
      }
      for i := 0 to |rows|
        invariant cache[..] == Insert(size, pool, old(cache[..]), rows, slots, i)
      {
        if slots[i] >= 0 && i >= size - 1 {
          var start := if i - (size - 1) > 0 then i - (size - 1) else 0;
          cache[slots[i]] := pool(rows[start..start + size]);
        }
      }
    }
  }

  lemma {:induction false} ShortInsert<Entry, Record>(size: Pos, pool: seq<Entry> -> Record, cache: seq<Record>,
                                                      rows: seq<Entry>, slots: seq<int>, upto: nat)
    requires upto <= |rows| == |slots| && |rows| < size
    requires forall i :: 0 <= i < |slots| ==> slots[i] < |cache|
    ensures Insert(size, pool, cache, rows, slots, upto) == cache
  {
    if upto > 0 { ShortInsert(size, pool, cache, rows, slots, upto - 1); }
  }
}
