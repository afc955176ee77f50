/** Whole runs of one request over its tail ring and its pool slots: prefill chunks, then speculative
    verification steps whose rejected suffix is rolled back by rewinding the position only. */
module KpoolRuns {
  import opened Arith
  import opened KpoolRing

  /** Pools are named by their first position. `loc(start)` is the record slot of the pool at `start` on
      this rank, or negative when another rank owns it. */
  datatype Layout<!Entry, Record> = Layout(size: Pos, pool: seq<Entry> -> Record, loc: int -> int)

  datatype Solo<Entry, Record> = Solo(ring: seq<Entry>, cache: seq<Record>)

  /** A verification step commits the first `accepted` of its draft tokens; prefill commits its chunk. */
  datatype Event<Entry> = Prefill(chunk: seq<Entry>) | Verify(draft: seq<Entry>, accepted: nat)
  {
    function Fed(): seq<Entry> { match this case Prefill(c) => c case Verify(d, _) => d }
    function Taken(): nat { match this case Prefill(c) => |c| case Verify(_, a) => a }
    function Kept(): seq<Entry> { if Taken() <= |Fed()| then Fed()[..Taken()] else Fed() }
  }

  datatype Run<Entry, Record> = Run(solo: Solo<Entry, Record>, committed: seq<Entry>)

  ghost predicate LayoutOk<Entry, Record>(l: Layout<Entry, Record>, slots: nat) {
    && (forall start :: 0 <= start ==> l.loc(start) < slots)
    && (forall a, b :: 0 <= a < b && 0 <= l.loc(a) ==> l.loc(a) != l.loc(b))
  }

  ghost predicate SoloOk<Entry, Record>(l: Layout<Entry, Record>, s: Solo<Entry, Record>) {
    |s.ring| == l.size && LayoutOk(l, |s.cache|)
  }

  /** Only the last token of a pool carries a slot. */
  ghost function SlotOf<Entry, Record>(l: Layout<Entry, Record>, position: nat): (slot: int)
    ensures forall slots: nat :: LayoutOk(l, slots) ==> slot < slots
  {
    LastInPool(position, l.size);
    if (position + 1) % l.size == 0 then l.loc(position + 1 - l.size) else -1
  }

  /** One decoded token at `position`. */
  ghost function Feed<Entry, Record>(l: Layout<Entry, Record>, s: Solo<Entry, Record>,
                                     position: nat, e: Entry): (r: Solo<Entry, Record>)
    requires SoloOk(l, s)
    ensures SoloOk(l, r) && |r.cache| == |s.cache|
  {
    var slot, target := position % l.size, SlotOf(l, position);
    var cache := if target >= 0 && slot == l.size - 1
                 then s.cache[target := l.pool(s.ring[..l.size - 1] + [e])]
                 else s.cache;
    Solo(s.ring[slot := e], cache)
  }

  /** Positions `c .. n - 1` of the history `h`, in order. */
  ghost function FeedTo<Entry, Record>(l: Layout<Entry, Record>, s: Solo<Entry, Record>,
                                       h: seq<Entry>, c: nat, n: nat): (r: Solo<Entry, Record>)
    requires SoloOk(l, s) && c <= n <= |h|
    ensures SoloOk(l, r) && |r.cache| == |s.cache|
  {
    if n == c then s else Feed(l, FeedTo(l, s, h, c, n - 1), n - 1, h[n - 1])
  }

  /** The contract of the tail seeding that follows a pool-aligned prefill chunk: ring slot `j`
      receives the last chunk token whose position is `j` modulo the pool size, if there is one. */
  ghost function SeedTail<Entry>(size: Pos, ring: seq<Entry>, chunk: seq<Entry>): (r: seq<Entry>)
    requires |ring| == size
    ensures |r| == size
  {
    seq(size, j requires 0 <= j < size =>
      var i := |chunk| - 1 - (|chunk| - 1 - j) % size;
      if 0 <= i then chunk[i] else ring[j])
  }

  ghost function ChunkSlots<Entry, Record>(l: Layout<Entry, Record>, slots: nat, c: nat, n: nat): (r: seq<int>)
    requires LayoutOk(l, slots)
    ensures |r| == n
    ensures forall i :: 0 <= i < n ==> r[i] < slots
  {
    if n == 0 then [] else ChunkSlots(l, slots, c, n - 1) + [SlotOf(l, c + n - 1)]
  }

  ghost predicate Legal<Entry>(size: Pos, committed: seq<Entry>, ev: Event<Entry>) {
    match ev
    case Prefill(_) => |committed| % size == 0
    case Verify(draft, accepted) => accepted <= |draft|
  }

  ghost function Apply<Entry, Record>(l: Layout<Entry, Record>, r: Run<Entry, Record>,
                                      ev: Event<Entry>): (r': Run<Entry, Record>)
    requires SoloOk(l, r.solo) && Legal(l.size, r.committed, ev)
    ensures SoloOk(l, r'.solo) && |r'.solo.cache| == |r.solo.cache|
    ensures r'.committed == r.committed + ev.Kept()
  {
    var c := |r.committed|;
    match ev
    case Prefill(chunk) =>
      assert chunk[..|chunk|] == chunk;
      Run(Solo(SeedTail(l.size, r.solo.ring, chunk),
               Insert(l.size, l.pool, r.solo.cache, chunk, ChunkSlots(l, |r.solo.cache|, c, |chunk|), |chunk|)),
          r.committed + chunk)
    case Verify(draft, accepted) =>
      Run(FeedTo(l, r.solo, r.committed + draft, c, c + |draft|), r.committed + draft[..accepted])
  }

  /** What the first `n` events commit. */
  ghost function Committed<Entry>(events: seq<Event<Entry>>, n: nat): seq<Entry>
    requires n <= |events|
  {
    if n == 0 then [] else Committed(events, n - 1) + events[n - 1].Kept()
  }

  ghost predicate LegalRun<Entry>(size: Pos, events: seq<Event<Entry>>, n: nat)
    requires n <= |events|
  {
    n == 0 || (LegalRun(size, events, n - 1) && Legal(size, Committed(events, n - 1), events[n - 1]))
  }

  ghost function Exec<Entry, Record>(l: Layout<Entry, Record>, s: Solo<Entry, Record>,
                                     events: seq<Event<Entry>>, n: nat): (r: Run<Entry, Record>)
    requires SoloOk(l, s) && n <= |events| && LegalRun(l.size, events, n)
    ensures SoloOk(l, r.solo) && |r.solo.cache| == |s.cache| && r.committed == Committed(events, n)
  {
    if n == 0 then Run(s, []) else Apply(l, Exec(l, s, events, n - 1), events[n - 1])
  }

  // ---------------------------------------------------------------- what must hold of a state

  /** The pool at `start`, if it lies in `h` and is stored here, is the pooling of its own tokens. */
  ghost predicate PoolRight<Entry, Record>(l: Layout<Entry, Record>, cache: seq<Record>, h: seq<Entry>, start: nat)
    requires LayoutOk(l, |cache|)
  {
    start + l.size <= |h| && l.loc(start) >= 0 ==> cache[l.loc(start)] == l.pool(h[start..start + l.size])
  }

  /** Ring slots hold the tokens of `h` before `n`, back to position `from` and one pool at most. */
  ghost predicate Recent<Entry>(size: Pos, ring: seq<Entry>, h: seq<Entry>, from: nat, n: nat)
    requires |ring| == size && n <= |h|
  {
    forall q :: from <= q < n && n - size <= q ==> ring[q % size] == h[q]
  }

  /** The rollback guard: the new position opens a pool, or the verified window stayed in its pool. */
  ghost predicate Safe(size: Pos, c: nat, width: nat, taken: nat) {
    var end := c + taken;
    end % size == 0 || c + width <= end - end % size + size
  }

  ghost predicate SafeAt<Entry>(size: Pos, events: seq<Event<Entry>>, i: nat)
    requires i < |events|
  {
    Safe(size, |Committed(events, i)|, |events[i].Fed()|, events[i].Taken())
  }

  /** Event `i` rolled back into the interior of the pool at `start` after its window ran past that pool. */
  ghost predicate Spoils<Entry>(size: Pos, events: seq<Event<Entry>>, i: nat, start: nat)
    requires i < |events|
  {
    var c := |Committed(events, i)|;
    start < c + events[i].Taken() < start + size < c + |events[i].Fed()|
  }

  lemma SpoilsIff<Entry>(size: Pos, events: seq<Event<Entry>>, i: nat, start: nat)
    requires i < |events| && start % size == 0
    ensures Spoils(size, events, i, start) <==>
              start < |Committed(events, i)| + events[i].Taken() < start + size && !SafeAt(size, events, i)
  {
    hide Safe, Committed, Event.Fed, Event.Taken;
    var c, width, taken := |Committed(events, i)|, |events[i].Fed()|, events[i].Taken();
    if start < c + taken < start + size { SafeInside(size, c, width, taken, start); }
  }

  lemma SafeInside(size: Pos, c: nat, width: nat, taken: nat, start: nat)
    requires start % size == 0 && start < c + taken < start + size
    ensures Safe(size, c, width, taken) <==> c + width <= start + size
  {
    AlignedOffset(start, size, c + taken - start);
  }

  /** The guard is met exactly by the events that spoil no pool. */
  lemma SafeIffNothingSpoilt<Entry>(size: Pos, events: seq<Event<Entry>>, i: nat)
    requires i < |events|
    ensures SafeAt(size, events, i) <==> forall start: nat :: start % size == 0 ==> !Spoils(size, events, i, start)
  {
    var end := |Committed(events, i)| + events[i].Taken();
    var at := end - end % size;
    AlignDown(end, size);
    SpoilsIff(size, events, i, at);
    forall start: nat | start % size == 0 && SafeAt(size, events, i)
      ensures !Spoils(size, events, i, start)
    {
      SpoilsIff(size, events, i, start);
    }
  }

  // ---------------------------------------------------------------- feeding a window

  /** The two tests for a completing token agree: the mapper's and the decode kernel's. */
  lemma LastInPool(n: nat, size: Pos)
    ensures (n + 1) % size == 0 <==> n % size == size - 1
    ensures (n + 1) % size == 0 ==> n + 1 >= size && (n + 1 - size) % size == 0
  {
    var q, r := n / size, n % size;
    assert n == q * size + r;
    if r == size - 1 {
      DivMono(0, n, size);
      assert (q + 1) * size == q * size + size;
      DivModUnique(n + 1, size, q + 1, 0);
      DivModUnique(n + 1 - size, size, q, 0);
      MulMono(0, q, size);
    } else {
      DivModUnique(n + 1, size, q, r + 1);
    }
  }

  lemma FeedRecent<Entry, Record>(l: Layout<Entry, Record>, s: Solo<Entry, Record>, h: seq<Entry>, from: nat, n: nat)
    requires SoloOk(l, s) && n < |h| && Recent(l.size, s.ring, h, from, n)
    ensures Recent(l.size, Feed(l, s, n, h[n]).ring, h, from, n + 1)
  {
    var ring := Feed(l, s, n, h[n]).ring;
    forall q | from <= q < n + 1 && n + 1 - l.size <= q ensures ring[q % l.size] == h[q] {
      if q < n { ModApart(q, n, l.size); }
    }
  }

  lemma {:induction false} FeedToRecent<Entry, Record>(l: Layout<Entry, Record>, s: Solo<Entry, Record>, h: seq<Entry>,
                                                       from: nat, c: nat, n: nat)
    requires SoloOk(l, s) && c <= n <= |h| && Recent(l.size, s.ring, h, from, c)
    ensures Recent(l.size, FeedTo(l, s, h, c, n).ring, h, from, n)
  {
    if c < n {
      FeedToRecent(l, s, h, from, c, n - 1);
      FeedRecent(l, FeedTo(l, s, h, c, n - 1), h, from, n - 1);
    }
  }

  /** A ring slot only ever holds what it held or a token of the window. */
  lemma {:induction false} SlotFromWindow<Entry, Record>(l: Layout<Entry, Record>, s: Solo<Entry, Record>,
                                                         h: seq<Entry>, c: nat, n: nat, j: nat)
    requires SoloOk(l, s) && c <= n <= |h| && j < l.size
    ensures var e := FeedTo(l, s, h, c, n).ring[j]; e == s.ring[j] || exists q :: c <= q < n && e == h[q]
  {
    if c < n { SlotFromWindow(l, s, h, c, n - 1, j); }
  }

  /** The record of a pool that ended before the window is untouched. */
  lemma {:induction false} FeedToFrame<Entry, Record>(l: Layout<Entry, Record>, s: Solo<Entry, Record>, h: seq<Entry>,
                                                      c: nat, n: nat, start: nat)
    requires SoloOk(l, s) && c <= n <= |h| && l.loc(start) >= 0 && start + l.size <= c
    ensures FeedTo(l, s, h, c, n).cache[l.loc(start)] == s.cache[l.loc(start)]
  {
    if c < n {
      FeedToFrame(l, s, h, c, n - 1, start);
      LastInPool(n - 1, l.size);
    }
  }

  lemma {:induction false} FeedToSplit<Entry, Record>(l: Layout<Entry, Record>, s: Solo<Entry, Record>, h: seq<Entry>,
                                                      c: nat, m: nat, n: nat)
    requires SoloOk(l, s) && c <= m <= n <= |h|
    ensures FeedTo(l, s, h, c, n) == FeedTo(l, FeedTo(l, s, h, c, m), h, m, n)
  {
    if m < n { FeedToSplit(l, s, h, c, m, n - 1); }
  }

  lemma FeedToSnoc<Entry, Record>(l: Layout<Entry, Record>, s: Solo<Entry, Record>, h: seq<Entry>, c: nat, n: nat)
    requires SoloOk(l, s) && c <= n < |h|
    ensures FeedTo(l, s, h, c, n + 1) == Feed(l, FeedTo(l, s, h, c, n), n, h[n])
  {
  }

  /** A completed pool's record is the pooling of the ring around the completing token, and it stays. */
  lemma CompletedRecord<Entry, Record>(l: Layout<Entry, Record>, s: Solo<Entry, Record>, h: seq<Entry>, c: nat, n: nat,
                                       start: nat)
    requires SoloOk(l, s) && c <= n <= |h| && l.loc(start) >= 0
    requires start % l.size == 0 && c < start + l.size <= n
    ensures FeedTo(l, s, h, c, n).cache[l.loc(start)]
         == l.pool(FeedTo(l, s, h, c, start + l.size - 1).ring[..l.size - 1] + [h[start + l.size - 1]])
  {
    hide FeedTo;
    var at := start + l.size - 1;
    FeedToSplit(l, s, h, c, at + 1, n);
    FeedToFrame(l, FeedTo(l, s, h, c, at + 1), h, at + 1, n, start);
    FeedToSnoc(l, s, h, c, at);
    AlignedOffset(start, l.size, l.size - 1);
    LastInPool(at, l.size);
  }

  lemma RingWindow<Entry>(size: Pos, ring: seq<Entry>, h: seq<Entry>, from: nat, start: nat)
    requires |ring| == size && start + size <= |h| && Recent(size, ring, h, from, start + size - 1)
    requires start % size == 0 && from <= start
    ensures ring[..size - 1] + [h[start + size - 1]] == h[start..start + size]
  {
    forall j | 0 <= j < size - 1 ensures ring[j] == h[start + j] {
      AlignedOffset(start, size, j);
      assert ring[(start + j) % size] == h[start + j];
    }
  }

  /** A window that finishes a pool pools committed and draft tokens together, given a ring that is
      right back to the start of the pool or of the window, whichever is later. */
  lemma FeedToPool<Entry, Record>(l: Layout<Entry, Record>, s: Solo<Entry, Record>, h: seq<Entry>, from: nat, c: nat,
                                  n: nat, start: nat)
    requires SoloOk(l, s) && c <= n <= |h| && Recent(l.size, s.ring, h, from, c) && l.loc(start) >= 0
    requires start % l.size == 0 && from <= start && c < start + l.size <= n
    ensures FeedTo(l, s, h, c, n).cache[l.loc(start)] == l.pool(h[start..start + l.size])
  {
    hide FeedTo;
    FeedToRecent(l, s, h, from, c, start + l.size - 1);
    CompletedRecord(l, s, h, c, n, start);
    RingWindow(l.size, FeedTo(l, s, h, c, start + l.size - 1).ring, h, from, start);
  }

  lemma WindowStart(a: nat, b: nat, size: Pos)
    requires a <= b
    ensures a - a % size <= b - b % size
  {
    DivMono(a, b, size);
    MulMono(a / size, b / size, size);
    AlignDown(a, size);
    AlignDown(b, size);
  }

  // ---------------------------------------------------------------- prefill writes what decode would

  lemma ShiftedMod(c: nat, n: nat, size: Pos)
    requires c % size == 0
    ensures (c + n) % size == n % size
  {
    assert n == (n / size) * size + n % size && c == (c / size) * size;
    assert (c / size + n / size) * size == (c / size) * size + (n / size) * size;
    DivModUnique(c + n, size, c / size + n / size, n % size);
  }

  lemma SeedSlot(n: nat, size: Pos, j: nat)
    requires j < size
    ensures n % size == j ==> n - (n - j) % size == n
    ensures n % size != j ==> n - (n - j) % size == n - 1 - (n - 1 - j) % size
  {
    var q, k := (n - j) / size, (n - j) % size;
    assert n - j == q * size + k;
    if k == 0 {
      DivModUnique(n, size, q, j);
    } else {
      DivModUnique(n - 1 - j, size, q, k - 1);
      if n % size == j {
        assert n == (n / size) * size + j;
        DivModUnique(n - j, size, n / size, 0);
      }
    }
  }

  lemma SeedSnoc<Entry>(size: Pos, ring: seq<Entry>, chunk: seq<Entry>, n: nat)
    requires |ring| == size && n < |chunk|
    ensures SeedTail(size, ring, chunk[..n + 1]) == SeedTail(size, ring, chunk[..n])[n % size := chunk[n]]
  {
    var now, was := SeedTail(size, ring, chunk[..n + 1]), SeedTail(size, ring, chunk[..n]);
    forall j | 0 <= j < size ensures now[j] == was[n % size := chunk[n]][j] {
      SeedSlot(n, size, j);
    }
  }

  /** A pool-aligned prefill chunk leaves exactly the ring that decoding it would... */
  lemma {:induction false} SeedIsDecode<Entry, Record>(l: Layout<Entry, Record>, s: Solo<Entry, Record>, h: seq<Entry>,
                                                       c: nat, chunk: seq<Entry>, n: nat)
    requires SoloOk(l, s) && c % l.size == 0 && n <= |chunk| && c <= |h| && chunk == h[c..]
    ensures SeedTail(l.size, s.ring, chunk[..n]) == FeedTo(l, s, h, c, c + n).ring
  {
    if n == 0 {
      forall j | 0 <= j < l.size ensures SeedTail(l.size, s.ring, chunk[..0])[j] == s.ring[j] {
        DivModUnique(-1 - j, l.size, -1, l.size - 1 - j);
      }
    } else {
      SeedIsDecode(l, s, h, c, chunk, n - 1);
      SeedSnoc(l.size, s.ring, chunk, n - 1);
      ShiftedMod(c, n - 1, l.size);
    }
  }

  ghost predicate SlotsFrom<Entry, Record>(l: Layout<Entry, Record>, slots: seq<int>, bound: nat, c: nat) {
    forall i {:trigger slots[i]} :: 0 <= i < |slots| ==> slots[i] < bound && slots[i] == SlotOf(l, c + i)
  }

  /** ... and exactly the records: a row with a slot has its whole window in the chunk. */
  lemma {:induction false} InsertIsDecode<Entry, Record>(l: Layout<Entry, Record>, s: Solo<Entry, Record>,
                                                         h: seq<Entry>, c: nat, chunk: seq<Entry>, slots: seq<int>,
                                                         n: nat)
    requires SoloOk(l, s) && c % l.size == 0 && n <= |chunk| == |slots| && c <= |h| && chunk == h[c..]
    requires SlotsFrom(l, slots, |s.cache|, c)
    ensures Insert(l.size, l.pool, s.cache, chunk, slots, n) == FeedTo(l, s, h, c, c + n).cache
  {
    if n > 0 {
      InsertIsDecode(l, s, h, c, chunk, slots, n - 1);
      FeedToSnoc(l, s, h, c, c + n - 1);
      assert slots[n - 1] == SlotOf(l, c + n - 1);
      RowIsToken(l, s, h, c, chunk, n);
    }
  }

  lemma RowIsToken<Entry, Record>(l: Layout<Entry, Record>, s: Solo<Entry, Record>, h: seq<Entry>, c: nat,
                                  chunk: seq<Entry>, n: nat)
    requires SoloOk(l, s) && c % l.size == 0 && 0 < n <= |chunk| && c <= |h| && chunk == h[c..]
    ensures var mid, slot := FeedTo(l, s, h, c, c + n - 1), SlotOf(l, c + n - 1);
            && (slot >= 0 ==> n >= l.size)
            && Feed(l, mid, c + n - 1, h[c + n - 1]).cache ==
                 if slot >= 0 then mid.cache[slot := l.pool(chunk[n - l.size..n])] else mid.cache
  {
    hide FeedTo;
    if SlotOf(l, c + n - 1) >= 0 { RowWindow(l, s, h, c, chunk, n); }
  }

  lemma RowWindow<Entry, Record>(l: Layout<Entry, Record>, s: Solo<Entry, Record>, h: seq<Entry>, c: nat,
                                 chunk: seq<Entry>, n: nat)
    requires SoloOk(l, s) && c % l.size == 0 && 0 < n <= |chunk| && c <= |h| && chunk == h[c..]
    requires SlotOf(l, c + n - 1) >= 0
    ensures n >= l.size && (c + n - 1) % l.size == l.size - 1
    ensures FeedTo(l, s, h, c, c + n - 1).ring[..l.size - 1] + [h[c + n - 1]] == chunk[n - l.size..n]
  {
    hide *;
    SlotAtPoolEnd(l, c + n - 1);
    RingSizes(l, s, h, c, c + n - 1);
    RowEndsPool(c, n, l.size);
    FeedToRecent(l, s, h, c, c, c + n - 1);
    RingWindow(l.size, FeedTo(l, s, h, c, c + n - 1).ring, h, c, c + n - l.size);
    ChunkWindow(h, c, chunk, n, l.size);
  }

  lemma RingSizes<Entry, Record>(l: Layout<Entry, Record>, s: Solo<Entry, Record>, h: seq<Entry>, c: nat, n: nat)
    requires SoloOk(l, s) && c <= n <= |h|
    ensures |FeedTo(l, s, h, c, n).ring| == l.size == |s.ring| && Recent(l.size, s.ring, h, c, c)
  {
    hide FeedTo;
  }

  lemma SlotAtPoolEnd<Entry, Record>(l: Layout<Entry, Record>, position: nat)
    requires SlotOf(l, position) >= 0
    ensures (position + 1) % l.size == 0
  {
  }

  /** The arithmetic of a chunk row that ends a pool, in a chunk that starts on a pool boundary. */
  lemma RowEndsPool(c: nat, n: nat, size: Pos)
    requires c % size == 0 && n > 0 && (c + n) % size == 0
    ensures n >= size && (c + n - 1) % size == size - 1 && (c + n - size) % size == 0
  {
    LastInPool(c + n - 1, size);
    ShiftedMod(c, n, size);
    LastInPool(n - 1, size);
  }

  lemma ChunkWindow<Entry>(h: seq<Entry>, c: nat, chunk: seq<Entry>, n: nat, size: nat)
    requires c <= |h| && chunk == h[c..] && size <= n <= |chunk|
    ensures h[c + n - size..c + n] == chunk[n - size..n]
  {
  }

  lemma {:induction false} ChunkSlotsAt<Entry, Record>(l: Layout<Entry, Record>, slots: nat, c: nat, n: nat)
    requires LayoutOk(l, slots)
    ensures SlotsFrom(l, ChunkSlots(l, slots, c, n), slots, c)
  {
    if n > 0 { ChunkSlotsAt(l, slots, c, n - 1); }
  }

  /** Both kinds of event feed their tokens in position order. */
  lemma ApplyIsFeed<Entry, Record>(l: Layout<Entry, Record>, r: Run<Entry, Record>, ev: Event<Entry>)
    requires SoloOk(l, r.solo) && Legal(l.size, r.committed, ev)
    ensures Apply(l, r, ev).solo
         == FeedTo(l, r.solo, r.committed + ev.Fed(), |r.committed|, |r.committed + ev.Fed()|)
  {
    if ev.Prefill? {
      PrefillIsFeed(l, r.solo, r.committed, ev.chunk);
    }
  }

  lemma PrefillIsFeed<Entry, Record>(l: Layout<Entry, Record>, s: Solo<Entry, Record>, committed: seq<Entry>,
                                     chunk: seq<Entry>)
    requires SoloOk(l, s) && |committed| % l.size == 0
    ensures Solo(SeedTail(l.size, s.ring, chunk),
                 Insert(l.size, l.pool, s.cache, chunk, ChunkSlots(l, |s.cache|, |committed|, |chunk|), |chunk|))
         == FeedTo(l, s, committed + chunk, |committed|, |committed + chunk|)
  {
    hide FeedTo;
    var c, n, h := |committed|, |chunk|, committed + chunk;
    assert h[c..] == chunk && chunk[..n] == chunk;
    SeedIsDecode(l, s, h, c, chunk, n);
    ChunkSlotsAt(l, |s.cache|, c, n);
    InsertIsDecode(l, s, h, c, chunk, ChunkSlots(l, |s.cache|, c, n), n);
  }

  // ---------------------------------------------------------------- runs, pool by pool

  /** What a run without a spoiling rollback keeps about one pool. */
  ghost predicate Tracked<Entry, Record>(l: Layout<Entry, Record>, r: Run<Entry, Record>, start: nat)
    requires SoloOk(l, r.solo)
  {
    && (start < |r.committed| < start + l.size ==> Recent(l.size, r.solo.ring, r.committed, start, |r.committed|))
    && PoolRight(l, r.solo.cache, r.committed, start)
  }

  /** The ring half of a step: the tokens of the pool before the new position are in their slots. */
  lemma TrackRing<Entry, Record>(l: Layout<Entry, Record>, s: Solo<Entry, Record>, h: seq<Entry>, c: nat, n: nat,
                                 start: nat)
    requires SoloOk(l, s) && c <= n <= |h| && start % l.size == 0 && start < n < start + l.size
    requires start < c ==> Recent(l.size, s.ring, h, start, c)
    requires Safe(l.size, c, |h| - c, n - c)
    ensures Recent(l.size, FeedTo(l, s, h, c, |h|).ring, h[..n], start, n)
  {
    hide FeedTo;
    AlignedOffset(start, l.size, n - start);
    FeedToRecent(l, s, h, if start < c then start else c, c, |h|);
  }

  /** The record half: a pool that the new prefix contains is the pooling of its tokens. */
  lemma TrackRecord<Entry, Record>(l: Layout<Entry, Record>, s: Solo<Entry, Record>, h: seq<Entry>, c: nat, n: nat,
                                   start: nat)
    requires SoloOk(l, s) && c <= n <= |h| && start % l.size == 0 && start + l.size <= n && l.loc(start) >= 0
    requires start < c < start + l.size ==> Recent(l.size, s.ring, h, start, c)
    requires start + l.size <= c ==> s.cache[l.loc(start)] == l.pool(h[start..start + l.size])
    ensures FeedTo(l, s, h, c, |h|).cache[l.loc(start)] == l.pool(h[start..start + l.size])
  {
    hide FeedTo;
    if start + l.size <= c {
      FeedToFrame(l, s, h, c, |h|, start);
    } else {
      FeedToPool(l, s, h, if start < c then start else c, c, |h|, start);
    }
  }

  /** A step as its effect on a history: everything fed, the first `n` tokens kept. */
  lemma AppliedRun<Entry, Record>(l: Layout<Entry, Record>, r: Run<Entry, Record>, ev: Event<Entry>)
    requires SoloOk(l, r.solo) && Legal(l.size, r.committed, ev) && ev.Taken() <= |ev.Fed()|
    ensures var h := r.committed + ev.Fed();
            && h[..|r.committed|] == r.committed
            && Apply(l, r, ev) == Run(FeedTo(l, r.solo, h, |r.committed|, |h|), h[..|r.committed| + ev.Taken()])
  {
    ApplyIsFeed(l, r, ev);
    hide FeedTo;
  }

  lemma Windows<Entry>(h: seq<Entry>, n: nat, start: nat, size: nat)
    requires start + size <= n <= |h|
    ensures h[..n][start..start + size] == h[start..start + size]
  {
  }

  lemma TrackFed<Entry, Record>(l: Layout<Entry, Record>, s: Solo<Entry, Record>, h: seq<Entry>, c: nat, n: nat,
                                start: nat)
    requires SoloOk(l, s) && c <= n <= |h| && start % l.size == 0 && Tracked(l, Run(s, h[..c]), start)
    requires start < n < start + l.size ==> Safe(l.size, c, |h| - c, n - c)
    ensures Tracked(l, Run(FeedTo(l, s, h, c, |h|), h[..n]), start)
  {
    hide FeedTo, Safe;
    if start < n < start + l.size {
      TrackRing(l, s, h, c, n, start);
    } else if start + l.size <= n && l.loc(start) >= 0 {
      Windows(h, n, start, l.size);
      if start + l.size <= c { Windows(h, c, start, l.size); }
      TrackRecord(l, s, h, c, n, start);
    }
  }

  lemma TrackStep<Entry, Record>(l: Layout<Entry, Record>, r: Run<Entry, Record>, ev: Event<Entry>, start: nat)
    requires SoloOk(l, r.solo) && Legal(l.size, r.committed, ev) && ev.Taken() <= |ev.Fed()|
    requires Tracked(l, r, start) && start % l.size == 0
    requires start < |r.committed| + ev.Taken() < start + l.size ==> Safe(l.size, |r.committed|, |ev.Fed()|, ev.Taken())
    ensures Tracked(l, Apply(l, r, ev), start)
  {
    hide *;
    AppliedRun(l, r, ev);
    assert r == Run(r.solo, r.committed);
    TrackFed(l, r.solo, r.committed + ev.Fed(), |r.committed|, |r.committed| + ev.Taken(), start);
  }

  /** Whatever was fed and rejected, a pool that no rollback spoiled is right once committed. */
  lemma {:induction false} UnspoiledTracked<Entry, Record>(l: Layout<Entry, Record>, s: Solo<Entry, Record>,
                                                           events: seq<Event<Entry>>, n: nat, start: nat)
    requires SoloOk(l, s) && start % l.size == 0 && n <= |events| && LegalRun(l.size, events, n)
    requires forall i :: 0 <= i < n ==> !Spoils(l.size, events, i, start)
    ensures Tracked(l, Exec(l, s, events, n), start)
  {
    hide Apply, FeedTo;
    if n > 0 {
      UnspoiledTracked(l, s, events, n - 1, start);
      SpoilsIff(l.size, events, n - 1, start);
      TrackStep(l, Exec(l, s, events, n - 1), events[n - 1], start);
    }
  }

  /** Safety over whole runs: when every step is safe, every stored pool lying in the committed prefix
      is the pooling of its committed tokens. */
  lemma CommittedPoolsRight<Entry, Record>(l: Layout<Entry, Record>, s: Solo<Entry, Record>, events: seq<Event<Entry>>,
                                           n: nat)
    requires SoloOk(l, s) && n <= |events| && LegalRun(l.size, events, n)
    requires forall i :: 0 <= i < n ==> SafeAt(l.size, events, i)
    ensures forall start: nat :: start % l.size == 0 ==>
              PoolRight(l, Exec(l, s, events, n).solo.cache, Committed(events, n), start)
  {
    forall start: nat | start % l.size == 0
      ensures PoolRight(l, Exec(l, s, events, n).solo.cache, Committed(events, n), start)
    {
      forall i | 0 <= i < n
        ensures !Spoils(l.size, events, i, start)
      {
        SpoilsIff(l.size, events, i, start);
      }
      UnspoiledTracked(l, s, events, n, start);
    }
  }

  /** However the same tokens were chunked, drafted and accepted, the stored pools agree. */
  lemma ChunkIndependence<Entry, Record>(l: Layout<Entry, Record>, s: Solo<Entry, Record>, s': Solo<Entry, Record>,
                                         events: seq<Event<Entry>>, events': seq<Event<Entry>>, start: nat)
    requires SoloOk(l, s) && SoloOk(l, s') && LegalRun(l.size, events, |events|) && LegalRun(l.size, events', |events'|)
    requires forall i :: 0 <= i < |events| ==> SafeAt(l.size, events, i)
    requires forall i :: 0 <= i < |events'| ==> SafeAt(l.size, events', i)
    requires Committed(events, |events|) == Committed(events', |events'|)
    requires start % l.size == 0 && start + l.size <= |Committed(events, |events|)| && l.loc(start) >= 0
    ensures Exec(l, s, events, |events|).solo.cache[l.loc(start)]
              == Exec(l, s', events', |events'|).solo.cache[l.loc(start)]
  {
    CommittedPoolsRight(l, s, events, |events|);
    CommittedPoolsRight(l, s', events', |events'|);
    assert PoolRight(l, Exec(l, s, events, |events|).solo.cache, Committed(events, |events|), start);
    assert PoolRight(l, Exec(l, s', events', |events'|).solo.cache, Committed(events', |events'|), start);
  }

  /** Prefill chunks and steps that reject nothing are always safe. */
  lemma NoRollbackIsSafe<Entry>(size: Pos, events: seq<Event<Entry>>, i: nat)
    requires i < |events| && events[i].Taken() == |events[i].Fed()|
    ensures SafeAt(size, events, i)
  {
  }

  // ---------------------------------------------------------------- the guard is exact

  /** Pools that differ in a token have different records. */
  ghost predicate Injective<Entry(!new), Record>(pool: seq<Entry> -> Record) {
    forall v: seq<Entry>, w: seq<Entry> :: pool(v) == pool(w) ==> v == w
  }

  /** Everything the first `n` events fed, rejected tokens included, in order. */
  ghost function AllFed<Entry>(events: seq<Event<Entry>>, n: nat): seq<Entry>
    requires n <= |events|
  {
    if n == 0 then [] else AllFed(events, n - 1) + events[n - 1].Fed()
  }

  ghost predicate Distinct<T>(s: seq<T>) {
    forall i, j :: 0 <= i < j < |s| ==> s[i] != s[j]
  }

  /** The pool at `start` has lost its first token: its ring slot, or its record once complete, is wrong. */
  ghost predicate Spoiled<Entry, Record>(l: Layout<Entry, Record>, r: Run<Entry, Record>, start: nat)
    requires SoloOk(l, r.solo)
  {
    && start < |r.committed|
    && (if |r.committed| < start + l.size then r.solo.ring[0] != r.committed[start]
        else l.loc(start) >= 0 ==> !PoolRight(l, r.solo.cache, r.committed, start))
  }

  /** The last token at a pool start of a window that ran past a pool sits in the pool's first slot. */
  lemma OverwrittenStart<Entry>(size: Pos, ring: seq<Entry>, h: seq<Entry>, from: nat, start: nat)
    requires |ring| == size && Recent(size, ring, h, from, |h|) && Distinct(h)
    requires start % size == 0 && from < start + size < |h|
    ensures ring[0] != h[start]
  {
    var q := (|h| - 1) - (|h| - 1) % size;
    AlignDown(|h| - 1, size);
    assert start == (start / size) * size;
    assert (start / size + 1) * size == (start / size) * size + size;
    DivModUnique(start + size, size, start / size + 1, 0);
    WindowStart(start + size, |h| - 1, size);
    assert ring[q % size] == h[q];
  }

  /** An unsafe rollback into a pool leaves a rejected token where the pool's first token was. */
  lemma UnsafeSpoils<Entry, Record>(l: Layout<Entry, Record>, r: Run<Entry, Record>, ev: Event<Entry>, start: nat)
    requires SoloOk(l, r.solo) && Legal(l.size, r.committed, ev) && ev.Taken() <= |ev.Fed()| && start % l.size == 0
    requires start < |r.committed| + ev.Taken() < start + l.size
    requires !Safe(l.size, |r.committed|, |ev.Fed()|, ev.Taken())
    requires Distinct(r.committed + ev.Fed())
    ensures Spoiled(l, Apply(l, r, ev), start)
  {
    hide Apply, FeedTo;
    var c, h := |r.committed|, r.committed + ev.Fed();
    ApplyIsFeed(l, r, ev);
    assert Apply(l, r, ev).committed == h[..c + ev.Taken()];
    AlignedOffset(start, l.size, c + ev.Taken() - start);
    FeedToRecent(l, r.solo, h, c, c, |h|);
    OverwrittenStart(l.size, FeedTo(l, r.solo, h, c, |h|).ring, h, c, start);
  }

  /** Once spoiled, a pool stays spoiled, and its record is wrong when it completes. */
  lemma SpoiledStays<Entry(!new), Record>(l: Layout<Entry, Record>, r: Run<Entry, Record>, ev: Event<Entry>, start: nat)
    requires SoloOk(l, r.solo) && Legal(l.size, r.committed, ev) && ev.Taken() <= |ev.Fed()| && start % l.size == 0
    requires Injective(l.pool) && Spoiled(l, r, start) && r.committed[start] !in ev.Fed()
    ensures Spoiled(l, Apply(l, r, ev), start)
  {
    hide *;
    SpoiledEarly(l, r, start);
    NotAgain(r.committed, ev.Fed(), start);
    AppliedRun(l, r, ev);
    assert r == Run(r.solo, r.committed);
    SpoiledFed(l, r.solo, r.committed + ev.Fed(), |r.committed|, |r.committed| + ev.Taken(), start);
  }

  lemma SpoiledEarly<Entry, Record>(l: Layout<Entry, Record>, r: Run<Entry, Record>, start: nat)
    requires SoloOk(l, r.solo) && Spoiled(l, r, start)
    ensures start < |r.committed|
  {
  }

  lemma NotAgain<T>(a: seq<T>, b: seq<T>, start: nat)
    requires start < |a| && a[start] !in b
    ensures forall q :: |a| <= q < |a + b| ==> (a + b)[q] != (a + b)[start]
  {
    forall q | |a| <= q < |a + b|
      ensures (a + b)[q] != (a + b)[start]
    {
      assert (a + b)[q] == b[q - |a|];
    }
  }

  lemma SpoiledFed<Entry(!new), Record>(l: Layout<Entry, Record>, s: Solo<Entry, Record>, h: seq<Entry>, c: nat, n: nat,
                                        start: nat)
    requires SoloOk(l, s) && c <= n <= |h| && start % l.size == 0 && start < c && Injective(l.pool)
    requires Spoiled(l, Run(s, h[..c]), start)
    requires forall q :: c <= q < |h| ==> h[q] != h[start]
    ensures Spoiled(l, Run(FeedTo(l, s, h, c, |h|), h[..n]), start)
  {
    SpoiledMeans(l, s, h, c, start);
    SpoiledMeans(l, FeedTo(l, s, h, c, |h|), h, n, start);
    hide *;
    if n < start + l.size {
      WrongSlotStays(l, s, h, c, |h|, start);
    } else if l.loc(start) >= 0 {
      WrongRecordStays(l, s, h, c, start);
    }
  }

  lemma SpoiledMeans<Entry, Record>(l: Layout<Entry, Record>, s: Solo<Entry, Record>, h: seq<Entry>, n: nat, start: nat)
    requires SoloOk(l, s) && start < n <= |h|
    ensures Spoiled(l, Run(s, h[..n]), start) <==>
            if n < start + l.size then s.ring[0] != h[start]
            else l.loc(start) >= 0 ==> s.cache[l.loc(start)] != l.pool(h[start..start + l.size])
  {
    if start + l.size <= n { Windows(h, n, start, l.size); }
  }

  /** A wrong record stays wrong, and a wrong ring slot makes the record wrong when the pool completes. */
  lemma WrongRecordStays<Entry(!new), Record>(l: Layout<Entry, Record>, s: Solo<Entry, Record>, h: seq<Entry>, c: nat,
                                              start: nat)
    requires SoloOk(l, s) && Injective(l.pool) && start % l.size == 0 && l.loc(start) >= 0 && start < c <= |h|
    requires start + l.size <= |h|
    requires forall q :: c <= q < |h| ==> h[q] != h[start]
    requires if start + l.size <= c then s.cache[l.loc(start)] != l.pool(h[start..start + l.size])
               else s.ring[0] != h[start]
    ensures FeedTo(l, s, h, c, |h|).cache[l.loc(start)] != l.pool(h[start..start + l.size])
  {
    hide FeedTo, Injective;
    if start + l.size <= c {
      FeedToFrame(l, s, h, c, |h|, start);
    } else {
      WrongSlotStays(l, s, h, c, start + l.size - 1, start);
      SpoiledRecord(l, s, h, c, start);
    }
  }

  lemma WrongSlotStays<Entry, Record>(l: Layout<Entry, Record>, s: Solo<Entry, Record>, h: seq<Entry>, c: nat, n: nat,
                                      start: nat)
    requires SoloOk(l, s) && start < c <= n <= |h| && s.ring[0] != h[start]
    requires forall q :: c <= q < |h| ==> h[q] != h[start]
    ensures FeedTo(l, s, h, c, n).ring[0] != h[start]
  {
    SlotFromWindow(l, s, h, c, n, 0);
  }

  lemma SpoiledRecord<Entry(!new), Record>(l: Layout<Entry, Record>, s: Solo<Entry, Record>, h: seq<Entry>, c: nat,
                                           start: nat)
    requires SoloOk(l, s) && Injective(l.pool) && start % l.size == 0 && l.loc(start) >= 0
    requires start < c < start + l.size <= |h|
    requires FeedTo(l, s, h, c, start + l.size - 1).ring[0] != h[start]
    ensures FeedTo(l, s, h, c, |h|).cache[l.loc(start)] != l.pool(h[start..start + l.size])
  {
    hide FeedTo;
    var ring := FeedTo(l, s, h, c, start + l.size - 1).ring;
    CompletedRecord(l, s, h, c, |h|, start);
    assert (ring[..l.size - 1] + [h[start + l.size - 1]])[0] == ring[0];
    assert h[start..start + l.size][0] == h[start];
  }

  lemma {:induction false} CommittedDistinct<Entry>(size: Pos, events: seq<Event<Entry>>, n: nat)
    requires n <= |events| && LegalRun(size, events, n) && Distinct(AllFed(events, n))
    ensures Distinct(Committed(events, n))
    ensures forall x :: x in Committed(events, n) ==> x in AllFed(events, n)
  {
    if n > 0 {
      SplitDistinct(AllFed(events, n - 1), events[n - 1].Fed());
      CommittedDistinct(size, events, n - 1);
      JoinDistinct(Committed(events, n - 1), events[n - 1].Fed(), events[n - 1].Taken());
    }
  }

  lemma SplitDistinct<T>(a: seq<T>, b: seq<T>)
    requires Distinct(a + b)
    ensures Distinct(a) && Distinct(b) && forall x :: x in a ==> x !in b
  {
    forall i, j | 0 <= i < j < |a| ensures a[i] != a[j] { assert (a + b)[i] != (a + b)[j]; }
    forall i, j | 0 <= i < j < |b| ensures b[i] != b[j] { assert (a + b)[|a| + i] != (a + b)[|a| + j]; }
    forall i, j | 0 <= i < |a| && 0 <= j < |b| ensures a[i] != b[j] { assert (a + b)[i] != (a + b)[|a| + j]; }
  }

  lemma JoinDistinct<T>(a: seq<T>, b: seq<T>, n: nat)
    requires Distinct(a) && Distinct(b) && n <= |b| && forall x :: x in a ==> x !in b
    ensures Distinct(a + b[..n])
  {
    var c := a + b[..n];
    forall i, j | 0 <= i < j < |c| ensures c[i] != c[j] {
      if i < |a| <= j { assert c[i] in a; }
      if |a| <= i { assert c[i] == b[i - |a|] && c[j] == b[j - |a|]; }
    }
  }

  /** What one more event feeds is apart from everything committed before it. */
  lemma NextDistinct<Entry>(size: Pos, events: seq<Event<Entry>>, n: nat)
    requires n < |events| && LegalRun(size, events, n + 1) && Distinct(AllFed(events, n + 1))
    ensures Distinct(AllFed(events, n)) && Distinct(Committed(events, n) + events[n].Fed())
    ensures forall x :: x in Committed(events, n) ==> x !in events[n].Fed()
  {
    var fed := events[n].Fed();
    SplitDistinct(AllFed(events, n), fed);
    CommittedDistinct(size, events, n);
    JoinDistinct(Committed(events, n), fed, |fed|);
    assert fed[..|fed|] == fed;
  }

  lemma {:induction false} SpoiledRun<Entry(!new), Record>(l: Layout<Entry, Record>, s: Solo<Entry, Record>,
                                                           events: seq<Event<Entry>>, n: nat, i: nat, start: nat)
    requires SoloOk(l, s) && n <= |events| && LegalRun(l.size, events, n) && Injective(l.pool)
    requires Distinct(AllFed(events, n))
    requires i < n && start % l.size == 0 && Spoils(l.size, events, i, start)
    ensures Spoiled(l, Exec(l, s, events, n), start)
  {
    hide Apply, FeedTo, Distinct, AllFed, Injective, Safe;
    var r, ev := Exec(l, s, events, n - 1), events[n - 1];
    NextDistinct(l.size, events, n - 1);
    if i < n - 1 {
      SpoiledRun(l, s, events, n - 1, i, start);
      SpoiledStays(l, r, ev, start);
    } else {
      SpoilsIff(l.size, events, i, start);
      UnsafeSpoils(l, r, ev, start);
    }
  }

  /** The rollback guard is exact: when tokens are told apart and pooling loses nothing, a stored and
      committed pool is right if and only if no step rolled back into it after running past it. */
  lemma PoolRightIffUnspoiled<Entry(!new), Record>(l: Layout<Entry, Record>, s: Solo<Entry, Record>,
                                                   events: seq<Event<Entry>>, n: nat, start: nat)
    requires SoloOk(l, s) && n <= |events| && LegalRun(l.size, events, n) && Injective(l.pool)
    requires Distinct(AllFed(events, n))
    requires start % l.size == 0 && start + l.size <= |Committed(events, n)| && l.loc(start) >= 0
    ensures PoolRight(l, Exec(l, s, events, n).solo.cache, Committed(events, n), start)
       <==> forall i :: 0 <= i < n ==> !Spoils(l.size, events, i, start)
  {
    if i :| 0 <= i < n && Spoils(l.size, events, i, start) {
      SpoiledRun(l, s, events, n, i, start);
    } else {
      UnspoiledTracked(l, s, events, n, start);
    }
  }

  /** A run that breaks the guard: pool size 2, a window of 3 from position 0, of which 1 is accepted. */
  ghost function UnsafeRun(): seq<Event<int>> { [Verify([10, 11, 12], 1), Verify([13], 1)] }

  lemma UnsafeRunFacts()
    ensures LegalRun(2, UnsafeRun(), 2) && Committed(UnsafeRun(), 2) == [10, 13]
    ensures AllFed(UnsafeRun(), 2) == [10, 11, 12, 13]
    ensures Spoils(2, UnsafeRun(), 0, 0)
  {
    assert Committed(UnsafeRun(), 1) == [10];
    assert AllFed(UnsafeRun(), 1) == [10, 11, 12];
  }

  lemma UnsafeRunIsWrong(l: Layout<int, seq<int>>, s: Solo<int, seq<int>>)
    requires l.size == 2 && SoloOk(l, s) && l.loc(0) >= 0 && Injective(l.pool)
    requires LegalRun(2, UnsafeRun(), 2)
    ensures Exec(l, s, UnsafeRun(), 2).solo.cache[l.loc(0)] != l.pool([10, 13])
  {
    UnsafeRunFacts();
    PoolRightIffUnspoiled(l, s, UnsafeRun(), 2, 0);
    assert [10, 13][0..2] == [10, 13];
  }
}
