/** Many requests on the shared buffers: every launch is a prefill batch of some of them or a decode launch over the
    lanes of all of them, and every request still gets the pools it would have got alone. */
module KpoolServing {
  import opened Arith
  import opened KpoolBatch
  import opened KpoolRing
  import opened KpoolRuns
  import opened PoolSlots

  /** A request: where its records and its tail ring lie, and what each launch does for it. */
  datatype Request<!Entry, Record> = Request(layout: Layout<Entry, Record>, block: nat, events: seq<Event<Entry>>)

  /** One launch. `owners` names the request of each lane or part; a lane of no request is padding. */
  datatype Launch<Entry> =
    | Decode(lanes: seq<Token<Entry>>, owners: seq<int>)
    | Batch(parts: seq<Part<Entry>>, owners: seq<int>)

  // ---------------------------------------------------------------- what a launch does to the buffers

  ghost predicate LaunchOk<Entry>(size: Pos, blocks: nat, slots: nat, launch: Launch<Entry>) {
    match launch
    case Decode(lanes, owners) => |owners| == |lanes| && TokensOk(size, blocks, slots, lanes)
    case Batch(parts, owners) =>
      && |owners| == |parts| && PartsOk(size, slots, parts)
      && forall p :: 0 <= p < |parts| ==> parts[p].block < blocks
  }

  ghost predicate LaunchesOk<Entry>(size: Pos, blocks: nat, slots: nat, launches: seq<Launch<Entry>>) {
    forall i :: 0 <= i < |launches| ==> LaunchOk(size, blocks, slots, launches[i])
  }

  /** The tail seeding after a prefill insertion, request by request. */
  ghost function SeedEach<Entry>(size: Pos, rings: seq<seq<Entry>>, parts: seq<Part<Entry>>,
                                 n: nat): (r: seq<seq<Entry>>)
    requires n <= |parts| && forall b :: 0 <= b < |rings| ==> |rings[b]| == size
    requires forall p :: 0 <= p < |parts| ==> parts[p].block < |rings|
    ensures |r| == |rings| && forall b :: 0 <= b < |r| ==> |r[b]| == size
  {
    if n == 0 then rings
    else
      var before, part := SeedEach(size, rings, parts, n - 1), parts[n - 1];
      before[part.block := SeedTail(size, before[part.block], part.rows)]
  }

  /** A decode launch runs its lanes; a prefill batch inserts all its rows as one flat batch and then seeds. */
  ghost function Launched<Entry, Record>(size: Pos, pool: seq<Entry> -> Record, s: Store<Entry, Record>,
                                         launch: Launch<Entry>): (r: Store<Entry, Record>)
    requires StoreOk(size, s) && LaunchOk(size, |s.rings|, |s.cache|, launch)
    ensures StoreOk(size, r) && |r.rings| == |s.rings| && |r.cache| == |s.cache|
  {
    match launch
    case Decode(lanes, _) => Steps(size, pool, s, lanes, |lanes|)
    case Batch(parts, _) =>
      Store(SeedEach(size, s.rings, parts, |parts|),
            Insert(size, pool, s.cache, AllRows(parts, |parts|), AllSlots(size, |s.cache|, parts, |parts|),
                   |AllRows(parts, |parts|)|))
  }

  /** The first `n` launches. */
  ghost function Served<Entry, Record>(size: Pos, pool: seq<Entry> -> Record, s: Store<Entry, Record>,
                                       launches: seq<Launch<Entry>>, n: nat): (r: Store<Entry, Record>)
    requires StoreOk(size, s) && LaunchesOk(size, |s.rings|, |s.cache|, launches) && n <= |launches|
    ensures StoreOk(size, r) && |r.rings| == |s.rings| && |r.cache| == |s.cache|
  {
    if n == 0 then s else Launched(size, pool, Served(size, pool, s, launches, n - 1), launches[n - 1])
  }

  // ---------------------------------------------------------------- what a launch does for each request

  /** Two requests share neither their tail block nor a record. */
  ghost predicate Apart<Entry, Record>(a: Request<Entry, Record>, b: Request<Entry, Record>) {
    && a.block != b.block
    && forall x: nat, y: nat :: a.layout.loc(x) >= 0 ==> a.layout.loc(x) != b.layout.loc(y)
  }

  ghost predicate RequestOk<Entry, Record>(size: Pos, pool: seq<Entry> -> Record, blocks: nat, slots: nat,
                                           q: Request<Entry, Record>, n: nat)
    ensures RequestOk(size, pool, blocks, slots, q, n) ==>
              && q.layout.size == size && q.layout.pool == pool && q.block < blocks && LayoutOk(q.layout, slots)
              && |q.events| == n
  {
    && q.layout.size == size && q.layout.pool == pool && q.block < blocks && LayoutOk(q.layout, slots)
    && |q.events| == n && LegalRun(size, q.events, n)
  }

  ghost predicate RequestsOk<Entry, Record>(size: Pos, pool: seq<Entry> -> Record, blocks: nat, slots: nat,
                                            rs: seq<Request<Entry, Record>>, n: nat) {
    && (forall r :: 0 <= r < |rs| ==> RequestOk(size, pool, blocks, slots, rs[r], n))
    && (forall a, b :: 0 <= a < |rs| && 0 <= b < |rs| && a != b ==> Apart(rs[a], rs[b]))
  }

  /** How many of the first `m` lanes are of request `r`. */
  ghost function Lanes(owners: seq<int>, r: int, m: nat): nat
    requires m <= |owners|
  {
    if m == 0 then 0 else Lanes(owners, r, m - 1) + if owners[m - 1] == r then 1 else 0
  }

  /** Lane `j` of request `r` is the next position of its draft. */
  ghost predicate IsNext<Entry, Record>(q: Request<Entry, Record>, r: int, committed: seq<Entry>, draft: seq<Entry>,
                                        lanes: seq<Token<Entry>>, owners: seq<int>, j: nat)
    requires j < |lanes| == |owners|
  {
    && Lanes(owners, r, j) < |draft|
    && IsLane(q.layout, q.block, committed + draft, |committed| + Lanes(owners, r, j), lanes[j])
  }

  /** Part `p` is a chunk of request `q`, placed where its layout says. */
  ghost predicate IsPart<Entry, Record>(q: Request<Entry, Record>, slots: nat, committed: seq<Entry>, part: Part<Entry>)
    requires LayoutOk(q.layout, slots)
  {
    && part.block == q.block && |committed| % q.layout.size == 0
    && part.slots == ChunkSlots(q.layout, slots, |committed|, |part.rows|)
  }

  /** The launch carries out `ev` for request `r`. A request that a prefill batch does not hold does nothing in it. */
  ghost predicate Serves<Entry, Record>(q: Request<Entry, Record>, r: int, slots: nat, committed: seq<Entry>,
                                        ev: Event<Entry>, launch: Launch<Entry>)
    requires LayoutOk(q.layout, slots) && |launch.owners| == if launch.Decode? then |launch.lanes| else |launch.parts|
  {
    match launch
    case Decode(lanes, owners) =>
      && ev.Verify? && Lanes(owners, r, |lanes|) == |ev.draft|
      && forall j :: 0 <= j < |lanes| && owners[j] == r ==> IsNext(q, r, committed, ev.draft, lanes, owners, j)
    case Batch(parts, owners) =>
      && (forall p :: 0 <= p < |parts| && owners[p] == r ==>
            ev == Prefill(parts[p].rows) && IsPart(q, slots, committed, parts[p]))
      && (forall p, p' :: 0 <= p < p' < |parts| && owners[p] == r ==> owners[p'] != r)
      && (r !in owners ==> ev == Verify([], 0))
  }

  /** Every lane or part is some request's; lanes may be padding. */
  ghost predicate Owned<Entry>(launch: Launch<Entry>, requests: nat) {
    match launch
    case Decode(lanes, owners) =>
      && |owners| == |lanes|
      && forall j :: 0 <= j < |lanes| ==> 0 <= owners[j] < requests || lanes[j].position < 0 || lanes[j].tailSlot < 0
    case Batch(parts, owners) =>
      && |owners| == |parts|
      && forall p :: 0 <= p < |parts| ==> 0 <= owners[p] < requests
  }

  /** Every launch belongs to the requests, and carries out for each of them its event of that launch. */
  ghost predicate ServesAll<Entry, Record>(size: Pos, pool: seq<Entry> -> Record, s: Store<Entry, Record>,
                                           rs: seq<Request<Entry, Record>>, launches: seq<Launch<Entry>>)
    ensures ServesAll(size, pool, s, rs, launches) ==>
              && StoreOk(size, s) && LaunchesOk(size, |s.rings|, |s.cache|, launches)
              && forall r :: 0 <= r < |rs| ==> RequestOk(size, pool, |s.rings|, |s.cache|, rs[r], |launches|)
  {
    && StoreOk(size, s) && LaunchesOk(size, |s.rings|, |s.cache|, launches)
    && RequestsOk(size, pool, |s.rings|, |s.cache|, rs, |launches|)
    && (forall i :: 0 <= i < |launches| ==> Owned(launches[i], |rs|))
    && (forall i, r :: 0 <= i < |launches| && 0 <= r < |rs| ==>
          Serves(rs[r], r, |s.cache|, Committed(rs[r].events, i), rs[r].events[i], launches[i]))
  }

  // ---------------------------------------------------------------- decode launches

  /** A lane of one request is foreign to every other request. */
  lemma OtherLane<Entry, Record>(a: Request<Entry, Record>, b: Request<Entry, Record>, h: seq<Entry>, n: nat,
                                 t: Token<Entry>)
    requires Apart(a, b) && a.layout.size == b.layout.size && n < |h| && IsLane(b.layout, b.block, h, n, t)
    ensures IsForeign(a.layout, a.block, t)
  {
    var l := b.layout;
    if t.cacheSlot >= 0 {
      LastInPool(n, l.size);
      var own: nat := n + 1 - l.size;
      assert t.cacheSlot == l.loc(own);
      forall start: nat | a.layout.loc(start) >= 0
        ensures a.layout.loc(start) != t.cacheSlot
      {
        assert a.layout.loc(start) != b.layout.loc(own);
      }
    }
  }

  lemma {:induction false} LanesGrow(owners: seq<int>, r: int, m: nat, n: nat)
    requires m <= n <= |owners|
    ensures Lanes(owners, r, m) <= Lanes(owners, r, n)
  {
    if m < n { LanesGrow(owners, r, m, n - 1); }
  }

  /** The lanes of request `r` are its window, interleaved with lanes that are foreign to it. */
  lemma {:induction false} LanesInterleave<Entry, Record>(q: Request<Entry, Record>, r: int, committed: seq<Entry>,
                                                          draft: seq<Entry>, lanes: seq<Token<Entry>>,
                                                          owners: seq<int>, m: nat)
    requires m <= |lanes| == |owners| && Lanes(owners, r, m) <= |draft|
    requires forall j :: 0 <= j < m ==>
               if owners[j] == r then IsNext(q, r, committed, draft, lanes, owners, j)
               else IsForeign(q.layout, q.block, lanes[j])
    ensures Interleaved(q.layout, q.block, committed + draft, |committed|, |committed| + Lanes(owners, r, m), lanes, m)
  {
    hide IsForeign, IsLane;
    if m > 0 {
      LanesInterleave(q, r, committed, draft, lanes, owners, m - 1);
    }
  }

  lemma DecodeServes<Entry, Record>(q: Request<Entry, Record>, r: int, s: Store<Entry, Record>,
                                    run: Run<Entry, Record>, ev: Event<Entry>, launch: Launch<Entry>)
    requires launch.Decode? && StoreOk(q.layout.size, s) && LaunchOk(q.layout.size, |s.rings|, |s.cache|, launch)
    requires SoloOk(q.layout, run.solo) && Legal(q.layout.size, run.committed, ev)
    requires Agrees(q.layout, q.block, s, run.solo)
    requires LayoutOk(q.layout, |s.cache|) && Serves(q, r, |s.cache|, run.committed, ev, launch)
    requires forall j :: 0 <= j < |launch.lanes| && launch.owners[j] != r ==>
               IsForeign(q.layout, q.block, launch.lanes[j])
    ensures Agrees(q.layout, q.block, Launched(q.layout.size, q.layout.pool, s, launch), Apply(q.layout, run, ev).solo)
  {
    var lanes, owners := launch.lanes, launch.owners;
    hide Agrees, IsForeign, IsNext, FeedTo, Steps;
    LanesInterleave(q, r, run.committed, ev.draft, lanes, owners, |lanes|);
    hide Interleaved;
    RequestsAreIsolated(q.layout, q.block, s, run.solo, run.committed + ev.draft, |run.committed|,
                        |run.committed| + |ev.draft|, lanes, |lanes|);
  }

  // ---------------------------------------------------------------- prefill batches

  /** A part of another request: another tail block and other records. */
  ghost predicate IsForeignPart<Entry, Record>(q: Request<Entry, Record>, part: Part<Entry>) {
    && part.block != q.block
    && forall i, start: nat :: 0 <= i < |part.slots| && q.layout.loc(start) >= 0 ==>
         q.layout.loc(start) != part.slots[i]
  }

  lemma {:induction false} ChunkSlotsAreLocs<Entry, Record>(l: Layout<Entry, Record>, slots: nat, c: nat, n: nat,
                                                            i: nat)
    requires LayoutOk(l, slots) && i < n
    ensures ChunkSlots(l, slots, c, n)[i] < 0 || exists start: nat :: ChunkSlots(l, slots, c, n)[i] == l.loc(start)
  {
    if i < n - 1 {
      ChunkSlotsAreLocs(l, slots, c, n - 1, i);
    } else {
      LastInPool(c + i, l.size);
      if (c + i + 1) % l.size == 0 {
        var start: nat := c + i + 1 - l.size;
        assert ChunkSlots(l, slots, c, n)[i] == l.loc(start);
      }
    }
  }

  lemma OtherPart<Entry, Record>(a: Request<Entry, Record>, b: Request<Entry, Record>, slots: nat,
                                 committed: seq<Entry>, part: Part<Entry>)
    requires Apart(a, b) && LayoutOk(b.layout, slots) && IsPart(b, slots, committed, part)
    ensures IsForeignPart(a, part)
  {
    hide ChunkSlots;
    forall i, start: nat | 0 <= i < |part.slots| && a.layout.loc(start) >= 0
      ensures a.layout.loc(start) != part.slots[i]
    {
      ChunkSlotsAreLocs(b.layout, slots, |committed|, |part.rows|, i);
    }
  }

  /** The same records at the places of one layout. */
  ghost predicate SameRecords<Entry, Record>(l: Layout<Entry, Record>, a: seq<Record>, b: seq<Record>) {
    |a| == |b| && forall start: nat :: 0 <= l.loc(start) < |a| ==> a[l.loc(start)] == b[l.loc(start)]
  }

  lemma {:induction false} ForeignInsert<Entry, Record>(l: Layout<Entry, Record>, a: seq<Record>, b: seq<Record>,
                                                        rows: seq<Entry>, slots: seq<int>, n: nat)
    requires n <= |rows| == |slots| && SameRecords(l, a, b) && forall i :: 0 <= i < |slots| ==> slots[i] < |a|
    requires forall i, start: nat :: 0 <= i < |slots| && l.loc(start) >= 0 ==> l.loc(start) != slots[i]
    ensures SameRecords(l, Insert(l.size, l.pool, a, rows, slots, n), b)
  {
    if n > 0 { ForeignInsert(l, a, b, rows, slots, n - 1); }
  }

  lemma {:induction false} OwnInsert<Entry, Record>(l: Layout<Entry, Record>, a: seq<Record>, b: seq<Record>,
                                                    rows: seq<Entry>, slots: seq<int>, n: nat)
    requires n <= |rows| == |slots| && SameRecords(l, a, b) && forall i :: 0 <= i < |slots| ==> slots[i] < |a|
    ensures SameRecords(l, Insert(l.size, l.pool, a, rows, slots, n), Insert(l.size, l.pool, b, rows, slots, n))
  {
    if n > 0 { OwnInsert(l, a, b, rows, slots, n - 1); }
  }

  /** The first `n` parts, inserted and seeded one request after another. */
  ghost function PartStore<Entry, Record>(size: Pos, pool: seq<Entry> -> Record, s: Store<Entry, Record>,
                                          parts: seq<Part<Entry>>, n: nat): (r: Store<Entry, Record>)
    requires StoreOk(size, s) && PartsOk(size, |s.cache|, parts) && n <= |parts|
    requires forall p :: 0 <= p < |parts| ==> parts[p].block < |s.rings|
    ensures StoreOk(size, r) && |r.rings| == |s.rings| && |r.cache| == |s.cache|
  {
    Store(SeedEach(size, s.rings, parts, n), InsertEach(size, pool, s.cache, parts, n))
  }

  lemma ForeignPart<Entry, Record>(q: Request<Entry, Record>, s: Store<Entry, Record>, v: Solo<Entry, Record>,
                                   parts: seq<Part<Entry>>, n: nat)
    requires StoreOk(q.layout.size, s) && PartsOk(q.layout.size, |s.cache|, parts) && n < |parts|
    requires forall p :: 0 <= p < |parts| ==> parts[p].block < |s.rings|
    requires Agrees(q.layout, q.block, PartStore(q.layout.size, q.layout.pool, s, parts, n), v)
    requires IsForeignPart(q, parts[n])
    ensures Agrees(q.layout, q.block, PartStore(q.layout.size, q.layout.pool, s, parts, n + 1), v)
  {
    hide SeedTail, Insert;
    ForeignInsert(q.layout, InsertEach(q.layout.size, q.layout.pool, s.cache, parts, n), v.cache, parts[n].rows,
                  parts[n].slots, |parts[n].rows|);
  }

  lemma OwnPart<Entry, Record>(q: Request<Entry, Record>, s: Store<Entry, Record>, run: Run<Entry, Record>,
                               parts: seq<Part<Entry>>, n: nat)
    requires StoreOk(q.layout.size, s) && PartsOk(q.layout.size, |s.cache|, parts) && n < |parts|
    requires forall p :: 0 <= p < |parts| ==> parts[p].block < |s.rings|
    requires SoloOk(q.layout, run.solo)
    requires Agrees(q.layout, q.block, PartStore(q.layout.size, q.layout.pool, s, parts, n), run.solo)
    requires LayoutOk(q.layout, |s.cache|) && IsPart(q, |s.cache|, run.committed, parts[n])
    ensures Agrees(q.layout, q.block, PartStore(q.layout.size, q.layout.pool, s, parts, n + 1),
                   Apply(q.layout, run, Prefill(parts[n].rows)).solo)
  {
    hide SeedTail, Insert, ChunkSlots;
    OwnInsert(q.layout, InsertEach(q.layout.size, q.layout.pool, s.cache, parts, n), run.solo.cache, parts[n].rows,
              parts[n].slots, |parts[n].rows|);
  }

  /** The first `n` parts: a request is where it was until its own part, and has carried that out afterwards. */
  lemma {:induction false} PartsServe<Entry, Record>(q: Request<Entry, Record>, r: int, s: Store<Entry, Record>,
                                                     run: Run<Entry, Record>, ev: Event<Entry>,
                                                     parts: seq<Part<Entry>>, owners: seq<int>, n: nat)
    requires StoreOk(q.layout.size, s) && PartsOk(q.layout.size, |s.cache|, parts) && n <= |parts| == |owners|
    requires forall p :: 0 <= p < |parts| ==> parts[p].block < |s.rings|
    requires SoloOk(q.layout, run.solo) && Legal(q.layout.size, run.committed, ev)
    requires Agrees(q.layout, q.block, s, run.solo)
    requires LayoutOk(q.layout, |s.cache|) && Serves(q, r, |s.cache|, run.committed, ev, Batch(parts, owners))
    requires forall p :: 0 <= p < |parts| && owners[p] != r ==> IsForeignPart(q, parts[p])
    ensures Agrees(q.layout, q.block, PartStore(q.layout.size, q.layout.pool, s, parts, n),
                   if r in owners[..n] then Apply(q.layout, run, ev).solo else run.solo)
  {
    hide Agrees, PartStore, IsPart, IsForeignPart, Apply, SoloOk, LayoutOk;
    if n == 0 {
      NoParts(q, s, parts);
    } else {
      PartsServe(q, r, s, run, ev, parts, owners, n - 1);
      assert owners[..n] == owners[..n - 1] + [owners[n - 1]];
      if owners[n - 1] == r {
        assert r !in owners[..n - 1];
        OwnPart(q, s, run, parts, n - 1);
      } else {
        ForeignPart(q, s, if r in owners[..n - 1] then Apply(q.layout, run, ev).solo else run.solo, parts, n - 1);
      }
    }
  }

  lemma NoParts<Entry, Record>(q: Request<Entry, Record>, s: Store<Entry, Record>, parts: seq<Part<Entry>>)
    requires StoreOk(q.layout.size, s) && PartsOk(q.layout.size, |s.cache|, parts)
    requires forall p :: 0 <= p < |parts| ==> parts[p].block < |s.rings|
    ensures PartStore(q.layout.size, q.layout.pool, s, parts, 0) == s
  {
  }

  lemma BatchServes<Entry, Record>(q: Request<Entry, Record>, r: int, s: Store<Entry, Record>,
                                   run: Run<Entry, Record>, ev: Event<Entry>, launch: Launch<Entry>)
    requires launch.Batch? && StoreOk(q.layout.size, s) && LaunchOk(q.layout.size, |s.rings|, |s.cache|, launch)
    requires SoloOk(q.layout, run.solo) && Legal(q.layout.size, run.committed, ev)
    requires Agrees(q.layout, q.block, s, run.solo)
    requires LayoutOk(q.layout, |s.cache|) && Serves(q, r, |s.cache|, run.committed, ev, launch)
    requires forall p :: 0 <= p < |launch.parts| && launch.owners[p] != r ==> IsForeignPart(q, launch.parts[p])
    ensures Agrees(q.layout, q.block, Launched(q.layout.size, q.layout.pool, s, launch), Apply(q.layout, run, ev).solo)
  {
    var parts, owners := launch.parts, launch.owners;
    hide Agrees, IsPart, IsForeignPart, SoloOk, LayoutOk, PartsOk, SeedEach, Insert, InsertEach, SeedTail;
    BatchIsPerRequest(q.layout.size, q.layout.pool, s.cache, parts, |parts|);
    PartsServe(q, r, s, run, ev, parts, owners, |parts|);
    assert owners[..|parts|] == owners;
    if r !in owners { assert run.committed + [] == run.committed; }
  }

  // ---------------------------------------------------------------- whole runs of the shared buffers

  /** What a request sees of the buffers before the first launch. */
  ghost function View<Entry, Record>(s: Store<Entry, Record>, q: Request<Entry, Record>): Solo<Entry, Record>
    requires q.block < |s.rings|
  {
    Solo(s.rings[q.block], s.cache)
  }

  /** Request `r` on its own after `n` launches. */
  ghost function Alone<Entry, Record>(size: Pos, pool: seq<Entry> -> Record, s: Store<Entry, Record>,
                                      rs: seq<Request<Entry, Record>>, launches: seq<Launch<Entry>>, n: nat,
                                      r: nat): (run: Run<Entry, Record>)
    requires ServesAll(size, pool, s, rs, launches) && n <= |launches| && r < |rs|
    ensures SoloOk(rs[r].layout, run.solo) && |run.solo.cache| == |s.cache|
    ensures run.committed == Committed(rs[r].events, n)
  {
    LegalPrefix(size, rs[r].events, n, |launches|);
    Exec(rs[r].layout, View(s, rs[r]), rs[r].events, n)
  }

  lemma AloneIsExec<Entry, Record>(size: Pos, pool: seq<Entry> -> Record, s: Store<Entry, Record>,
                                   rs: seq<Request<Entry, Record>>, launches: seq<Launch<Entry>>, n: nat, r: nat)
    requires ServesAll(size, pool, s, rs, launches) && n <= |launches| && r < |rs|
    ensures SoloOk(rs[r].layout, View(s, rs[r])) && LegalRun(size, rs[r].events, n)
    ensures Alone(size, pool, s, rs, launches, n, r) == Exec(rs[r].layout, View(s, rs[r]), rs[r].events, n)
  {
    hide Exec;
    LegalPrefix(size, rs[r].events, n, |launches|);
  }

  lemma {:induction false} LegalPrefix<Entry>(size: Pos, events: seq<Event<Entry>>, m: nat, n: nat)
    requires m <= n <= |events| && LegalRun(size, events, n)
    ensures LegalRun(size, events, m)
  {
    if m < n { LegalPrefix(size, events, m, n - 1); }
  }

  /** Whatever of a launch is not request `r`'s is foreign to it. */
  lemma OthersAreForeign<Entry, Record>(size: Pos, pool: seq<Entry> -> Record, s: Store<Entry, Record>,
                                        rs: seq<Request<Entry, Record>>, launches: seq<Launch<Entry>>, i: nat, r: nat)
    requires ServesAll(size, pool, s, rs, launches) && i < |launches| && r < |rs|
    ensures match launches[i]
            case Decode(lanes, owners) =>
              forall j :: 0 <= j < |lanes| && owners[j] != r ==> IsForeign(rs[r].layout, rs[r].block, lanes[j])
            case Batch(parts, owners) =>
              forall p :: 0 <= p < |parts| && owners[p] != r ==> IsForeignPart(rs[r], parts[p])
  {
    hide Apart, IsLane, IsPart, IsForeignPart, LegalRun, LayoutOk;
    assert Owned(launches[i], |rs|);
    match launches[i]
    case Decode(lanes, owners) =>
      forall j | 0 <= j < |lanes| && owners[j] != r
        ensures IsForeign(rs[r].layout, rs[r].block, lanes[j])
      {
        if 0 <= owners[j] < |rs| {
          var q, committed := rs[owners[j]], Committed(rs[owners[j]].events, i);
          assert Serves(q, owners[j], |s.cache|, committed, q.events[i], launches[i]);
          assert IsNext(q, owners[j], committed, q.events[i].draft, lanes, owners, j);
          OtherLane(rs[r], q, committed + q.events[i].draft, |committed| + Lanes(owners, owners[j], j), lanes[j]);
        }
      }
    case Batch(parts, owners) =>
      forall p | 0 <= p < |parts| && owners[p] != r
        ensures IsForeignPart(rs[r], parts[p])
      {
        var q, committed := rs[owners[p]], Committed(rs[owners[p]].events, i);
        assert Serves(q, owners[p], |s.cache|, committed, q.events[i], launches[i]);
        OtherPart(rs[r], q, |s.cache|, committed, parts[p]);
      }
  }

  /** Over every run of launches, prefill batches and decode launches in any order, every request sees in the shared
      buffers what its own events would have made alone. */
  lemma {:induction false} SharedRun<Entry, Record>(size: Pos, pool: seq<Entry> -> Record, s: Store<Entry, Record>,
                                                    rs: seq<Request<Entry, Record>>, launches: seq<Launch<Entry>>,
                                                    n: nat, r: nat)
    requires ServesAll(size, pool, s, rs, launches) && n <= |launches| && r < |rs|
    ensures Agrees(rs[r].layout, rs[r].block, Served(size, pool, s, launches, n),
                   Alone(size, pool, s, rs, launches, n, r).solo)
  {
    hide *;
    if n == 0 {
      BeforeLaunches(size, pool, s, rs, launches, r);
    } else {
      SharedRun(size, pool, s, rs, launches, n - 1, r);
      OneLaunch(size, pool, s, rs, launches, n, r);
    }
  }

  lemma BeforeLaunches<Entry, Record>(size: Pos, pool: seq<Entry> -> Record, s: Store<Entry, Record>,
                                      rs: seq<Request<Entry, Record>>, launches: seq<Launch<Entry>>, r: nat)
    requires ServesAll(size, pool, s, rs, launches) && r < |rs|
    ensures Agrees(rs[r].layout, rs[r].block, Served(size, pool, s, launches, 0),
                   Alone(size, pool, s, rs, launches, 0, r).solo)
  {
    hide ServesAll, LayoutOk;
  }

  lemma OneLaunch<Entry, Record>(size: Pos, pool: seq<Entry> -> Record, s: Store<Entry, Record>,
                                 rs: seq<Request<Entry, Record>>, launches: seq<Launch<Entry>>, n: nat, r: nat)
    requires ServesAll(size, pool, s, rs, launches) && 0 < n <= |launches| && r < |rs|
    requires Agrees(rs[r].layout, rs[r].block, Served(size, pool, s, launches, n - 1),
                    Alone(size, pool, s, rs, launches, n - 1, r).solo)
    ensures Agrees(rs[r].layout, rs[r].block, Served(size, pool, s, launches, n),
                   Alone(size, pool, s, rs, launches, n, r).solo)
  {
    hide *;
    var q, before, run := rs[r], Served(size, pool, s, launches, n - 1), Alone(size, pool, s, rs, launches, n - 1, r);
    var launch, ev := launches[n - 1], rs[r].events[n - 1];
    LastLaunch(size, pool, s, rs, launches, n, r);
    OthersAreForeign(size, pool, s, rs, launches, n - 1, r);
    assert LaunchOk(size, |s.rings|, |s.cache|, launch);
    if launch.Decode? {
      DecodeServes(q, r, before, run, ev, launch);
    } else {
      BatchServes(q, r, before, run, ev, launch);
    }
  }

  lemma LastLaunch<Entry, Record>(size: Pos, pool: seq<Entry> -> Record, s: Store<Entry, Record>,
                                  rs: seq<Request<Entry, Record>>, launches: seq<Launch<Entry>>, n: nat, r: nat)
    requires ServesAll(size, pool, s, rs, launches) && 0 < n <= |launches| && r < |rs|
    ensures LaunchOk(size, |s.rings|, |s.cache|, launches[n - 1])
    ensures Served(size, pool, s, launches, n)
              == Launched(size, pool, Served(size, pool, s, launches, n - 1), launches[n - 1])
    ensures var run, ev := Alone(size, pool, s, rs, launches, n - 1, r), rs[r].events[n - 1];
            && Serves(rs[r], r, |s.cache|, run.committed, ev, launches[n - 1]) && Legal(size, run.committed, ev)
            && Alone(size, pool, s, rs, launches, n, r) == Apply(rs[r].layout, run, ev)
  {
    hide Launched, Serves, Apply, SoloOk, LayoutOk, Owned;
    LegalPrefix(size, rs[r].events, n, |launches|);
    assert Serves(rs[r], r, |s.cache|, Committed(rs[r].events, n - 1), rs[r].events[n - 1], launches[n - 1]);
  }

  /** So every statement about the records of one request alone is one about the shared cache. */
  lemma SharedRecords<Entry, Record>(size: Pos, pool: seq<Entry> -> Record, s: Store<Entry, Record>,
                                     rs: seq<Request<Entry, Record>>, launches: seq<Launch<Entry>>, n: nat, r: nat,
                                     h: seq<Entry>, start: nat)
    requires ServesAll(size, pool, s, rs, launches) && n <= |launches| && r < |rs|
    ensures PoolRight(rs[r].layout, Served(size, pool, s, launches, n).cache, h, start)
       <==> PoolRight(rs[r].layout, Alone(size, pool, s, rs, launches, n, r).solo.cache, h, start)
  {
    hide ServesAll, Served, Alone, RequestOk;
    SharedRun(size, pool, s, rs, launches, n, r);
    var l := rs[r].layout;
    assert l.loc(start) < |s.cache|;
  }

  /** Every pool that a request has committed on safe steps is right in the shared cache, whatever the other requests
      do, whichever of them roll back unsafely. */
  lemma SharedPoolsRight<Entry, Record>(size: Pos, pool: seq<Entry> -> Record, s: Store<Entry, Record>,
                                        rs: seq<Request<Entry, Record>>, launches: seq<Launch<Entry>>, n: nat, r: nat)
    requires ServesAll(size, pool, s, rs, launches) && n <= |launches| && r < |rs|
    requires forall i :: 0 <= i < n ==> SafeAt(size, rs[r].events, i)
    ensures forall start: nat :: start % size == 0 ==>
              PoolRight(rs[r].layout, Served(size, pool, s, launches, n).cache, Committed(rs[r].events, n), start)
  {
    hide *;
    AloneIsExec(size, pool, s, rs, launches, n, r);
    CommittedPoolsRight(rs[r].layout, View(s, rs[r]), rs[r].events, n);
    forall start: nat | start % size == 0
      ensures PoolRight(rs[r].layout, Served(size, pool, s, launches, n).cache, Committed(rs[r].events, n), start)
    {
      SharedRecords(size, pool, s, rs, launches, n, r, Committed(rs[r].events, n), start);
    }
  }

  /** On the shared buffers too the guard is exact. */
  lemma SharedRightIffUnspoiled<Entry(!new), Record>(size: Pos, pool: seq<Entry> -> Record, s: Store<Entry, Record>,
                                                     rs: seq<Request<Entry, Record>>, launches: seq<Launch<Entry>>,
                                                     n: nat, r: nat, start: nat)
    requires ServesAll(size, pool, s, rs, launches) && n <= |launches| && r < |rs|
    requires Injective(pool) && Distinct(AllFed(rs[r].events, n))
    requires start % size == 0 && start + size <= |Committed(rs[r].events, n)| && rs[r].layout.loc(start) >= 0
    ensures PoolRight(rs[r].layout, Served(size, pool, s, launches, n).cache, Committed(rs[r].events, n), start)
       <==> forall i :: 0 <= i < n ==> !Spoils(size, rs[r].events, i, start)
  {
    hide *;
    AloneIsExec(size, pool, s, rs, launches, n, r);
    SharedRecords(size, pool, s, rs, launches, n, r, Committed(rs[r].events, n), start);
    PoolRightIffUnspoiled(rs[r].layout, View(s, rs[r]), rs[r].events, n, start);
  }

  /** Chunk independence between servers: a request that commits the same tokens on safe steps gets the same pools,
      on different buffers, with different neighbours, chunks, drafts and places. */
  lemma SharedChunkIndependence<Entry, Record>(size: Pos, pool: seq<Entry> -> Record,
                                               s: Store<Entry, Record>, rs: seq<Request<Entry, Record>>,
                                               launches: seq<Launch<Entry>>, r: nat,
                                               s': Store<Entry, Record>, rs': seq<Request<Entry, Record>>,
                                               launches': seq<Launch<Entry>>, r': nat, start: nat)
    requires ServesAll(size, pool, s, rs, launches) && r < |rs|
    requires ServesAll(size, pool, s', rs', launches') && r' < |rs'|
    requires forall i :: 0 <= i < |launches| ==> SafeAt(size, rs[r].events, i)
    requires forall i :: 0 <= i < |launches'| ==> SafeAt(size, rs'[r'].events, i)
    requires Committed(rs[r].events, |launches|) == Committed(rs'[r'].events, |launches'|)
    requires start % size == 0 && start + size <= |Committed(rs[r].events, |launches|)|
    requires rs[r].layout.loc(start) >= 0 && rs'[r'].layout.loc(start) >= 0
    ensures 0 <= rs[r].layout.loc(start) < |s.cache| && 0 <= rs'[r'].layout.loc(start) < |s'.cache|
    ensures Served(size, pool, s, launches, |launches|).cache[rs[r].layout.loc(start)]
         == Served(size, pool, s', launches', |launches'|).cache[rs'[r'].layout.loc(start)]
  {
    hide *;
    SafePool(size, pool, s, rs, launches, r, start);
    SafePool(size, pool, s', rs', launches', r', start);
  }

  lemma SafePool<Entry, Record>(size: Pos, pool: seq<Entry> -> Record, s: Store<Entry, Record>,
                                rs: seq<Request<Entry, Record>>, launches: seq<Launch<Entry>>, r: nat, start: nat)
    requires ServesAll(size, pool, s, rs, launches) && r < |rs|
    requires forall i :: 0 <= i < |launches| ==> SafeAt(size, rs[r].events, i)
    requires start % size == 0 && start + size <= |Committed(rs[r].events, |launches|)| && rs[r].layout.loc(start) >= 0
    ensures rs[r].layout.loc(start) < |s.cache|
    ensures Served(size, pool, s, launches, |launches|).cache[rs[r].layout.loc(start)]
         == pool(Committed(rs[r].events, |launches|)[start..start + size])
  {
    hide ServesAll, Served, Committed, RequestOk, SafeAt;
    SharedPoolsRight(size, pool, s, rs, launches, |launches|, r);
    assert PoolRight(rs[r].layout, Served(size, pool, s, launches, |launches|).cache,
                     Committed(rs[r].events, |launches|), start);
  }

  // ---------------------------------------------------------------- sharded ranks

  /** Requests whose table rows share no physical block share no record on any rank. */
  lemma RowsKeepApart(g: Shards, rank: nat, a: seq<nat>, b: seq<nat>, x: nat, y: nat)
    requires NoBlockShared(a, b) && RankLoc(g, rank, a, x) >= 0
    ensures RankLoc(g, rank, a, x) != RankLoc(g, rank, b, y)
  {
    var p, q := g.Pool(x), g.Pool(y);
    CellOfPool(g, p);
    CellOfPool(g, q);
    if RankLoc(g, rank, b, y) == RankLoc(g, rank, a, x) {
      DivModUnique(RankLoc(g, rank, a, x), g.block, a[g.Block(p)], g.Offset(p));
      DivModUnique(RankLoc(g, rank, b, y), g.block, b[g.Block(q)], g.Offset(q));
    }
  }

  ghost predicate NoBlockShared(a: seq<nat>, b: seq<nat>) {
    forall i, j :: 0 <= i < |a| && 0 <= j < |b| ==> a[i] != b[j]
  }

  /** One rank's block table: each request's blocks, in range, its own and nobody else's; a tail block for each. */
  ghost predicate TableOk(table: seq<seq<nat>>, tails: seq<nat>, blocks: nat, rings: nat) {
    && |tails| == |table|
    && (forall r :: 0 <= r < |table| ==> BlocksOk(table[r], blocks) && tails[r] < rings)
    && (forall a, b :: 0 <= a < |table| && 0 <= b < |table| && a != b ==> tails[a] != tails[b])
    && (forall a, b :: 0 <= a < |table| && 0 <= b < |table| && a != b ==> NoBlockShared(table[a], table[b]))
  }

  /** The requests of a rank, as the mapping kernel places them. */
  ghost function OnRank<Entry, Record>(g: Shards, rank: nat, pool: seq<Entry> -> Record, table: seq<seq<nat>>,
                                       tails: seq<nat>, runs: seq<seq<Event<Entry>>>): (rs: seq<Request<Entry, Record>>)
    requires |tails| == |table| == |runs|
    ensures |rs| == |table|
  {
    seq(|table|, r requires 0 <= r < |table| => Request(RankLayout(g, rank, table[r], pool), tails[r], runs[r]))
  }

  /** Such requests are apart. */
  lemma OnRankOk<Entry, Record>(g: Shards, rank: nat, pool: seq<Entry> -> Record, table: seq<seq<nat>>, tails: seq<nat>,
                                runs: seq<seq<Event<Entry>>>, blocks: nat, rings: nat, n: nat)
    requires TableOk(table, tails, blocks, rings) && |runs| == |table|
    requires forall r :: 0 <= r < |runs| ==> |runs[r]| == n && LegalRun(g.ratio, runs[r], n)
    ensures RequestsOk(g.ratio, pool, rings, blocks * g.block, OnRank(g, rank, pool, table, tails, runs), n)
  {
    hide RankLoc, BlocksOk, LegalRun, LayoutOk;
    var rs := OnRank(g, rank, pool, table, tails, runs);
    MulMono(0, blocks, g.block);
    forall r | 0 <= r < |rs|
      ensures RequestOk(g.ratio, pool, rings, blocks * g.block, rs[r], n)
    {
      RankLayoutOk(g, rank, table[r], blocks, pool, blocks * g.block);
    }
    forall a, b | 0 <= a < |rs| && 0 <= b < |rs| && a != b
      ensures Apart(rs[a], rs[b])
    {
      forall x: nat, y: nat | rs[a].layout.loc(x) >= 0
        ensures rs[a].layout.loc(x) != rs[b].layout.loc(y)
      {
        RowsKeepApart(g, rank, table[a], table[b], x, y);
      }
    }
  }

  /** Serving on every rank: a committed pool of a request that only rolls back safely is right on the rank that owns
      it, and no other rank has a place for it. */
  lemma ShardedServing<Entry, Record>(g: Shards, rank: nat, pool: seq<Entry> -> Record, s: Store<Entry, Record>,
                                      table: seq<seq<nat>>, tails: seq<nat>, runs: seq<seq<Event<Entry>>>,
                                      launches: seq<Launch<Entry>>, r: nat, start: nat)
    requires |tails| == |table| == |runs| && r < |table|
    requires ServesAll(g.ratio, pool, s, OnRank(g, rank, pool, table, tails, runs), launches)
    requires |runs[r]| == |launches| && forall i :: 0 <= i < |launches| ==> SafeAt(g.ratio, runs[r], i)
    requires start % g.ratio == 0 && start + g.ratio <= |Committed(runs[r], |launches|)|
    requires g.Block(g.Pool(start)) < |table[r]|
    ensures RankLoc(g, rank, table[r], start) >= 0 <==> rank == g.Owner(g.Pool(start))
    ensures rank == g.Owner(g.Pool(start)) ==>
              && RankLoc(g, rank, table[r], start) < |s.cache|
              && Served(g.ratio, pool, s, launches, |launches|).cache[RankLoc(g, rank, table[r], start)]
                 == pool(Committed(runs[r], |launches|)[start..start + g.ratio])
  {
    hide *;
    var rs := OnRank(g, rank, pool, table, tails, runs);
    OwnerHasPlace(g, rank, table[r], start);
    OnRankAt(g, rank, pool, table, tails, runs, r, start);
    if rank == g.Owner(g.Pool(start)) {
      SafePool(g.ratio, pool, s, rs, launches, r, start);
    }
  }

  lemma OnRankAt<Entry, Record>(g: Shards, rank: nat, pool: seq<Entry> -> Record, table: seq<seq<nat>>,
                                tails: seq<nat>, runs: seq<seq<Event<Entry>>>, r: nat, start: nat)
    requires |tails| == |table| == |runs| && r < |table|
    ensures var q := OnRank(g, rank, pool, table, tails, runs)[r];
            q.events == runs[r] && q.layout.loc(start) == RankLoc(g, rank, table[r], start)
  {
    hide RankLoc;
  }

  // ---------------------------------------------------------------- a run

  ghost function Whole(window: seq<int>): seq<int> {
    window
  }

  ghost function OnePool(slot: nat): Layout<int, seq<int>> {
    Layout(2, Whole, start => if start == 0 then slot else -1)
  }

  /** Two requests prefilled in one batch; then one verifies a draft while the other is idle, beside a padding lane. */
  ghost function SmallRequests(): seq<Request<int, seq<int>>> {
    [Request(OnePool(0), 0, [Prefill([10, 11]), Verify([12, 13], 1)]),
     Request(OnePool(1), 1, [Prefill([20, 21, 22]), Verify([], 0)])]
  }

  ghost function SmallBatch(): Launch<int> {
    Batch([Part(1, [20, 21, 22], [-1, 1, -1]), Part(0, [10, 11], [-1, 0])], [1, 0])
  }

  ghost function SmallDecode(): Launch<int> {
    Decode([Token(12, 2, 0, -1), Token(0, -1, -1, -1), Token(13, 3, 1, -1)], [0, -1, 0])
  }

  ghost function SmallStore(): Store<int, seq<int>> {
    Store([[0, 0], [0, 0]], [[], []])
  }

  /** Such a run meets every condition above. */
  lemma SmallServing()
    ensures ServesAll(2, Whole, SmallStore(), SmallRequests(), [SmallBatch(), SmallDecode()])
  {
    hide Serves, RequestsOk, LaunchOk, Owned, Committed;
    SmallRequestsOk();
    SmallLaunchesOk();
    SmallServes(0);
    SmallServes(1);
  }

  lemma SmallRequestsOk()
    ensures RequestsOk(2, Whole, 2, 2, SmallRequests(), 2)
  {
    SmallRunLegal(0);
    SmallRunLegal(1);
    OnePoolOk(0);
    OnePoolOk(1);
    hide LegalRun, LayoutOk;
  }

  lemma OnePoolOk(slot: nat)
    requires slot < 2
    ensures LayoutOk(OnePool(slot), 2)
  {
  }

  lemma SmallRunLegal(r: nat)
    requires r < 2
    ensures LegalRun(2, SmallRequests()[r].events, 2)
  {
    var events := SmallRequests()[r].events;
    assert Committed(events, 0) == [];
    assert LegalRun(2, events, 0);
    assert LegalRun(2, events, 1);
  }

  lemma SmallLaunchesOk()
    ensures LaunchOk(2, 2, 2, SmallBatch()) && LaunchOk(2, 2, 2, SmallDecode())
    ensures Owned(SmallBatch(), 2) && Owned(SmallDecode(), 2)
  {
  }

  lemma SmallServes(r: nat)
    requires r < 2
    ensures var q := SmallRequests()[r];
            && LayoutOk(q.layout, 2)
            && Serves(q, r, 2, Committed(q.events, 0), q.events[0], SmallBatch())
            && Serves(q, r, 2, Committed(q.events, 1), q.events[1], SmallDecode())
  {
    OnePoolOk(r);
    var events := SmallRequests()[r].events;
    assert Committed(events, 0) == [];
    assert Committed(events, 1) == [] + events[0].Kept() == if r == 0 then [10, 11] else [20, 21, 22];
    hide Serves, LayoutOk, Committed;
    SmallBatchServes(r);
    SmallDecodeServes(r);
  }

  lemma SmallBatchServes(r: nat)
    requires r < 2
    ensures LayoutOk(OnePool(r), 2)
    ensures var q := SmallRequests()[r]; Serves(q, r, 2, [], q.events[0], SmallBatch())
  {
    OnePoolOk(r);
    var l, slot: int := OnePool(r), r;
    assert ChunkSlots(l, 2, 0, 0) == [];
    assert ChunkSlots(l, 2, 0, 1) == [-1];
    assert ChunkSlots(l, 2, 0, 2) == [-1, slot];
    assert ChunkSlots(l, 2, 0, 3) == [-1, slot, -1];
  }

  lemma SmallDecodeServes(r: nat)
    requires r < 2
    ensures LayoutOk(OnePool(r), 2)
    ensures var q := SmallRequests()[r];
            Serves(q, r, 2, if r == 0 then [10, 11] else [20, 21, 22], q.events[1], SmallDecode())
  {
    OnePoolOk(r);
    hide LayoutOk;
    var owners := SmallDecode().owners;
    assert Lanes(owners, r, 0) == 0;
    assert Lanes(owners, r, 1) == if r == 0 then 1 else 0;
    assert Lanes(owners, r, 2) == if r == 0 then 1 else 0;
    assert Lanes(owners, r, 3) == if r == 0 then 2 else 0;
  }
}
