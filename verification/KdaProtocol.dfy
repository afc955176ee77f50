/** Snapshot protocol and compact replay protocol side by side, over whole runs of verify-and-accept. */
module KdaProtocol {
  import opened Arith
  import opened KdaReplay

  // ---------------------------------------------------------------- one launch, sequence by sequence

  /** No two sequences that do anything share a slot. */
  ghost predicate SlotsApart(idx: seq<int>) {
    forall j, k :: 0 <= j < k < |idx| && idx[j] > 0 ==> idx[j] != idx[k]
  }

  lemma {:induction false} ReplayUntouched<S, T>(step: (S, T) -> S, slots: seq<S>, toks: seq<T>, cu: seq<int>,
                                                 idx: seq<int>, acc: seq<int>, n: nat, x: nat)
    requires MetaOk(cu, idx, |toks|, |slots|) && |acc| == |idx| && n <= |idx| && x < |slots|
    requires forall j :: 0 <= j < n ==> idx[j] != x || x == 0
    ensures ReplayAll(step, slots, toks, cu, idx, acc, n)[x] == slots[x]
  {
    if n > 0 { ReplayUntouched(step, slots, toks, cu, idx, acc, n - 1, x); }
  }

  /** Each live slot ends at the fold of its own accepted prefix, whatever the other sequences do. */
  lemma {:induction false} ReplayAt<S, T>(step: (S, T) -> S, slots: seq<S>, toks: seq<T>, cu: seq<int>, idx: seq<int>,
                                          acc: seq<int>, n: nat, j: nat)
    requires MetaOk(cu, idx, |toks|, |slots|) && |acc| == |idx| && SlotsApart(idx) && j < n <= |idx| && idx[j] > 0
    ensures ReplayAll(step, slots, toks, cu, idx, acc, n)[idx[j]]
              == ReplayOne(step, slots, toks, cu[j], cu[j + 1], idx[j], acc[j])[idx[j]]
  {
    if j == n - 1 {
      ReplayUntouched(step, slots, toks, cu, idx, acc, j, idx[j]);
    } else {
      ReplayAt(step, slots, toks, cu, idx, acc, n - 1, j);
    }
  }

  /** Stale rows of the fixed-size buffers do not matter: only tokens inside some live sequence do. */
  lemma {:induction false} StaleRowsIgnored<S, T>(step: (S, T) -> S, slots: seq<S>, toks: seq<T>, toks': seq<T>,
                                                  live: nat, cu: seq<int>, idx: seq<int>, acc: seq<int>, n: nat)
    requires MetaOk(cu, idx, |toks|, |slots|) && |toks| == |toks'| && |acc| == |idx| && n <= |idx|
    requires live <= |toks| && toks[..live] == toks'[..live] && cu[|idx|] <= live
    ensures ReplayAll(step, slots, toks, cu, idx, acc, n) == ReplayAll(step, slots, toks', cu, idx, acc, n)
  {
    if n > 0 {
      StaleRowsIgnored(step, slots, toks, toks', live, cu, idx, acc, n - 1);
      assert cu[n] <= cu[|idx|];
      assert toks[cu[n - 1]..cu[n]] == toks[..live][cu[n - 1]..cu[n]] == toks'[cu[n - 1]..cu[n]];
    }
  }

  /** Compaction routes each request's sampled count to its own staged sequence. */
  lemma {:induction false} SelectRoutes<A>(xs: seq<A>, mask: seq<bool>, n: nat, r: nat)
    requires r < n <= |xs| && n <= |mask| && mask[r]
    ensures Rank(mask, r) < Rank(mask, n)
    ensures Select(xs, mask, n)[Rank(mask, r)] == xs[r]
  {
    if r < n - 1 { SelectRoutes(xs, mask, n - 1, r); }
  }

  /** The whole commit of one launch, per request: the `r`-th request, staged as sequence `Rank(mask, r)`
      with its slot there, ends at the fold of its sampled prefix; slots of nobody are unchanged. */
  lemma CommitPerRequest<S, T>(step: (S, T) -> S, slots: seq<S>, toks: seq<T>, cu: seq<int>, idx: seq<int>,
                               sampled: seq<int>, mask: seq<bool>, acc: seq<int>, r: nat)
    requires MetaOk(cu, idx, |toks|, |slots|) && SlotsApart(idx) && |mask| == |idx| && |sampled| <= |idx|
    requires |acc| == |idx| && Select(sampled, mask, |sampled|) <= acc
    requires r < |sampled| && mask[r] && idx[Rank(mask, r)] > 0
    requires var j := Rank(mask, r); 1 <= sampled[r] <= cu[j + 1] - cu[j]
    ensures var j := Rank(mask, r);
            && j < |idx|
            && ReplayAll(step, slots, toks, cu, idx, acc, |idx|)[idx[j]]
               == Fold(step, slots[idx[j]], toks[cu[j]..cu[j + 1]], sampled[r])
  {
    var j := Rank(mask, r);
    SelectRoutes(sampled, mask, |sampled|, r);
    assert acc[j] == sampled[r];
    ReplayAt(step, slots, toks, cu, idx, acc, |idx|, j);
  }

  // ---------------------------------------------------------------- the two protocols

  /** The original protocol: request `r` owns a row of slots, one per draft position, and resumes from
      column `prev[r] - 1`. */
  datatype Snapshots<S> = Snapshots(slots: seq<S>, rows: seq<seq<nat>>, prev: seq<nat>)

  /** The compact protocol: request `r` owns the one slot `home[r]`. */
  datatype Compact<S> = Compact(slots: seq<S>, home: seq<nat>)

  /** One verification with its sampled count, or the move of a running state to fresh slots. */
  datatype Op<T> = Verify(req: nat, draft: seq<T>, accepted: nat) | Migrate(req: nat, row: seq<nat>, home: nat)

  /** Columns `0 .. n - 1` receive the state after each draft token; the null slot is skipped. */
  ghost function Store<S, T>(step: (S, T) -> S, slots: seq<S>, s: S, row: seq<nat>, draft: seq<T>, n: nat): (r: seq<S>)
    requires n <= |draft| && n <= |row| && forall t :: 0 <= t < |row| ==> row[t] < |slots|
    ensures |r| == |slots|
  {
    if n == 0 then slots
    else
      var before := Store(step, slots, s, row, draft, n - 1);
      if row[n - 1] > 0 then before[row[n - 1] := Fold(step, s, draft, n)] else before
  }

  ghost predicate ColumnsOk(row: seq<nat>, slots: nat) {
    && row != []
    && (forall t :: 0 <= t < |row| ==> 0 < row[t] < slots)
    && (forall t, u :: 0 <= t < u < |row| ==> row[t] != row[u])
  }

  ghost predicate RowsApart(a: seq<nat>, b: seq<nat>) {
    forall t, u :: 0 <= t < |a| && 0 <= u < |b| ==> a[t] != b[u]
  }

  ghost predicate SnapshotsOk<S>(a: Snapshots<S>) {
    && |a.prev| == |a.rows|
    && (forall r :: 0 <= r < |a.rows| ==> ColumnsOk(a.rows[r], |a.slots|) && 1 <= a.prev[r] <= |a.rows[r]|)
    && (forall r, q :: 0 <= r < |a.rows| && 0 <= q < |a.rows| && r != q ==> RowsApart(a.rows[r], a.rows[q]))
  }

  ghost predicate CompactOk<S>(c: Compact<S>) {
    && (forall r :: 0 <= r < |c.home| ==> 0 < c.home[r] < |c.slots|)
    && (forall r, q :: 0 <= r < q < |c.home| ==> c.home[r] != c.home[q])
  }

  /** The state a request resumes from, in each protocol. */
  ghost function Resumed<S>(a: Snapshots<S>, r: nat): S
    requires SnapshotsOk(a) && r < |a.rows|
  {
    a.slots[a.rows[r][a.prev[r] - 1]]
  }

  ghost function Home<S>(c: Compact<S>, r: nat): S
    requires CompactOk(c) && r < |c.home|
  {
    c.slots[c.home[r]]
  }

  ghost predicate OpOk<S, T>(a: Snapshots<S>, c: Compact<S>, op: Op<T>)
    requires |a.rows| == |c.home|
  {
    op.req < |a.rows| &&
    match op
    case Verify(req, draft, accepted) => 1 <= accepted <= |draft| <= |a.rows[req]|
    case Migrate(req, row, home) =>
      && ColumnsOk(row, |a.slots|) && 0 < home < |c.slots|
      && (forall q :: 0 <= q < |a.rows| && q != req ==>
            RowsApart(row, a.rows[q]) && RowsApart(a.rows[q], row) && home != c.home[q])
  }

  ghost function SnapshotStep<S, T>(step: (S, T) -> S, a: Snapshots<S>, op: Op<T>): Snapshots<S>
    requires SnapshotsOk(a) && op.req < |a.rows| && (op.Verify? ==> |op.draft| <= |a.rows[op.req]|)
    requires op.Migrate? ==> ColumnsOk(op.row, |a.slots|)
  {
    var s := Resumed(a, op.req);
    match op
    case Verify(req, draft, accepted) =>
      Snapshots(Store(step, a.slots, s, a.rows[req], draft, |draft|), a.rows, a.prev[req := accepted])
    case Migrate(req, row, _) =>
      Snapshots(a.slots[row[0] := s], a.rows[req := row], a.prev[req := 1])
  }

  /** Verification writes nothing; the commit replays the accepted prefix into the home slot. */
  ghost function CompactStep<S, T>(step: (S, T) -> S, c: Compact<S>, op: Op<T>): Compact<S>
    requires CompactOk(c) && op.req < |c.home| && (op.Verify? ==> 1 <= op.accepted <= |op.draft|)
    requires op.Migrate? ==> 0 < op.home < |c.slots|
  {
    match op
    case Verify(req, draft, accepted) => c.(slots := c.slots[c.home[req] := Fold(step, Home(c, req), draft, accepted)])
    case Migrate(req, _, home) => Compact(c.slots[home := Home(c, req)], c.home[req := home])
  }

  /** Both protocols resume every request from the same state. */
  ghost predicate Refines<S>(a: Snapshots<S>, c: Compact<S>) {
    && SnapshotsOk(a) && CompactOk(c) && |a.rows| == |c.home|
    && forall r :: 0 <= r < |a.rows| ==> Home(c, r) == Resumed(a, r)
  }

  lemma {:induction false} StoreAt<S, T>(step: (S, T) -> S, slots: seq<S>, s: S, row: seq<nat>, draft: seq<T>, n: nat,
                                         t: nat)
    requires t < n <= |draft| && n <= |row| && ColumnsOk(row, |slots|)
    ensures Store(step, slots, s, row, draft, n)[row[t]] == Fold(step, s, draft, t + 1)
  {
    if t < n - 1 { StoreAt(step, slots, s, row, draft, n - 1, t); }
  }

  lemma {:induction false} StoreElsewhere<S, T>(step: (S, T) -> S, slots: seq<S>, s: S, row: seq<nat>, draft: seq<T>,
                                                n: nat, x: nat)
    requires n <= |draft| && n <= |row| && ColumnsOk(row, |slots|) && x < |slots|
    requires forall t :: 0 <= t < |row| ==> row[t] != x
    ensures Store(step, slots, s, row, draft, n)[x] == slots[x]
  {
    if n > 0 { StoreElsewhere(step, slots, s, row, draft, n - 1, x); }
  }

  /** After a verification the original protocol resumes exactly at the accepted prefix. */
  lemma VerifyResumes<S, T>(step: (S, T) -> S, a: Snapshots<S>, op: Op<T>, r: nat)
    requires SnapshotsOk(a) && op.Verify? && op.req < |a.rows| && 1 <= op.accepted <= |op.draft| <= |a.rows[op.req]|
    requires r < |a.rows|
    ensures SnapshotsOk(SnapshotStep(step, a, op))
    ensures Resumed(SnapshotStep(step, a, op), r) ==
            if r == op.req then Fold(step, Resumed(a, r), op.draft, op.accepted) else Resumed(a, r)
  {
    var row := a.rows[op.req];
    if r == op.req {
      StoreAt(step, a.slots, Resumed(a, r), row, op.draft, |op.draft|, op.accepted - 1);
    } else {
      assert RowsApart(row, a.rows[r]);
      StoreElsewhere(step, a.slots, Resumed(a, op.req), row, op.draft, |op.draft|, a.rows[r][a.prev[r] - 1]);
    }
  }

  lemma MigrateResumes<S, T>(step: (S, T) -> S, a: Snapshots<S>, c: Compact<S>, op: Op<T>, r: nat)
    requires Refines(a, c) && OpOk(a, c, op) && op.Migrate? && r < |a.rows|
    ensures SnapshotsOk(SnapshotStep(step, a, op)) && CompactOk(CompactStep(step, c, op))
    ensures Resumed(SnapshotStep(step, a, op), r) == Resumed(a, r)
    ensures Home(CompactStep(step, c, op), r) == Home(c, r)
  {
  }

  /** Every operation keeps the refinement. */
  lemma StepRefines<S, T>(step: (S, T) -> S, a: Snapshots<S>, c: Compact<S>, op: Op<T>)
    requires Refines(a, c) && OpOk(a, c, op)
    ensures Refines(SnapshotStep(step, a, op), CompactStep(step, c, op))
  {
    var a', c' := SnapshotStep(step, a, op), CompactStep(step, c, op);
    forall r | 0 <= r < |a.rows|
      ensures SnapshotsOk(a') && CompactOk(c') && Home(c', r) == Resumed(a', r)
    {
      if op.Verify? { VerifyResumes(step, a, op, r); } else { MigrateResumes(step, a, c, op, r); }
    }
  }

  ghost predicate Possible<S, T>(a: Snapshots<S>, c: Compact<S>, op: Op<T>) {
    SnapshotsOk(a) && CompactOk(c) && |a.rows| == |c.home| && OpOk(a, c, op)
  }

  /** The two protocols driven by the same `n` operations; an operation that is not possible in the
      current tables is never issued, so it changes nothing. */
  ghost function RunBoth<S, T>(step: (S, T) -> S, a: Snapshots<S>, c: Compact<S>, ops: seq<Op<T>>,
                               n: nat): (Snapshots<S>, Compact<S>)
    requires n <= |ops|
  {
    if n == 0 then (a, c)
    else
      var (x, y) := RunBoth(step, a, c, ops, n - 1);
      if Possible(x, y, ops[n - 1]) then (SnapshotStep(step, x, ops[n - 1]), CompactStep(step, y, ops[n - 1]))
        else (x, y)
  }

  /** Over every run, each request's one committed state is the snapshot it would have resumed from. */
  lemma {:induction false} CompactRefinesSnapshots<S, T>(step: (S, T) -> S, a: Snapshots<S>, c: Compact<S>,
                                                         ops: seq<Op<T>>, n: nat)
    requires n <= |ops| && Refines(a, c)
    ensures var (x, y) := RunBoth(step, a, c, ops, n); Refines(x, y)
  {
    if n > 0 {
      CompactRefinesSnapshots(step, a, c, ops, n - 1);
      var (x, y) := RunBoth(step, a, c, ops, n - 1);
      if Possible(x, y, ops[n - 1]) { StepRefines(step, x, y, ops[n - 1]); }
    }
  }

  /** The tokens that request `r` has accepted in the first `n` operations. */
  ghost function Accepted<T>(ops: seq<Op<T>>, r: nat, n: nat): seq<T>
    requires n <= |ops|
  {
    if n == 0 then [] else Accepted(ops, r, n - 1) + NewlyAccepted(ops[n - 1], r)
  }

  ghost function NewlyAccepted<T>(op: Op<T>, r: nat): seq<T> {
    if op.Verify? && op.req == r && op.accepted <= |op.draft| then op.draft[..op.accepted] else []
  }

  ghost predicate AllPossible<S, T>(step: (S, T) -> S, a: Snapshots<S>, c: Compact<S>, ops: seq<Op<T>>, n: nat)
    requires n <= |ops|
  {
    forall i :: 0 <= i < n ==>
      var (x, y) := RunBoth(step, a, c, ops, i); Possible(x, y, ops[i])
  }

  /** And what both protocols hold for a request is the fold of all the tokens it ever accepted, over every run of
      operations that are possible when they come, whatever was drafted, rejected and migrated in between. */
  lemma {:induction false} HoldsAcceptedFold<S, T>(step: (S, T) -> S, a: Snapshots<S>, c: Compact<S>, ops: seq<Op<T>>,
                                                   n: nat, r: nat)
    requires n <= |ops| && Refines(a, c) && r < |a.rows| && AllPossible(step, a, c, ops, n)
    ensures var (x, y) := RunBoth(step, a, c, ops, n);
            && Refines(x, y) && r < |x.rows| == |a.rows|
            && Resumed(x, r) == Home(y, r) == Fold(step, Resumed(a, r), Accepted(ops, r, n), |Accepted(ops, r, n)|)
  {
    hide *;
    RefinesParts(a, c);
    if n == 0 {
      NothingAccepted(step, a, c, ops, r);
    } else {
      FewerPossible(step, a, c, ops, n);
      HoldsAcceptedFold(step, a, c, ops, n - 1, r);
      NextFolds(step, a, c, ops, n, r);
      var before, more := Accepted(ops, r, n - 1), NewlyAccepted(ops[n - 1], r);
      FoldJoin(step, Resumed(a, r), before, more, |more|);
    }
  }

  lemma RefinesParts<S>(a: Snapshots<S>, c: Compact<S>)
    requires Refines(a, c)
    ensures SnapshotsOk(a) && CompactOk(c) && |a.rows| == |c.home|
  {
  }

  lemma FewerPossible<S, T>(step: (S, T) -> S, a: Snapshots<S>, c: Compact<S>, ops: seq<Op<T>>, n: nat)
    requires 0 < n <= |ops| && AllPossible(step, a, c, ops, n)
    ensures AllPossible(step, a, c, ops, n - 1)
  {
    hide RunBoth, Possible;
  }

  lemma NothingAccepted<S, T>(step: (S, T) -> S, a: Snapshots<S>, c: Compact<S>, ops: seq<Op<T>>, r: nat)
    requires Refines(a, c) && r < |a.rows|
    ensures RunBoth(step, a, c, ops, 0) == (a, c) && Accepted(ops, r, 0) == []
    ensures Resumed(a, r) == Home(c, r) == Fold(step, Resumed(a, r), [], 0)
  {
  }

  lemma NextFolds<S, T>(step: (S, T) -> S, a: Snapshots<S>, c: Compact<S>, ops: seq<Op<T>>, n: nat, r: nat)
    requires 0 < n <= |ops| && AllPossible(step, a, c, ops, n)
    requires var (x, y) := RunBoth(step, a, c, ops, n - 1); Refines(x, y) && r < |x.rows|
    ensures var (x, y), (x', y') := RunBoth(step, a, c, ops, n - 1), RunBoth(step, a, c, ops, n);
            var more := NewlyAccepted(ops[n - 1], r);
            && Refines(x', y') && |x'.rows| == |x.rows|
            && Resumed(x', r) == Home(y', r) == Fold(step, Resumed(x, r), more, |more|)
    ensures Accepted(ops, r, n) == Accepted(ops, r, n - 1) + NewlyAccepted(ops[n - 1], r)
  {
    hide Refines, SnapshotStep, CompactStep, NewlyAccepted, Fold, Resumed, Home, Possible;
    var (x, y) := RunBoth(step, a, c, ops, n - 1);
    RefinesParts(x, y);
    StepFolds(step, x, y, ops[n - 1], r);
  }

  lemma StepFolds<S, T>(step: (S, T) -> S, a: Snapshots<S>, c: Compact<S>, op: Op<T>, r: nat)
    requires Refines(a, c) && Possible(a, c, op) && r < |a.rows|
    ensures var x, y, more := SnapshotStep(step, a, op), CompactStep(step, c, op), NewlyAccepted(op, r);
            && Refines(x, y) && |x.rows| == |a.rows|
            && Resumed(x, r) == Home(y, r) == Fold(step, Resumed(a, r), more, |more|)
  {
    StepRefines(step, a, c, op);
    if op.Verify? {
      VerifyResumes(step, a, op, r);
      hide SnapshotStep, CompactStep;
      FoldPrefix(step, Resumed(a, r), op.draft, op.accepted, op.accepted);
    } else {
      MigrateResumes(step, a, c, op, r);
    }
  }

  lemma {:induction false} FoldPrefix<S, T>(step: (S, T) -> S, s: S, toks: seq<T>, k: nat, n: nat)
    requires n <= k <= |toks|
    ensures Fold(step, s, toks[..k], n) == Fold(step, s, toks, n)
  {
    if n > 0 { FoldPrefix(step, s, toks, k, n - 1); }
  }

  lemma {:induction false} FoldJoin<S, T>(step: (S, T) -> S, s: S, xs: seq<T>, ys: seq<T>, n: nat)
    requires n <= |ys|
    ensures Fold(step, s, xs + ys, |xs| + n) == Fold(step, Fold(step, s, xs, |xs|), ys, n)
  {
    if n == 0 {
      assert (xs + ys)[..|xs|] == xs;
      FoldPrefix(step, s, xs + ys, |xs|, |xs|);
    } else {
      FoldJoin(step, s, xs, ys, n - 1);
    }
  }

  // ---------------------------------------------------------------- a launch is a run of compact steps

  /** A staged sequence that carries out one verification. */
  ghost predicate IsJob<S, T>(c: Compact<S>, op: Op<T>, toks: seq<T>, bos: int, eos: int, slot: int, acc: int) {
    && op.Verify? && op.req < |c.home| && slot == c.home[op.req] && acc == op.accepted
    && 0 <= bos <= eos <= |toks| && op.draft == toks[bos..eos] && 1 <= acc <= eos - bos
  }

  ghost predicate CommitOk<S, T>(c: Compact<S>, op: Op<T>) {
    op.Verify? && op.req < |c.home| && 1 <= op.accepted <= |op.draft|
  }

  ghost predicate AllCommits<S, T>(c: Compact<S>, ops: seq<Op<T>>) {
    forall j :: 0 <= j < |ops| ==> CommitOk(c, ops[j])
  }

  /** Every operation has its own staged sequence. */
  ghost predicate Jobs<S, T>(c: Compact<S>, ops: seq<Op<T>>, toks: seq<T>, cu: seq<int>, idx: seq<int>, acc: seq<int>) {
    && |cu| == |idx| + 1 && |acc| == |idx| && |ops| <= |idx|
    && forall j :: 0 <= j < |ops| ==> IsJob(c, ops[j], toks, cu[j], cu[j + 1], idx[j], acc[j])
  }

  lemma JobsAreCommits<S, T>(c: Compact<S>, ops: seq<Op<T>>, toks: seq<T>, cu: seq<int>, idx: seq<int>, acc: seq<int>)
    requires Jobs(c, ops, toks, cu, idx, acc)
    ensures AllCommits(c, ops)
  {
    forall j | 0 <= j < |ops|
      ensures CommitOk(c, ops[j])
    {
      assert IsJob(c, ops[j], toks, cu[j], cu[j + 1], idx[j], acc[j]);
    }
  }

  ghost function Commits<S, T>(step: (S, T) -> S, c: Compact<S>, ops: seq<Op<T>>, n: nat): (r: Compact<S>)
    requires CompactOk(c) && n <= |ops| && AllCommits(c, ops)
    ensures CompactOk(r) && r.home == c.home && |r.slots| == |c.slots|
  {
    if n == 0 then c
    else
      assert CommitOk(c, ops[n - 1]);
      CompactStep(step, Commits(step, c, ops, n - 1), ops[n - 1])
  }

  lemma LastCommit<S, T>(step: (S, T) -> S, c: Compact<S>, d: Compact<S>, op: Op<T>, toks: seq<T>, bos: int, eos: int,
                         slot: int, acc: int)
    requires CompactOk(d) && d.home == c.home && IsJob(c, op, toks, bos, eos, slot, acc)
    ensures CommitOk(d, op) && 0 <= bos <= eos <= |toks| && slot < |d.slots|
    ensures ReplayOne(step, d.slots, toks, bos, eos, slot, acc) == CompactStep(step, d, op).slots
  {
  }

  /** Sequences `0 .. |ops| - 1` of a launch are verifications and the rest is padding: the launch is
      the compact steps one after another. */
  lemma {:induction false} LaunchIsCommits<S, T>(step: (S, T) -> S, c: Compact<S>, ops: seq<Op<T>>, toks: seq<T>,
                                                 cu: seq<int>, idx: seq<int>, acc: seq<int>, n: nat)
    requires MetaOk(cu, idx, |toks|, |c.slots|) && CompactOk(c) && Jobs(c, ops, toks, cu, idx, acc) && n <= |ops|
    ensures AllCommits(c, ops)
    ensures ReplayAll(step, c.slots, toks, cu, idx, acc, n) == Commits(step, c, ops, n).slots
  {
    hide Fold, ReplayOne, CompactStep, AllCommits, IsJob, CompactOk;
    JobsAreCommits(c, ops, toks, cu, idx, acc);
    if n > 0 {
      LaunchIsCommits(step, c, ops, toks, cu, idx, acc, n - 1);
      LastCommit(step, c, Commits(step, c, ops, n - 1), ops[n - 1], toks, cu[n - 1], cu[n], idx[n - 1], acc[n - 1]);
    }
  }

  lemma {:induction false} PaddingIsIdle<S, T>(step: (S, T) -> S, slots: seq<S>, toks: seq<T>, cu: seq<int>,
                                               idx: seq<int>, acc: seq<int>, live: nat, n: nat)
    requires MetaOk(cu, idx, |toks|, |slots|) && |acc| == |idx| && live <= n <= |idx|
    requires forall j :: live <= j < |idx| ==> acc[j] <= 0 || idx[j] <= 0
    ensures ReplayAll(step, slots, toks, cu, idx, acc, n) == ReplayAll(step, slots, toks, cu, idx, acc, live)
  {
    if live < n { PaddingIsIdle(step, slots, toks, cu, idx, acc, live, n - 1); }
  }

  // ---------------------------------------------------------------- from staging to commit

  /** One launch as the layer is given it: tokens, offsets and slots of the live sequences, the mask, and the sampled
      counts of the requests. */
  datatype Staged<T> = Staged(toks: seq<T>, cuSeqlens: seq<int>, slots: seq<int>, mask: seq<bool>, sequences: nat,
                              sampled: seq<int>)

  ghost predicate StagedOk<T>(g: Staged<T>, max: nat, slots: nat) {
    && g.sequences + 1 <= |g.cuSeqlens| && g.sequences <= |g.slots| && g.sequences <= max
    && |g.mask| <= max && |g.sampled| <= |g.mask|
    && (forall j :: 0 <= j <= g.sequences ==> 0 <= g.cuSeqlens[j] <= |g.toks|)
    && (forall j, k :: 0 <= j < k <= g.sequences ==> g.cuSeqlens[j] <= g.cuSeqlens[k])
    && (forall j :: 0 <= j < g.sequences ==> g.slots[j] < slots)
  }

  /** The counts of the masked requests, one for each staged sequence. */
  ghost function Counts<T>(g: Staged<T>): seq<int>
    requires |g.sampled| <= |g.mask|
  {
    Select(g.sampled, g.mask, |g.sampled|)
  }

  /** Staged sequence `j` carries out `ops[j]`. */
  ghost predicate Carries<S, T>(c: Compact<S>, g: Staged<T>, ops: seq<Op<T>>)
    requires |g.sampled| <= |g.mask| && g.sequences + 1 <= |g.cuSeqlens| && g.sequences <= |g.slots|
  {
    && |ops| == g.sequences == |Counts(g)|
    && forall j :: 0 <= j < g.sequences ==>
         IsJob(c, ops[j], g.toks, g.cuSeqlens[j], g.cuSeqlens[j + 1], g.slots[j], Counts(g)[j])
  }

  lemma {:induction false} SelectPads<A>(xs: seq<A>, mask: seq<bool>, longer: seq<bool>, n: nat)
    requires n <= |xs| && n <= |mask| <= |longer| && longer[..|mask|] == mask
    ensures Select(xs, mask, n) == Select(xs, longer, n)
  {
    if n > 0 {
      SelectPads(xs, mask, longer, n - 1);
      assert longer[n - 1] == longer[..|mask|][n - 1];
    }
  }

  lemma StagedMeta<T>(g: Staged<T>, max: nat, slots: Pos, buffer: nat)
    requires StagedOk(g, max, slots) && |g.toks| <= buffer
    ensures MetaOk(StagedCu(g.cuSeqlens, g.sequences, |g.toks|, max), StagedSlots(g.slots, g.sequences, max), buffer,
                   slots)
  {
  }

  lemma StagedJobs<S, T>(c: Compact<S>, g: Staged<T>, ops: seq<Op<T>>, max: nat, buffer: seq<T>)
    requires CompactOk(c) && StagedOk(g, max, |c.slots|) && Carries(c, g, ops)
    requires |g.toks| <= |buffer| && buffer[..|g.toks|] == g.toks && |Counts(g)| <= max
    ensures Jobs(c, ops, buffer, StagedCu(g.cuSeqlens, g.sequences, |g.toks|, max),
                 StagedSlots(g.slots, g.sequences, max), PaddedCounts(Counts(g), max))
  {
    forall j | 0 <= j < |ops|
      ensures IsJob(c, ops[j], buffer, g.cuSeqlens[j], g.cuSeqlens[j + 1], g.slots[j], Counts(g)[j])
    {
      assert IsJob(c, ops[j], g.toks, g.cuSeqlens[j], g.cuSeqlens[j + 1], g.slots[j], Counts(g)[j]);
      assert buffer[g.cuSeqlens[j]..g.cuSeqlens[j + 1]] == buffer[..|g.toks|][g.cuSeqlens[j]..g.cuSeqlens[j + 1]];
    }
  }

  /** Staging and then the post-sampling commit: whatever older rows the buffers still hold, the replay over all
      their sequences is exactly the compact commits of the launch's requests. */
  lemma StagedCommit<S, T>(step: (S, T) -> S, c: Compact<S>, g: Staged<T>, ops: seq<Op<T>>, max: nat, buffer: seq<T>)
    requires CompactOk(c) && |c.slots| > 0 && StagedOk(g, max, |c.slots|) && Carries(c, g, ops)
    requires |g.toks| <= |buffer| && buffer[..|g.toks|] == g.toks
    ensures AllCommits(c, ops) && |Counts(g)| <= max
    ensures var cu := StagedCu(g.cuSeqlens, g.sequences, |g.toks|, max);
            var idx := StagedSlots(g.slots, g.sequences, max);
            && MetaOk(cu, idx, |buffer|, |c.slots|)
            && Select(g.sampled, StagedMask(g.mask, max), |g.sampled|) == Counts(g)
            && ReplayAll(step, c.slots, buffer, cu, idx, PaddedCounts(Counts(g), max), max)
               == Commits(step, c, ops, |ops|).slots
  {
    hide Select, ReplayAll, Commits, IsJob;
    var cu, idx := StagedCu(g.cuSeqlens, g.sequences, |g.toks|, max), StagedSlots(g.slots, g.sequences, max);
    var acc := PaddedCounts(Counts(g), max);
    StagedMeta(g, max, |c.slots|, |buffer|);
    StagedJobs(c, g, ops, max, buffer);
    assert StagedMask(g.mask, max)[..|g.mask|] == g.mask;
    SelectPads(g.sampled, g.mask, StagedMask(g.mask, max), |g.sampled|);
    assert Select(g.sampled, StagedMask(g.mask, max), |g.sampled|) == Counts(g);
    assert forall j :: |ops| <= j < max ==> acc[j] == 0;
    hide *;
    LaunchIsCommits(step, c, ops, buffer, cu, idx, acc, |ops|);
    PaddingIsIdle(step, c.slots, buffer, cu, idx, acc, |ops|, max);
  }
}
