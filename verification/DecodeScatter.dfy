/** Decode tokens of requests of different lengths, between the flat order and a padded grid. */
module DecodeScatter {
  import opened Arith

  // ---------------------------------------------------------------- the indices

  /** Tokens of the first `r` requests. */
  function Start(lens: seq<nat>, r: nat): nat
    requires r <= |lens|
  {
    if r == 0 then 0 else Start(lens, r - 1) + lens[r - 1]
  }

  /** Flat position of request `r`'s token `j`. */
  function Flat(lens: seq<nat>, r: nat, j: nat): nat
    requires r < |lens|
  {
    Start(lens, r) + j
  }

  /** Each entry repeated as often as its request has tokens. */
  function Repeat<T>(xs: seq<T>, lens: seq<nat>, n: nat): (r: seq<T>)
    requires |xs| == |lens| && n <= |lens|
    ensures |r| == Start(lens, n)
  {
    if n == 0 then [] else Repeat(xs, lens, n - 1) + seq(lens[n - 1], _ => xs[n - 1])
  }

  function RequestIds(lens: seq<nat>): (r: seq<nat>)
    ensures |r| == Start(lens, |lens|)
  {
    Repeat(Numbers(|lens|), lens, |lens|)
  }

  function Numbers(n: nat): (r: seq<nat>)
    ensures |r| == n
  {
    seq(n, i requires 0 <= i < n => i)
  }

  function Offsets(lens: seq<nat>): (r: seq<nat>)
    ensures |r| == |lens|
  {
    seq(|lens|, i requires 0 <= i < |lens| => Start(lens, i))
  }

  /** Position of a token inside its request: its flat position less its request's start. */
  function Intra(lens: seq<nat>): (r: seq<int>)
    ensures |r| == Start(lens, |lens|)
  {
    var starts := Repeat(Offsets(lens), lens, |lens|);
    seq(|starts|, i requires 0 <= i < |starts| => i - starts[i])
  }

  lemma {:induction false} StartMono(lens: seq<nat>, r: nat, q: nat)
    requires r <= q <= |lens|
    ensures Start(lens, r) <= Start(lens, q)
    ensures r < q ==> Start(lens, r) + lens[r] <= Start(lens, q)
  {
    if r < q { StartMono(lens, r, q - 1); }
  }

  lemma {:induction false} RepeatAt<T>(xs: seq<T>, lens: seq<nat>, n: nat, r: nat, j: nat)
    requires |xs| == |lens| && r < n <= |lens| && j < lens[r]
    ensures Start(lens, r) + j < Start(lens, n)
    ensures Repeat(xs, lens, n)[Start(lens, r) + j] == xs[r]
  {
    StartMono(lens, r, n);
    if r < n - 1 { RepeatAt(xs, lens, n - 1, r, j); }
  }

  /** The indices of a request's token are the request and the token's place in it. */
  lemma IndicesAt(lens: seq<nat>, r: nat, j: nat)
    requires r < |lens| && j < lens[r]
    ensures Start(lens, r) + j < Start(lens, |lens|)
    ensures RequestIds(lens)[Start(lens, r) + j] == r && Intra(lens)[Start(lens, r) + j] == j
  {
    RepeatAt(Numbers(|lens|), lens, |lens|, r, j);
    RepeatAt(Offsets(lens), lens, |lens|, r, j);
  }

  lemma {:induction false} Locate(lens: seq<nat>, i: nat, n: nat) returns (r: nat, j: nat)
    requires n <= |lens| && i < Start(lens, n)
    ensures r < n && j < lens[r] && i == Start(lens, r) + j
  {
    if i >= Start(lens, n - 1) {
      r, j := n - 1, i - Start(lens, n - 1);
    } else {
      r, j := Locate(lens, i, n - 1);
    }
  }

  /** The index pairs and the flat positions are the same thing: each token has a valid cell of its own
      request, and the cell gives back its flat position. */
  lemma {:induction false} IndicesInvert(lens: seq<nat>, i: nat)
    requires i < Start(lens, |lens|)
    ensures var r, j := RequestIds(lens)[i], Intra(lens)[i];
            r < |lens| && 0 <= j < lens[r] && Start(lens, r) + j == i
  {
    var r, j := Locate(lens, i, |lens|);
    IndicesAt(lens, r, j);
  }

  /** The request ids by what they are: every request as often as it has tokens, in order. A token's other index
      counts the earlier tokens of its request. */
  lemma IdsAre(lens: seq<nat>)
    ensures forall r :: 0 <= r < |lens| ==> multiset(RequestIds(lens))[r] == lens[r]
    ensures forall i, k :: 0 <= i < k < |RequestIds(lens)| ==> RequestIds(lens)[i] <= RequestIds(lens)[k]
    ensures forall i :: 0 <= i < |RequestIds(lens)| ==>
              multiset(RequestIds(lens)[..i])[RequestIds(lens)[i]] == Intra(lens)[i]
  {
    hide Intra;
    var ids := RequestIds(lens);
    assert ids[..|ids|] == ids;
    forall r | 0 <= r < |lens|
      ensures multiset(ids)[r] == lens[r]
    {
      StartMono(lens, r, |lens|);
      CountTo(lens, r, |ids|);
    }
    forall i | 0 <= i < |ids|
      ensures multiset(ids[..i])[ids[i]] == Intra(lens)[i]
    {
      IndicesInvert(lens, i);
      CountTo(lens, ids[i], i);
    }
    forall i, k | 0 <= i < k < |ids|
      ensures ids[i] <= ids[k]
    {
      IndicesInvert(lens, i);
      IndicesInvert(lens, k);
      if ids[k] < ids[i] { StartMono(lens, ids[k], ids[i]); }
    }
  }

  /** Tokens of request `r` among the first `n`. */
  lemma {:induction false} CountTo(lens: seq<nat>, r: nat, n: nat)
    requires r < |lens| && n <= |RequestIds(lens)|
    ensures multiset(RequestIds(lens)[..n])[r] == Clamped(n - Start(lens, r), lens[r])
  {
    hide RequestIds, Intra;
    if n > 0 {
      CountTo(lens, r, n - 1);
      IndicesInvert(lens, n - 1);
      var q := RequestIds(lens)[n - 1];
      assert RequestIds(lens)[..n] == RequestIds(lens)[..n - 1] + [q];
      if q < r { StartMono(lens, q, r); }
      if r < q { StartMono(lens, r, q); }
    }
  }

  ghost function Clamped(n: int, most: nat): nat {
    if n < 0 then 0 else if n < most then n else most
  }

  // ---------------------------------------------------------------- scatter and unpack

  /** The padded grid, cell by cell. */
  function Cell<T>(tokens: seq<T>, pad: T, lens: seq<nat>, r: nat, j: nat): T
    requires r < |lens| && |tokens| == Start(lens, |lens|)
  {
    if j < lens[r] then (StartMono(lens, r, |lens|); tokens[Flat(lens, r, j)]) else pad
  }

  /** Writes every token at its index pair into a grid full of padding. */
  method Scatter<T>(tokens: seq<T>, pad: T, lens: seq<nat>, lmax: nat, reqId: seq<nat>, intra: seq<int>)
    returns (out: array2<T>)
    requires |tokens| == Start(lens, |lens|) && reqId == RequestIds(lens) && intra == Intra(lens)
    requires forall r :: 0 <= r < |lens| ==> lens[r] <= lmax
    ensures fresh(out) && out.Length0 == |lens| && out.Length1 == lmax
    ensures forall r, j :: 0 <= r < |lens| && 0 <= j < lmax ==> out[r, j] == Cell(tokens, pad, lens, r, j)
    ensures forall i :: 0 <= i < |tokens| ==>
              reqId[i] < |lens| && 0 <= intra[i] < lens[reqId[i]] && out[reqId[i], intra[i]] == tokens[i]
    ensures forall r, j :: 0 <= r < |lens| && lens[r] <= j < lmax ==> out[r, j] == pad
  {
    out := new T[|lens|, lmax]((_, _) => pad);
    for i := 0 to |tokens|
      invariant forall r, j :: 0 <= r < |lens| && 0 <= j < lmax ==>
                  out[r, j] == if j < lens[r] && Flat(lens, r, j) < i then Cell(tokens, pad, lens, r, j) else pad
    {
      IndicesInvert(lens, i);
      forall r, j | 0 <= r < |lens| && 0 <= j < lens[r] && Flat(lens, r, j) == i
        ensures r == reqId[i] && j == intra[i]
      {
        IndicesAt(lens, r, j);
      }
      out[reqId[i], intra[i]] := tokens[i];
    }
    forall r, j | 0 <= r < |lens| && 0 <= j < lens[r]
      ensures Flat(lens, r, j) < |tokens|
    {
      StartMono(lens, r, |lens|);
    }
    forall i | 0 <= i < |tokens|
      ensures reqId[i] < |lens| && 0 <= intra[i] < lens[reqId[i]] && out[reqId[i], intra[i]] == tokens[i]
    {
      IndicesInvert(lens, i);
    }
  }

  /** Drops the padding: each request's own cells, request after request. */
  method Unpack<T>(grid: array2<T>, lens: seq<nat>, reqId: seq<nat>, intra: seq<int>) returns (tokens: seq<T>)
    requires reqId == RequestIds(lens) && intra == Intra(lens)
    requires grid.Length0 == |lens| && forall r :: 0 <= r < |lens| ==> lens[r] <= grid.Length1
    ensures |tokens| == Start(lens, |lens|)
    ensures forall i :: 0 <= i < |tokens| ==>
              reqId[i] < |lens| && 0 <= intra[i] < lens[reqId[i]]
              && tokens[i] == grid[reqId[i], intra[i]]
  {
    tokens := [];
    for i := 0 to |reqId|
      invariant |tokens| == i
      invariant forall k :: 0 <= k < i ==>
                  reqId[k] < |lens| && 0 <= intra[k] < lens[reqId[k]]
                  && tokens[k] == grid[reqId[k], intra[k]]
    {
      IndicesInvert(lens, i);
      tokens := tokens + [grid[reqId[i], intra[i]]];
    }
  }

  /** Scatter and then unpack gives the flat order back, for every vector of lengths. */
  method ScatterUnpack<T>(tokens: seq<T>, pad: T, lens: seq<nat>, lmax: nat) returns (back: seq<T>)
    requires |tokens| == Start(lens, |lens|) && forall r :: 0 <= r < |lens| ==> lens[r] <= lmax
    ensures back == tokens
  {
    hide RequestIds, Intra;
    var reqId, intra := RequestIds(lens), Intra(lens);
    var grid := Scatter(tokens, pad, lens, lmax, reqId, intra);
    back := Unpack(grid, lens, reqId, intra);
    forall i | 0 <= i < |back|
      ensures back[i] == tokens[i]
    {
      IndicesInvert(lens, i);
      assert grid[reqId[i], intra[i]] == Cell(tokens, pad, lens, reqId[i], intra[i]);
    }
  }

  // ---------------------------------------------------------------- sequence lengths of top-k rows

  /** Row `b * nextN + t` of the padded layout, or flat row of the uniform one: the token's position plus one. */
  method DecodeTopkSeqLens(positions: seq<int>, lens: seq<nat>, nextN: nat, requiresPadding: bool)
    returns (rows: seq<int>)
    requires Start(lens, |lens|) <= |positions|
    requires requiresPadding ==> forall r :: 0 <= r < |lens| ==> lens[r] <= nextN
    requires !requiresPadding ==> |lens| * nextN <= |positions|
    ensures |rows| == |lens| * nextN
    ensures !requiresPadding ==> forall i :: 0 <= i < |rows| ==> rows[i] == positions[i] + 1
    ensures requiresPadding ==> forall b, t :: 0 <= b < |lens| && 0 <= t < nextN ==>
              RowAt(rows, b, t, nextN, TokenLength(positions, lens, b, t))
    ensures requiresPadding ==> RowsFilled(positions, lens, nextN, rows)
  {
    hide RowsFilled;
    if !requiresPadding {
      return seq(|lens| * nextN, i requires 0 <= i < |lens| * nextN => positions[i] + 1);
    }
    var tokens := positions[..Start(lens, |lens|)];
    var grid := Scatter(tokens, -1, lens, nextN, RequestIds(lens), Intra(lens));
    rows := Reshape(grid);
    forall b, t | 0 <= b < |lens| && 0 <= t < nextN
      ensures RowAt(rows, b, t, nextN, TokenLength(positions, lens, b, t))
    {
      RowIsLength(positions, lens, grid[b, t], b, t);
      assert RowAt(rows, b, t, nextN, grid[b, t] + 1);
    }
    FillsRows(positions, lens, nextN, rows);
  }

  /** Each token's row, found by its indices, has its position plus one, and the rows that no token has are zero. */
  ghost predicate RowsFilled(positions: seq<int>, lens: seq<nat>, nextN: nat, rows: seq<int>) {
    && Start(lens, |lens|) <= |positions|
    && (forall i :: 0 <= i < Start(lens, |lens|) ==>
          RowAt(rows, RequestIds(lens)[i], Intra(lens)[i], nextN, positions[i] + 1))
    && (forall b, t :: 0 <= b < |lens| && lens[b] <= t < nextN ==> RowAt(rows, b, t, nextN, 0))
  }

  lemma FillsRows(positions: seq<int>, lens: seq<nat>, nextN: nat, rows: seq<int>)
    requires Start(lens, |lens|) <= |positions| && forall r :: 0 <= r < |lens| ==> lens[r] <= nextN
    requires forall b, t :: 0 <= b < |lens| && 0 <= t < nextN ==>
               RowAt(rows, b, t, nextN, TokenLength(positions, lens, b, t))
    ensures RowsFilled(positions, lens, nextN, rows)
  {
    hide RequestIds, Intra, RowAt;
    forall i | 0 <= i < Start(lens, |lens|)
      ensures RowAt(rows, RequestIds(lens)[i], Intra(lens)[i], nextN, positions[i] + 1)
    {
      IndicesInvert(lens, i);
      assert TokenLength(positions, lens, RequestIds(lens)[i], Intra(lens)[i]) == positions[i] + 1;
    }
    forall b, t | 0 <= b < |lens| && lens[b] <= t < nextN
      ensures RowAt(rows, b, t, nextN, 0)
    {
      assert TokenLength(positions, lens, b, t) == 0;
    }
  }

  /** Row after row, each entry plus one. */
  method Reshape(grid: array2<int>) returns (rows: seq<int>)
    ensures |rows| == grid.Length0 * grid.Length1
    ensures forall b, t :: 0 <= b < grid.Length0 && 0 <= t < grid.Length1 ==>
              RowAt(rows, b, t, grid.Length1, grid[b, t] + 1)
  {
    var width := grid.Length1;
    rows := [];
    for b := 0 to grid.Length0
      invariant |rows| == b * width
      invariant forall c, t :: 0 <= c < b && 0 <= t < width ==> RowAt(rows, c, t, width, grid[c, t] + 1)
    {
      ghost var before := rows;
      var row := seq(width, t requires 0 <= t < width reads grid => grid[b, t] + 1);
      rows := rows + row;
      Appended(before, row, b, width);
    }
  }

  lemma Appended(before: seq<int>, row: seq<int>, b: nat, width: nat)
    requires |before| == b * width && |row| == width
    ensures |before + row| == (b + 1) * width
    ensures forall c, t, v :: 0 <= c < b && 0 <= t < width && RowAt(before, c, t, width, v) ==>
              RowAt(before + row, c, t, width, v)
    ensures forall t :: 0 <= t < width ==> RowAt(before + row, b, t, width, row[t])
  {
    assert (b + 1) * width == b * width + width;
    MulMono(0, b, width);
  }

  /** Zero for a padding row. */
  function TokenLength(positions: seq<int>, lens: seq<nat>, b: nat, t: nat): int
    requires b < |lens| && Start(lens, |lens|) <= |positions|
  {
    if t < lens[b] then (StartMono(lens, b, |lens|); positions[Start(lens, b) + t] + 1) else 0
  }

  ghost predicate RowAt(rows: seq<int>, b: int, t: int, nextN: nat, length: int) {
    0 <= b * nextN + t < |rows| && rows[b * nextN + t] == length
  }

  lemma RowIsLength(positions: seq<int>, lens: seq<nat>, cell: int, b: nat, t: nat)
    requires Start(lens, |lens|) <= |positions| && b < |lens|
    requires cell == Cell(positions[..Start(lens, |lens|)], -1, lens, b, t)
    ensures cell + 1 == TokenLength(positions, lens, b, t)
  {
    if t < lens[b] { StartMono(lens, b, |lens|); }
  }

  lemma {:induction false} UniformStart(lens: seq<nat>, nextN: nat, r: nat)
    requires r <= |lens| && forall q :: 0 <= q < |lens| ==> lens[q] == nextN
    ensures Start(lens, r) == r * nextN
  {
    if r > 0 {
      UniformStart(lens, nextN, r - 1);
      assert r * nextN == (r - 1) * nextN + nextN;
    }
  }

  /** On a uniform batch both layouts agree: the padded row is the flat one. */
  lemma UniformAgrees(positions: seq<int>, lens: seq<nat>, nextN: nat, rows: seq<int>, b: nat, t: nat)
    requires Start(lens, |lens|) <= |positions| && b < |lens| && t < nextN
    requires forall q :: 0 <= q < |lens| ==> lens[q] == nextN
    requires RowAt(rows, b, t, nextN, TokenLength(positions, lens, b, t))
    ensures 0 <= b * nextN + t < |positions| && rows[b * nextN + t] == positions[b * nextN + t] + 1
  {
    UniformStart(lens, nextN, b);
    StartMono(lens, b, |lens|);
  }
}
