/** The concrete transition of the compact replay: a gated delta rule over one state of heads x rows x
    columns, run by programs that each own one tile of rows of one head. */
module DeltaRule {
  import opened Arith
  import opened KdaReplay
  import opened Vectors

  type Row = seq<real>

  /** One token's inputs for one head. */
  datatype Head = Head(k: Row, v: Row, gate: Row, beta: real)

  /** Sizes, the per-head bias (zero where the model has none), and the elementwise functions. */
  datatype Rule = Rule(heads: nat, rows: nat, columns: nat, bias: seq<Row>,
                       decay: (nat, real) -> real, scale: real -> real, sigmoid: real -> real)
  {
    ghost predicate Ok() {
      |bias| == heads && forall h :: 0 <= h < heads ==> |bias[h]| == columns
    }

    ghost predicate HeadOk(x: Head) {
      |x.k| == columns && |x.v| == rows && |x.gate| == columns
    }

    ghost predicate TokenOk(tok: seq<Head>) {
      |tok| == heads && forall h :: 0 <= h < heads ==> HeadOk(tok[h])
    }

    ghost predicate RowsOk(s: seq<Row>) {
      |s| == rows && forall r :: 0 <= r < rows ==> |s[r]| == columns
    }

    ghost predicate StateOk(s: seq<seq<Row>>) {
      |s| == heads && forall h :: 0 <= h < heads ==> RowsOk(s[h])
    }
  }

  // ---------------------------------------------------------------- one row, one token

  function Unit(scale: real -> real, k: Row): (r: Row)
    ensures |r| == |k|
  {
    seq(|k|, c requires 0 <= c < |k| => Prod(k[c], scale(Dot(k, k, |k|))))
  }

  function Decays(decay: (nat, real) -> real, h: nat, gate: Row, bias: Row): (r: Row)
    requires |gate| == |bias|
    ensures |r| == |gate|
  {
    seq(|gate|, c requires 0 <= c < |gate| => decay(h, gate[c] + bias[c]))
  }

  function Decayed(row: Row, d: Row): (r: Row)
    requires |row| == |d|
    ensures |r| == |row|
  {
    seq(|row|, c requires 0 <= c < |row| => Prod(row[c], d[c]))
  }

  function AddScaled(row: Row, e: real, k: Row): (r: Row)
    requires |row| == |k|
    ensures |r| == |row|
  {
    seq(|row|, c requires 0 <= c < |row| => row[c] + Prod(e, k[c]))
  }

  /** Decay the row, then move it towards `v` along `k`. */
  function RowStep(row: Row, k: Row, d: Row, v: real, beta: real): (r: Row)
    requires |row| == |k| == |d|
    ensures |r| == |row|
  {
    var faded := Decayed(row, d);
    AddScaled(faded, Prod(v - Dot(faded, k, |k|), beta), k)
  }

  ghost function TokenStep(p: Rule, h: nat, r: nat, row: Row, tok: seq<Head>): (s: Row)
    requires p.Ok() && p.TokenOk(tok) && h < p.heads && r < p.rows && |row| == p.columns
    ensures |s| == p.columns
  {
    var x := tok[h];
    RowStep(row, Unit(p.scale, x.k), Decays(p.decay, h, x.gate, p.bias[h]), x.v[r], p.sigmoid(x.beta))
  }

  /** The transition of a whole state, as the fold of `KdaReplay` takes it. */
  ghost function Delta(p: Rule): (seq<seq<Row>>, seq<Head>) -> seq<seq<Row>>
    requires p.Ok()
  {
    (s: seq<seq<Row>>, tok: seq<Head>) =>
      if p.StateOk(s) && p.TokenOk(tok) then
        seq(p.heads, h requires 0 <= h < p.heads =>
          seq(p.rows, r requires 0 <= r < p.rows => TokenStep(p, h, r, s[h][r], tok)))
      else s
  }

  ghost function RowFold(p: Rule, h: nat, r: nat, row: Row, toks: seq<seq<Head>>, n: nat): (s: Row)
    requires p.Ok() && h < p.heads && r < p.rows && |row| == p.columns && n <= |toks|
    requires forall t :: 0 <= t < |toks| ==> p.TokenOk(toks[t])
    ensures |s| == p.columns
  {
    if n == 0 then row else TokenStep(p, h, r, RowFold(p, h, r, row, toks, n - 1), toks[n - 1])
  }

  /** Rows never mix: the fold of the whole state is the fold of each row on its own. */
  lemma {:induction false} RowsEvolveAlone(p: Rule, s: seq<seq<Row>>, toks: seq<seq<Head>>, n: nat)
    requires p.Ok() && p.StateOk(s) && n <= |toks| && forall t :: 0 <= t < |toks| ==> p.TokenOk(toks[t])
    ensures p.StateOk(Fold(Delta(p), s, toks, n))
    ensures forall h, r :: 0 <= h < p.heads && 0 <= r < p.rows ==>
              Fold(Delta(p), s, toks, n)[h][r] == RowFold(p, h, r, s[h][r], toks, n)
  {
    hide TokenStep;
    if n > 0 {
      RowsEvolveAlone(p, s, toks, n - 1);
      var before, after := Fold(Delta(p), s, toks, n - 1), Fold(Delta(p), s, toks, n);
      assert after == Delta(p)(before, toks[n - 1]);
      forall h | 0 <= h < p.heads
        ensures p.RowsOk(after[h])
      {
      }
    }
  }

  // ---------------------------------------------------------------- what one token does, entry by entry

  /** The row after the token's own decay of each column. */
  ghost predicate IsFaded(p: Rule, h: nat, row: Row, x: Head, faded: Row)
    requires p.Ok() && h < p.heads && |row| == p.columns && p.HeadOk(x)
  {
    && |faded| == p.columns
    && forall c :: 0 <= c < p.columns ==> faded[c] == row[c] * p.decay(h, x.gate[c] + p.bias[h][c])
  }

  /** The key that the token reads and writes with: scaled by its own sum of squares. */
  ghost predicate IsKey(p: Rule, x: Head, key: Row)
    requires p.HeadOk(x)
  {
    |key| == p.columns && forall c :: 0 <= c < p.columns ==> key[c] == x.k[c] * p.scale(Dot(x.k, x.k, p.columns))
  }

  lemma DeltaAt(p: Rule, s: seq<seq<Row>>, tok: seq<Head>, h: nat, r: nat)
    requires p.Ok() && p.StateOk(s) && p.TokenOk(tok) && h < p.heads && r < p.rows
    ensures p.StateOk(Delta(p)(s, tok)) && |Delta(p)(s, tok)[h][r]| == p.columns
    ensures Delta(p)(s, tok)[h][r] == TokenStep(p, h, r, s[h][r], tok)
  {
    hide TokenStep;
    forall g | 0 <= g < p.heads
      ensures p.RowsOk(Delta(p)(s, tok)[g])
    {
    }
  }

  /** How far the token moves its row along the key: the weighted difference between the value and what the decayed row
      holds along that key. */
  ghost predicate IsMove(p: Rule, x: Head, r: nat, faded: Row, key: Row, e: real)
    requires p.HeadOk(x) && r < p.rows && |faded| == |key| == p.columns
  {
    e == (x.v[r] - Dot(faded, key, p.columns)) * p.sigmoid(x.beta)
  }

  /** What the token makes of row `r` of head `h`, by its parts. */
  ghost predicate AreParts(p: Rule, s: seq<seq<Row>>, tok: seq<Head>, h: nat, r: nat, faded: Row, key: Row, e: real)
    requires p.Ok() && p.StateOk(s) && p.TokenOk(tok) && h < p.heads && r < p.rows
  {
    p.HeadOk(tok[h]) && IsFaded(p, h, s[h][r], tok[h], faded) && IsKey(p, tok[h], key)
    && IsMove(p, tok[h], r, faded, key, e)
  }

  lemma EntryMoves(p: Rule, s: seq<seq<Row>>, tok: seq<Head>, h: nat, r: nat, faded: Row, key: Row, e: real)
    requires p.Ok() && p.StateOk(s) && p.TokenOk(tok) && h < p.heads && r < p.rows
    requires AreParts(p, s, tok, h, r, faded, key, e)
    ensures p.StateOk(Delta(p)(s, tok)) && |Delta(p)(s, tok)[h][r]| == |faded| == |key| == p.columns
    ensures forall c :: 0 <= c < p.columns ==> Delta(p)(s, tok)[h][r][c] == faded[c] + Prod(e, key[c])
  {
    hide Delta, Dot, TokenStep, AreParts, IsFaded, IsKey, IsMove, Prod;
    DeltaAt(p, s, tok, h, r);
    Parts(p, s, tok, h, r, faded, key, e);
    RowAfterToken(p, h, r, s[h][r], tok, faded, key, e);
  }

  /** One accepted token: every entry decays by its own column's factor, and then moves along the scaled key. */
  lemma EntryAfterToken(p: Rule, s: seq<seq<Row>>, tok: seq<Head>, h: nat, r: nat, faded: Row, key: Row, e: real)
    requires p.Ok() && p.StateOk(s) && p.TokenOk(tok) && h < p.heads && r < p.rows
    requires AreParts(p, s, tok, h, r, faded, key, e)
    ensures p.StateOk(Delta(p)(s, tok)) && |Delta(p)(s, tok)[h][r]| == |faded| == |key| == p.columns
    ensures forall c :: 0 <= c < p.columns ==> Delta(p)(s, tok)[h][r][c] == faded[c] + e * key[c]
  {
    hide *;
    EntryMoves(p, s, tok, h, r, faded, key, e);
    HeadRow(p, s, tok, h, r);
    forall c | 0 <= c < p.columns
      ensures Delta(p)(s, tok)[h][r][c] == faded[c] + e * key[c]
    {
      ProductIs(e, key[c]);
    }
  }

  lemma Parts(p: Rule, s: seq<seq<Row>>, tok: seq<Head>, h: nat, r: nat, faded: Row, key: Row, e: real)
    requires p.Ok() && p.StateOk(s) && p.TokenOk(tok) && h < p.heads && r < p.rows
    requires AreParts(p, s, tok, h, r, faded, key, e)
    ensures h < |tok| && p.HeadOk(tok[h]) && |faded| == |key| == p.columns
    ensures IsFaded(p, h, s[h][r], tok[h], faded) && IsKey(p, tok[h], key) && IsMove(p, tok[h], r, faded, key, e)
  {
    hide Dot;
  }

  lemma HeadRow(p: Rule, s: seq<seq<Row>>, tok: seq<Head>, h: nat, r: nat)
    requires p.Ok() && p.StateOk(s) && p.TokenOk(tok) && h < p.heads && r < p.rows
    requires p.StateOk(Delta(p)(s, tok))
    ensures h < |tok| && h < |Delta(p)(s, tok)| && r < |Delta(p)(s, tok)[h]|
  {
    hide Delta;
  }

  lemma RowAfterToken(p: Rule, h: nat, r: nat, row: Row, tok: seq<Head>, faded: Row, key: Row, e: real)
    requires p.Ok() && p.TokenOk(tok) && h < p.heads && r < p.rows && |row| == p.columns && p.HeadOk(tok[h])
    requires IsFaded(p, h, row, tok[h], faded) && IsKey(p, tok[h], key) && IsMove(p, tok[h], r, faded, key, e)
    ensures |faded| == |key| == p.columns
    ensures forall c :: 0 <= c < p.columns ==> TokenStep(p, h, r, row, tok)[c] == faded[c] + Prod(e, key[c])
  {
    hide *;
    Sizes(p, h, row, tok, faded, key);
    StepFrom(p, h, r, row, tok, faded, key, e);
    MovedAlong(faded, e, key);
  }

  lemma Sizes(p: Rule, h: nat, row: Row, tok: seq<Head>, faded: Row, key: Row)
    requires p.Ok() && p.TokenOk(tok) && h < p.heads && |row| == p.columns && p.HeadOk(tok[h])
    requires IsFaded(p, h, row, tok[h], faded) && IsKey(p, tok[h], key)
    ensures h < |tok| && |tok[h].v| == p.rows && |faded| == |key| == p.columns
  {
  }

  lemma StepFrom(p: Rule, h: nat, r: nat, row: Row, tok: seq<Head>, faded: Row, key: Row, e: real)
    requires p.Ok() && p.TokenOk(tok) && h < p.heads && r < p.rows && |row| == p.columns && p.HeadOk(tok[h])
    requires IsFaded(p, h, row, tok[h], faded) && IsKey(p, tok[h], key) && IsMove(p, tok[h], r, faded, key, e)
    ensures |faded| == |key| && TokenStep(p, h, r, row, tok) == AddScaled(faded, e, key)
  {
    hide Dot, Decayed, Decays, Unit, IsFaded, IsKey, IsMove, AddScaled, Prod;
    Sizes(p, h, row, tok, faded, key);
    FadedRow(p, h, row, tok[h], faded);
    KeyRow(p, tok[h], key);
    MoveIs(p, tok[h], r, faded, key, e);
  }

  lemma MoveIs(p: Rule, x: Head, r: nat, faded: Row, key: Row, e: real)
    requires p.HeadOk(x) && r < p.rows && |faded| == |key| == p.columns && IsMove(p, x, r, faded, key, e)
    ensures r < |x.v| && e == Prod(x.v[r] - Dot(faded, key, p.columns), p.sigmoid(x.beta))
  {
    hide Dot, Prod;
    ProductIs(x.v[r] - Dot(faded, key, p.columns), p.sigmoid(x.beta));
  }

  lemma ProductIs(a: real, b: real)
    ensures Prod(a, b) == a * b
  {
  }

  lemma MovedAlong(row: Row, e: real, key: Row)
    requires |row| == |key|
    ensures forall c :: 0 <= c < |row| ==> AddScaled(row, e, key)[c] == row[c] + Prod(e, key[c])
  {
    hide Prod;
  }

  lemma FadedRow(p: Rule, h: nat, row: Row, x: Head, faded: Row)
    requires p.Ok() && h < p.heads && |row| == p.columns && p.HeadOk(x) && IsFaded(p, h, row, x, faded)
    ensures Decayed(row, Decays(p.decay, h, x.gate, p.bias[h])) == faded
  {
    var d := Decays(p.decay, h, x.gate, p.bias[h]);
    assert forall c :: 0 <= c < p.columns ==> Decayed(row, d)[c] == faded[c];
  }

  lemma KeyRow(p: Rule, x: Head, key: Row)
    requires p.HeadOk(x) && IsKey(p, x, key)
    ensures Unit(p.scale, x.k) == key
  {
    hide Dot;
    assert forall c :: 0 <= c < p.columns ==> Unit(p.scale, x.k)[c] == key[c];
  }

  lemma SomeParts(p: Rule, s: seq<seq<Row>>, tok: seq<Head>, h: nat, r: nat) returns (faded: Row, key: Row, e: real)
    requires p.Ok() && p.StateOk(s) && p.TokenOk(tok) && h < p.heads && r < p.rows
    ensures AreParts(p, s, tok, h, r, faded, key, e)
  {
    hide Dot;
    var x, row := tok[h], s[h][r];
    faded := seq(p.columns, c requires 0 <= c < p.columns => row[c] * p.decay(h, x.gate[c] + p.bias[h][c]));
    key := seq(p.columns, c requires 0 <= c < p.columns => x.k[c] * p.scale(Dot(x.k, x.k, p.columns)));
    e := (x.v[r] - Dot(faded, key, p.columns)) * p.sigmoid(x.beta);
  }

  /** The token's weight is zero, or its key is. */
  ghost predicate WritesNothing(p: Rule, x: Head) {
    p.sigmoid(x.beta) == 0.0 || forall c :: 0 <= c < |x.k| ==> x.k[c] == 0.0
  }

  /** Such a token only decays the state. */
  lemma OnlyDecays(p: Rule, s: seq<seq<Row>>, tok: seq<Head>, h: nat, r: nat, c: nat)
    requires p.Ok() && p.StateOk(s) && p.TokenOk(tok) && h < p.heads && r < p.rows && c < p.columns
    requires p.HeadOk(tok[h]) && WritesNothing(p, tok[h])
    ensures p.StateOk(Delta(p)(s, tok)) && |Delta(p)(s, tok)[h][r]| == p.columns
    ensures Delta(p)(s, tok)[h][r][c] == s[h][r][c] * p.decay(h, tok[h].gate[c] + p.bias[h][c])
  {
    hide Delta, Dot, AreParts, Prod;
    var faded, key, e := SomeParts(p, s, tok, h, r);
    EntryMoves(p, s, tok, h, r, faded, key, e);
    Parts(p, s, tok, h, r, faded, key, e);
    NoMove(p, tok[h], r, faded, key, e, c);
  }

  lemma NoMove(p: Rule, x: Head, r: nat, faded: Row, key: Row, e: real, c: nat)
    requires p.HeadOk(x) && r < p.rows && |faded| == |key| == p.columns && c < p.columns
    requires IsMove(p, x, r, faded, key, e) && IsKey(p, x, key) && WritesNothing(p, x)
    ensures Prod(e, key[c]) == 0.0
  {
    hide Dot, Prod, IsMove, IsKey;
    MoveIs(p, x, r, faded, key, e);
    ProdZero(x.v[r] - Dot(faded, key, p.columns));
    ProdZero(key[c]);
    ProdZero(e);
    if p.sigmoid(x.beta) != 0.0 { ZeroKey(p, x, key, c); }
  }

  lemma ZeroKey(p: Rule, x: Head, key: Row, c: nat)
    requires p.HeadOk(x) && c < p.columns && IsKey(p, x, key) && x.k[c] == 0.0
    ensures key[c] == 0.0
  {
    hide Dot;
    ZeroTimes(p.scale(Dot(x.k, x.k, p.columns)), x.k[c]);
  }

  /** What `n` tokens' decays leave of column `c`. */
  ghost function Fade(p: Rule, h: nat, c: nat, toks: seq<seq<Head>>, n: nat): real
    requires p.Ok() && TokensOk(p, toks) && n <= |toks| && h < p.heads && c < p.columns
  {
    if n == 0 then 1.0
    else
      assert p.TokenOk(toks[n - 1]) && p.HeadOk(toks[n - 1][h]);
      Fade(p, h, c, toks, n - 1) * p.decay(h, toks[n - 1][h].gate[c] + p.bias[h][c])
  }

  /** So over any number of tokens that write nothing an entry is multiplied by all their decays. */
  lemma {:induction false} FadesOverRun(p: Rule, s: seq<seq<Row>>, toks: seq<seq<Head>>, n: nat, h: nat, r: nat, c: nat)
    requires p.Ok() && p.StateOk(s) && TokensOk(p, toks) && n <= |toks| && h < p.heads && r < p.rows && c < p.columns
    requires forall t :: 0 <= t < n ==> p.TokenOk(toks[t]) && WritesNothing(p, toks[t][h])
    ensures p.StateOk(Fold(Delta(p), s, toks, n)) && |Fold(Delta(p), s, toks, n)[h][r]| == p.columns
    ensures Fold(Delta(p), s, toks, n)[h][r][c] == s[h][r][c] * Fade(p, h, c, toks, n)
  {
    hide Delta, WritesNothing;
    if n > 0 {
      FadesOverRun(p, s, toks, n - 1, h, r, c);
      assert p.HeadOk(toks[n - 1][h]);
      OnlyDecays(p, Fold(Delta(p), s, toks, n - 1), toks[n - 1], h, r, c);
      Regroup(s[h][r][c], Fade(p, h, c, toks, n - 1), p.decay(h, toks[n - 1][h].gate[c] + p.bias[h][c]));
    }
  }

  lemma Regroup(a: real, b: real, c: real)
    ensures (a * b) * c == a * (b * c)
  {
  }

  /** Along any direction orthogonal to the key the token leaves the decayed row alone, whatever it writes. */
  lemma OrthogonalUntouched(p: Rule, s: seq<seq<Row>>, tok: seq<Head>, h: nat, r: nat, faded: Row, key: Row, e: real,
                            y: Row)
    requires p.Ok() && p.StateOk(s) && p.TokenOk(tok) && h < p.heads && r < p.rows
    requires AreParts(p, s, tok, h, r, faded, key, e) && |y| == |key| == p.columns && Dot(key, y, p.columns) == 0.0
    ensures p.StateOk(Delta(p)(s, tok)) && |Delta(p)(s, tok)[h][r]| == |faded| == p.columns
    ensures Dot(Delta(p)(s, tok)[h][r], y, p.columns) == Dot(faded, y, p.columns)
  {
    hide *;
    EntryMoves(p, s, tok, h, r, faded, key, e);
    HeadRow(p, s, tok, h, r);
    DotMoved(Delta(p)(s, tok)[h][r], faded, e, key, y, p.columns);
    ProdZero(e);
  }

  lemma ZeroTimes(e: real, x: real)
    ensures x == 0.0 ==> e * x == 0.0
  {
  }

  lemma {:induction false} DotMoved(now: Row, was: Row, e: real, key: Row, y: Row, n: nat)
    requires n <= |now| && n <= |was| && n <= |key| && n <= |y|
    requires forall c :: 0 <= c < n ==> now[c] == was[c] + Prod(e, key[c])
    ensures Dot(now, y, n) == Dot(was, y, n) + Prod(e, Dot(key, y, n))
  {
    hide Prod;
    if n == 0 {
      ProdZero(e);
    } else {
      DotMoved(now, was, e, key, y, n - 1);
      MovedTerm(now[n - 1], was[n - 1], e, key[n - 1], y[n - 1], Dot(key, y, n - 1));
    }
  }

  lemma MovedTerm(now: real, was: real, e: real, key: real, y: real, dot: real)
    requires now == was + Prod(e, key)
    ensures Prod(now, y) + Prod(e, dot) == Prod(was, y) + Prod(e, dot + Prod(key, y))
  {
    hide Prod;
    ProdAdd(was, Prod(e, key), y);
    ProdSwap(Prod(e, key), y);
    ProdRegroup(y, e, key);
    ProdSwap(y, key);
    ProdAdd(dot, Prod(key, y), e);
    ProdSwap(dot, e);
    ProdSwap(Prod(key, y), e);
    ProdSwap(dot + Prod(key, y), e);
  }

  /** The rule writes: along its key the row moves from what it held by the weighted difference times the key's squared
      length, so with a unit key and weight one it then holds exactly the value. */
  lemma TokenReadsBack(p: Rule, s: seq<seq<Row>>, tok: seq<Head>, h: nat, r: nat, faded: Row, key: Row, e: real)
    requires p.Ok() && p.StateOk(s) && p.TokenOk(tok) && h < p.heads && r < p.rows
    requires AreParts(p, s, tok, h, r, faded, key, e)
    ensures p.StateOk(Delta(p)(s, tok)) && |Delta(p)(s, tok)[h][r]| == |faded| == |key| == p.columns
    ensures var norm, back := Dot(key, key, p.columns), Dot(Delta(p)(s, tok)[h][r], key, p.columns);
            && back == Dot(faded, key, p.columns) + e * norm
            && (p.sigmoid(tok[h].beta) == 1.0 && norm == 1.0 ==> back == tok[h].v[r])
  {
    hide *;
    EntryMoves(p, s, tok, h, r, faded, key, e);
    HeadRow(p, s, tok, h, r);
    Parts(p, s, tok, h, r, faded, key, e);
    ProductIs(e, Dot(key, key, p.columns));
    DotMoved(Delta(p)(s, tok)[h][r], faded, e, key, key, p.columns);
    WholeMove(p, tok[h], r, faded, key, e, Dot(key, key, p.columns));
  }

  lemma WholeMove(p: Rule, x: Head, r: nat, faded: Row, key: Row, e: real, norm: real)
    requires p.HeadOk(x) && r < p.rows && |faded| == |key| == p.columns && IsMove(p, x, r, faded, key, e)
    ensures r < |x.v|
    ensures p.sigmoid(x.beta) == 1.0 && norm == 1.0 ==> Dot(faded, key, p.columns) + e * norm == x.v[r]
  {
    hide Dot, Prod, IsMove;
    MoveIs(p, x, r, faded, key, e);
    ProdOne(x.v[r] - Dot(faded, key, p.columns));
    TimesOne(e, norm);
  }

  lemma TimesOne(e: real, x: real)
    ensures x == 1.0 ==> e * x == e
  {
  }

  // ---------------------------------------------------------------- lanes that pad a row

  /** Lanes past the row are loaded as zero. */
  function Pad(x: Row, lanes: nat): (r: Row)
    requires |x| <= lanes
    ensures |r| == lanes
  {
    x + seq(lanes - |x|, _ => 0.0)
  }

  lemma {:induction false} DotZeros(x: Row, y: Row, m: nat, n: nat)
    requires m <= n <= |x| && n <= |y| && forall c :: m <= c < n ==> y[c] == 0.0
    ensures Dot(x, y, n) == Dot(x, y, m)
  {
    hide Prod;
    if m < n {
      DotZeros(x, y, m, n - 1);
      ProdZero(x[n - 1]);
    }
  }

  lemma PadDecayed(row: Row, d: Row, pads: Row, lanes: nat)
    requires |row| == |d| && |row| + |pads| == lanes
    ensures Decayed(Pad(row, lanes), d + pads) == Pad(Decayed(row, d), lanes)
  {
    hide Prod;
    var wide, narrow := Decayed(Pad(row, lanes), d + pads), Pad(Decayed(row, d), lanes);
    forall c | 0 <= c < lanes
      ensures wide[c] == narrow[c]
    {
      if c >= |row| { ProdZero((d + pads)[c]); }
    }
  }

  lemma PadAddScaled(row: Row, e: real, k: Row, lanes: nat)
    requires |row| == |k| <= lanes
    ensures AddScaled(Pad(row, lanes), e, Pad(k, lanes)) == Pad(AddScaled(row, e, k), lanes)
  {
    hide Prod;
    ProdZero(e);
    var wide, narrow := AddScaled(Pad(row, lanes), e, Pad(k, lanes)), Pad(AddScaled(row, e, k), lanes);
    assert forall c :: 0 <= c < lanes ==> wide[c] == narrow[c];
  }

  lemma PadDot(x: Row, k: Row, lanes: nat)
    requires |x| == |k| <= lanes
    ensures Dot(Pad(x, lanes), Pad(k, lanes), lanes) == Dot(x, k, |k|)
  {
    var pads: Row := seq(lanes - |k|, _ => 0.0);
    DotZeros(Pad(x, lanes), Pad(k, lanes), |k|, lanes);
    DotPrefix(x, pads, k, pads, |k|);
    assert Pad(x, lanes) == x + pads && Pad(k, lanes) == k + pads;
  }

  /** Whatever the padding lanes of the state's decay are, the padded row evolves as the row does. */
  lemma PadStep(row: Row, k: Row, d: Row, pads: Row, v: real, beta: real, lanes: nat)
    requires |row| == |k| == |d| && |row| + |pads| == lanes
    ensures RowStep(Pad(row, lanes), Pad(k, lanes), d + pads, v, beta) == Pad(RowStep(row, k, d, v, beta), lanes)
  {
    hide Dot, Decayed, AddScaled, Prod, Pad;
    var faded := Decayed(row, d);
    PadDecayed(row, d, pads, lanes);
    PadDot(faded, k, lanes);
    PadAddScaled(faded, Prod(v - Dot(faded, k, |k|), beta), k, lanes);
  }

  lemma PadUnit(scale: real -> real, k: Row, lanes: nat)
    requires |k| <= lanes
    ensures Unit(scale, Pad(k, lanes)) == Pad(Unit(scale, k), lanes)
  {
    hide Prod, Dot;
    PadDot(k, k, lanes);
    ProdZero(scale(Dot(k, k, |k|)));
    var wide, narrow := Unit(scale, Pad(k, lanes)), Pad(Unit(scale, k), lanes);
    assert forall c :: 0 <= c < lanes ==> wide[c] == narrow[c];
  }

  // ---------------------------------------------------------------- tiles

  function Tiles(p: Rule, bv: Pos): nat { (p.rows + bv - 1) / bv }

  /** The grid has as many programs a head as its rows need, none of them idle. */
  lemma TilesFit(p: Rule, bv: Pos)
    ensures (Tiles(p, bv) - 1) * bv < p.rows <= Tiles(p, bv) * bv
  {
    var n := Tiles(p, bv);
    assert p.rows + bv - 1 == n * bv + (p.rows + bv - 1) % bv;
    assert (n - 1) * bv == n * bv - bv;
  }

  function HeadOf(p: Rule, bv: Pos, pid: nat): nat
    requires Tiles(p, bv) > 0
  {
    pid / Tiles(p, bv)
  }

  function FirstRow(p: Rule, bv: Pos, pid: nat): nat
    requires Tiles(p, bv) > 0
  {
    pid % Tiles(p, bv) * bv
  }

  /** Row `r` of head `h` lies in program `pid`'s tile. */
  ghost predicate InTile(p: Rule, bv: Pos, pid: nat, h: nat, r: nat) {
    && h < p.heads && r < p.rows && Tiles(p, bv) > 0
    && HeadOf(p, bv, pid) == h && FirstRow(p, bv, pid) <= r < FirstRow(p, bv, pid) + bv
  }

  ghost function OwnerOf(p: Rule, bv: Pos, h: nat, r: nat): nat { h * Tiles(p, bv) + r / bv }

  /** Every row of every head belongs to exactly one program of the grid. */
  lemma TilesPartition(p: Rule, bv: Pos, h: nat, r: nat)
    requires h < p.heads && r < p.rows
    ensures OwnerOf(p, bv, h, r) < p.heads * Tiles(p, bv)
    ensures forall pid: nat :: InTile(p, bv, pid, h, r) <==> pid == OwnerOf(p, bv, h, r)
  {
    var tiles := Tiles(p, bv);
    assert r == r / bv * bv + r % bv;
    DivMono(r + bv, p.rows + bv - 1, bv);
    DivModUnique(r + bv, bv, r / bv + 1, r % bv) by { assert (r / bv + 1) * bv == r / bv * bv + bv; }
    assert r / bv < tiles;
    MulGap(h, p.heads, tiles);
    DivModUnique(OwnerOf(p, bv, h, r), tiles, h, r / bv);
    forall pid: nat
      ensures InTile(p, bv, pid, h, r) <==> pid == OwnerOf(p, bv, h, r)
    {
      if InTile(p, bv, pid, h, r) {
        var i := pid % tiles;
        DivModUnique(r, bv, i, r - i * bv);
        assert pid == pid / tiles * tiles + i;
      }
    }
  }

  /** The state table's one slot: heads x rows, each a row of columns. */
  ghost predicate SlotOk(p: Rule, state: array2<Row>)
    reads state
  {
    && state.Length0 == p.heads && state.Length1 == p.rows
    && forall h, r :: 0 <= h < p.heads && 0 <= r < p.rows ==> |state[h, r]| == p.columns
  }

  ghost predicate TokensOk(p: Rule, toks: seq<seq<Head>>) {
    forall t :: 0 <= t < |toks| ==> p.TokenOk(toks[t])
  }

  /** One program: load the tile with its masked lanes, fold the accepted tokens, store the real rows. */
  method Program(p: Rule, state: array2<Row>, toks: seq<seq<Head>>, accepted: nat, bk: nat, bv: Pos, pid: nat)
    requires p.Ok() && SlotOk(p, state) && TokensOk(p, toks) && accepted <= |toks| && p.columns <= bk
    requires Tiles(p, bv) > 0 && HeadOf(p, bv, pid) < p.heads
    modifies state
    ensures SlotOk(p, state)
    ensures forall h, r :: 0 <= h < p.heads && 0 <= r < p.rows ==>
              state[h, r] == if InTile(p, bv, pid, h, r) then RowFold(p, h, r, old(state[h, r]), toks, accepted)
                else old(state[h, r])
  {
    hide RowFold, HeadOf, FirstRow, Tiles;
    var h, first := HeadOf(p, bv, pid), FirstRow(p, bv, pid);
    for i := 0 to bv
      invariant SlotOk(p, state)
      invariant forall g, r :: 0 <= g < p.heads && 0 <= r < p.rows ==>
                  state[g, r] ==
                  if g == h && first <= r < first + i then RowFold(p, g, r, old(state[g, r]), toks, accepted)
                                 else old(state[g, r])
    {
      if first + i < p.rows {
        var lane := LaneFold(p, h, first + i, state[h, first + i], toks, accepted, bk);
        state[h, first + i] := lane[..p.columns];
      }
    }
  }

  /** One lane row of the tile through the token loop, on `bk` lanes. */
  method LaneFold(p: Rule, h: nat, r: nat, row: Row, toks: seq<seq<Head>>, accepted: nat, bk: nat) returns (lane: Row)
    requires p.Ok() && TokensOk(p, toks) && h < p.heads && r < p.rows && |row| == p.columns <= bk && accepted <= |toks|
    ensures lane == Pad(RowFold(p, h, r, row, toks, accepted), bk)
    ensures lane[..p.columns] == RowFold(p, h, r, row, toks, accepted)
  {
    lane := Pad(row, bk);
    for t := 0 to accepted
      invariant lane == Pad(RowFold(p, h, r, row, toks, t), bk)
    {
      var x := toks[t][h];
      assert p.TokenOk(toks[t]) && p.HeadOk(x);
      ghost var before := RowFold(p, h, r, row, toks, t);
      var k := Unit(p.scale, Pad(x.k, bk));
      var d := Decays(p.decay, h, Pad(x.gate, bk), Pad(p.bias[h], bk));
      LaneIsRow(p, h, x, bk, d);
      PadStep(before, Unit(p.scale, x.k), Decays(p.decay, h, x.gate, p.bias[h]), d[p.columns..], x.v[r],
              p.sigmoid(x.beta), bk);
      lane := RowStep(lane, k, d, x.v[r], p.sigmoid(x.beta));
    }
  }

  lemma LaneIsRow(p: Rule, h: nat, x: Head, bk: nat, d: Row)
    requires p.Ok() && p.HeadOk(x) && h < p.heads && p.columns <= bk
    requires d == Decays(p.decay, h, Pad(x.gate, bk), Pad(p.bias[h], bk))
    ensures Unit(p.scale, Pad(x.k, bk)) == Pad(Unit(p.scale, x.k), bk)
    ensures d == Decays(p.decay, h, x.gate, p.bias[h]) + d[p.columns..]
  {
    PadUnit(p.scale, x.k, bk);
    var narrow := Decays(p.decay, h, x.gate, p.bias[h]);
    assert d[..p.columns] == narrow;
  }

  ghost function Contents(p: Rule, state: array2<Row>): (s: seq<seq<Row>>)
    requires SlotOk(p, state)
    reads state
    ensures p.StateOk(s)
  {
    var s := seq(p.heads, h requires 0 <= h < p.heads reads state =>
      seq(p.rows, r requires 0 <= r < p.rows reads state => state[h, r]));
    assert forall h :: 0 <= h < p.heads ==> p.RowsOk(s[h]);
    s
  }

  ghost predicate Done(p: Rule, s: seq<seq<Row>>, now: seq<seq<Row>>, toks: seq<seq<Head>>, accepted: nat, bv: Pos,
                       pid: nat)
    requires p.Ok() && p.StateOk(s) && p.StateOk(now) && TokensOk(p, toks) && accepted <= |toks|
  {
    forall h, r :: 0 <= h < p.heads && 0 <= r < p.rows ==>
      now[h][r] == if OwnerOf(p, bv, h, r) < pid then RowFold(p, h, r, s[h][r], toks, accepted) else s[h][r]
  }

  lemma AllDone(p: Rule, s: seq<seq<Row>>, now: seq<seq<Row>>, toks: seq<seq<Head>>, accepted: nat, bv: Pos)
    requires p.Ok() && p.StateOk(s) && p.StateOk(now) && TokensOk(p, toks) && accepted <= |toks|
    requires Done(p, s, now, toks, accepted, bv, p.heads * Tiles(p, bv))
    ensures now == Fold(Delta(p), s, toks, accepted)
  {
    hide Fold, RowFold, Delta;
    RowsEvolveAlone(p, s, toks, accepted);
    var end := Fold(Delta(p), s, toks, accepted);
    forall h, r | 0 <= h < p.heads && 0 <= r < p.rows
      ensures now[h][r] == end[h][r]
    {
      TilesPartition(p, bv, h, r);
    }
    forall h | 0 <= h < p.heads
      ensures now[h] == end[h]
    {
      assert p.RowsOk(now[h]) && p.RowsOk(end[h]);
    }
  }

  lemma OneMoreTile(p: Rule, s: seq<seq<Row>>, before: seq<seq<Row>>, now: seq<seq<Row>>, toks: seq<seq<Head>>,
                    accepted: nat, bv: Pos, pid: nat)
    requires p.Ok() && p.StateOk(s) && p.StateOk(before) && p.StateOk(now) && TokensOk(p, toks) && accepted <= |toks|
    requires Done(p, s, before, toks, accepted, bv, pid)
    requires forall h, r :: 0 <= h < p.heads && 0 <= r < p.rows ==>
               now[h][r] == if InTile(p, bv, pid, h, r) then RowFold(p, h, r, before[h][r], toks, accepted)
                 else before[h][r]
    ensures Done(p, s, now, toks, accepted, bv, pid + 1)
  {
    hide RowFold, InTile, OwnerOf;
    forall h, r | 0 <= h < p.heads && 0 <= r < p.rows
      ensures now[h][r] == if OwnerOf(p, bv, h, r) < pid + 1 then RowFold(p, h, r, s[h][r], toks, accepted) else s[h][r]
    {
      TilesPartition(p, bv, h, r);
      assert InTile(p, bv, pid, h, r) <==> pid == OwnerOf(p, bv, h, r);
    }
  }

  /** All programs of one sequence: for every tile height and lane count, the slot ends at the fold. */
  method Launch(p: Rule, state: array2<Row>, toks: seq<seq<Head>>, accepted: nat, bk: nat, bv: Pos)
    requires p.Ok() && SlotOk(p, state) && TokensOk(p, toks) && accepted <= |toks| && p.columns <= bk
    modifies state
    ensures SlotOk(p, state)
    ensures Contents(p, state) == Fold(Delta(p), old(Contents(p, state)), toks, accepted)
  {
    hide Fold, RowFold, Delta, InTile, OwnerOf;
    ghost var start := Contents(p, state);
    var tiles := Tiles(p, bv);
    for pid := 0 to p.heads * tiles
      invariant SlotOk(p, state)
      invariant Done(p, start, Contents(p, state), toks, accepted, bv, pid)
    {
      PidInGrid(pid, p.heads, tiles);
      ghost var before := Contents(p, state);
      Program(p, state, toks, accepted, bk, bv, pid);
      OneMoreTile(p, start, before, Contents(p, state), toks, accepted, bv, pid);
    }
    AllDone(p, start, Contents(p, state), toks, accepted, bv);
  }

  lemma PidInGrid(pid: nat, heads: nat, tiles: nat)
    requires pid < heads * tiles
    ensures tiles > 0 && pid / tiles < heads
  {
    assert tiles > 0;
    assert pid == pid / tiles * tiles + pid % tiles;
    if pid / tiles >= heads { MulMono(heads, pid / tiles, tiles); }
  }
}
