/** The packed-weight addresses one expert pass copies: tiles dealt to blocks in slices, 256 copies a tile. */
module WeightAddresses {
  import opened Arith

  // ---------------------------------------------------------------- one address

  /** Address of copy `t` of tile `tile`, for `tk` tiles along K and `tn` along N. */
  function Address(tk: Pos, tn: Pos, tile: nat, t: nat): int
    requires t < 256
  {
    var kt, nt, localK, localN := tile % tk, tile / tk, t / 128, t % 128;
    var blocksN := 16 * tn;
    kt * (blocksN * 2 * 64) / 8 + nt * (16 * 64) / 8 + localK * (blocksN * 64 / 8) + localN
  }

  /** The copy that an address comes from: its tile, and its number inside the tile. */
  ghost function TileOf(tk: Pos, tn: Pos, a: nat): nat {
    a / 128 % tn * tk + a / 128 / tn / 2
  }

  ghost function CopyOf(tn: Pos, a: nat): nat {
    a / 128 / tn % 2 * 128 + a % 128
  }

  /** An address by its coordinates: K tile, half of it, N tile, position. */
  ghost function Place(tn: Pos, kt: nat, localK: nat, nt: nat, localN: nat): int {
    ((2 * kt + localK) * tn + nt) * 128 + localN
  }

  lemma AddressForm(tk: Pos, tn: Pos, tile: nat, t: nat)
    requires t < 256
    ensures Address(tk, tn, tile, t) == Place(tn, tile % tk, t / 128, tile / tk, t % 128)
  {
    var kt, nt, localK, localN := tile % tk, tile / tk, t / 128, t % 128;
    assert kt * ((16 * tn) * 2 * 64) == (256 * (kt * tn)) * 8;
    assert nt * (16 * 64) == (128 * nt) * 8;
    assert (16 * tn) * 64 == (128 * tn) * 8;
    assert localK * (128 * tn) == 128 * (localK * tn);
    assert (2 * kt + localK) * tn == 2 * (kt * tn) + localK * tn;
  }

  lemma PlaceParts(tn: Pos, kt: nat, localK: nat, nt: nat, localN: nat)
    requires localK < 2 && nt < tn && localN < 128
    ensures var a := Place(tn, kt, localK, nt, localN);
            0 <= a && a % 128 == localN && a / 128 % tn == nt && a / 128 / tn == 2 * kt + localK
  {
    var row := 2 * kt + localK;
    MulMono(0, row, tn);
    DivModUnique(Place(tn, kt, localK, nt, localN), 128, row * tn + nt, localN);
    DivModUnique(row * tn + nt, tn, row, nt);
  }

  lemma PlaceInTensor(tk: Pos, tn: Pos, kt: nat, localK: nat, nt: nat, localN: nat)
    requires kt < tk && localK < 2 && nt < tn && localN < 128
    ensures Place(tn, kt, localK, nt, localN) < 256 * (tk * tn)
  {
    MulGap(2 * kt + localK, 2 * tk, tn);
    assert (2 * tk) * tn == 2 * (tk * tn);
  }

  lemma TileInGrid(tk: Pos, tn: Pos, tile: nat)
    requires tile < tk * tn
    ensures tile / tk < tn && tile / tk * tk + tile % tk == tile
  {
    if tile / tk >= tn { MulMono(tn, tile / tk, tk); }
  }

  lemma PlaceDecoded(tk: Pos, tn: Pos, kt: nat, localK: nat, nt: nat, localN: nat)
    requires localK < 2 && nt < tn && localN < 128
    ensures var a := Place(tn, kt, localK, nt, localN);
            0 <= a && TileOf(tk, tn, a) == nt * tk + kt && CopyOf(tn, a) == localK * 128 + localN
  {
    PlaceParts(tn, kt, localK, nt, localN);
    hide Place;
    DivModUnique(2 * kt + localK, 2, kt, localK);
  }

  /** The address in full: each K tile takes two rows, a row holds 128 copies of each N tile side by side. */
  lemma AddressIs(tk: Pos, tn: Pos, kt: nat, nt: nat, localK: nat, localN: nat)
    requires kt < tk && localK < 2 && localN < 128
    ensures Address(tk, tn, nt * tk + kt, 128 * localK + localN)
         == kt * (256 * tn) + localK * (128 * tn) + nt * 128 + localN
  {
    DivModUnique(nt * tk + kt, tk, nt, kt);
    DivModUnique(128 * localK + localN, 128, localK, localN);
    AddressForm(tk, tn, nt * tk + kt, 128 * localK + localN);
    hide Address;
    Spread(tn, kt, localK, nt);
  }

  lemma Spread(tn: nat, kt: nat, localK: nat, nt: nat)
    ensures ((2 * kt + localK) * tn + nt) * 128 == kt * (256 * tn) + localK * (128 * tn) + nt * 128
  {
    assert (2 * kt + localK) * tn == 2 * (kt * tn) + localK * tn;
    assert kt * (256 * tn) == 256 * (kt * tn) && localK * (128 * tn) == 128 * (localK * tn);
  }

  /** Decoding an address gives back the tile and the copy: no two copies share one. */
  lemma CopyOfAddress(tk: Pos, tn: Pos, tile: nat, t: nat)
    requires tile < tk * tn && t < 256
    ensures var a := Address(tk, tn, tile, t);
            0 <= a < 256 * (tk * tn) && TileOf(tk, tn, a) == tile && CopyOf(tn, a) == t
  {
    hide *;
    AddressForm(tk, tn, tile, t);
    TileInGrid(tk, tn, tile);
    PlaceInTensor(tk, tn, tile % tk, t / 128, tile / tk, t % 128);
    PlaceDecoded(tk, tn, tile % tk, t / 128, tile / tk, t % 128);
  }

  /** Every address below the tensor's size is the address of some copy of some tile: there is no gap. */
  lemma AddressOfCopy(tk: Pos, tn: Pos, a: nat)
    requires a < 256 * (tk * tn)
    ensures TileOf(tk, tn, a) < tk * tn && CopyOf(tn, a) < 256
    ensures Address(tk, tn, TileOf(tk, tn, a), CopyOf(tn, a)) == a
  {
    hide Address;
    var row, nt := a / 128 / tn, a / 128 % tn;
    RowInGrid(tk, tn, a);
    TileOfGrid(tk, tn, row / 2, nt);
    assert TileOf(tk, tn, a) == nt * tk + row / 2 && CopyOf(tn, a) == row % 2 * 128 + a % 128;
    DivModUnique(row % 2 * 128 + a % 128, 128, row % 2, a % 128);
    AddressForm(tk, tn, nt * tk + row / 2, row % 2 * 128 + a % 128);
  }

  lemma RowInGrid(tk: Pos, tn: Pos, a: nat)
    requires a < 256 * (tk * tn)
    ensures a / 128 / tn / 2 < tk && a / 128 == a / 128 / tn * tn + a / 128 % tn
  {
    var row := a / 128 / tn;
    assert a / 128 == row * tn + a / 128 % tn;
    assert (2 * tk) * tn == 2 * (tk * tn);
    if row >= 2 * tk { MulMono(2 * tk, row, tn); }
  }

  lemma TileOfGrid(tk: Pos, tn: Pos, kt: nat, nt: nat)
    requires kt < tk && nt < tn
    ensures nt * tk + kt < tk * tn && (nt * tk + kt) / tk == nt && (nt * tk + kt) % tk == kt
  {
    DivModUnique(nt * tk + kt, tk, nt, kt);
    MulGap(nt, tn, tk);
    assert tn * tk == tk * tn;
  }

  // ---------------------------------------------------------------- the enumeration

  /** The copies of an address come in this order over the whole enumeration. */
  ghost function Turn(tk: Pos, tn: Pos, a: nat): nat {
    256 * TileOf(tk, tn, a) + CopyOf(tn, a)
  }

  /** After `turns` copies, exactly the addresses whose turn has come were counted, once each. */
  ghost predicate Counted(tk: Pos, tn: Pos, addresses: map<int, nat>, turns: nat) {
    && (forall a :: a in addresses <==> 0 <= a < 256 * (tk * tn) && Turn(tk, tn, a) < turns)
    && (forall a :: a in addresses ==> addresses[a] == 1)
  }

  lemma NextTurn(tk: Pos, tn: Pos, addresses: map<int, nat>, tile: nat, t: nat)
    requires tile < tk * tn && t < 256 && Counted(tk, tn, addresses, 256 * tile + t)
    ensures var a := Address(tk, tn, tile, t);
            a !in addresses && Counted(tk, tn, addresses[a := 1], 256 * tile + t + 1)
  {
    hide Address, TileOf, CopyOf;
    var a := Address(tk, tn, tile, t);
    CopyOfAddress(tk, tn, tile, t);
    forall b: nat | b < 256 * (tk * tn) && Turn(tk, tn, b) == 256 * tile + t
      ensures b == a
    {
      AddressOfCopy(tk, tn, b);
      DivModUnique(256 * tile + t, 256, TileOf(tk, tn, b), CopyOf(tn, b));
      DivModUnique(256 * tile + t, 256, tile, t);
    }
  }

  datatype Coverage = BadDims | Gaps | Coverage(uniqueBytes: nat, issuedBytes: nat, mostCopies: nat,
                                                duplicateBytes: int)

  /** The slice of tiles that block `block` of `groups` enumerates. */
  function SliceStart(tiles: nat, block: nat, groups: Pos): nat {
    tiles * block / groups
  }

  /** The slices are as even as can be: each has the quotient of tiles and blocks, or one tile more. */
  lemma SlicesEven(tiles: nat, block: nat, groups: Pos)
    requires block < groups
    ensures SliceStart(tiles, block, groups) * groups <= tiles * block
    ensures var size := SliceStart(tiles, block + 1, groups) - SliceStart(tiles, block, groups);
            size == tiles / groups || size == tiles / groups + 1
  {
    var a, b := SliceStart(tiles, block, groups), SliceStart(tiles, block + 1, groups);
    var q, x, y, z := tiles / groups, tiles * block % groups, tiles * (block + 1) % groups, tiles % groups;
    assert tiles * (block + 1) == tiles * block + tiles;
    assert tiles * block == a * groups + x && tiles * (block + 1) == b * groups + y && tiles == q * groups + z;
    hide SliceStart;
    Spaced(a, b, q, x, y, z, groups);
  }

  lemma Spaced(a: int, b: int, q: int, x: int, y: int, z: int, d: Pos)
    requires 0 <= x < d && 0 <= y < d && 0 <= z < d && b * d + y == a * d + x + (q * d + z)
    ensures b - a == q || b - a == q + 1
  {
    assert (b - a - q) * d == b * d - a * d - q * d;
    if b - a - q > 1 { MulMono(2, b - a - q, d); }
    if b - a - q < 0 { MulMono(b - a - q, -1, d); }
  }

  lemma SlicesJoin(tiles: nat, block: nat, groups: Pos)
    requires block < groups
    ensures SliceStart(tiles, block, groups) <= SliceStart(tiles, block + 1, groups) <= tiles
    ensures SliceStart(tiles, 0, groups) == 0 && SliceStart(tiles, groups, groups) == tiles
  {
    MulMono(block, block + 1, tiles);
    MulMono(block + 1, groups, tiles);
    assert tiles * block == block * tiles && tiles * (block + 1) == (block + 1) * tiles
           && tiles * groups == groups * tiles;
    DivMono(tiles * block, tiles * (block + 1), groups);
    DivMono(tiles * (block + 1), tiles * groups, groups);
    DivModUnique(tiles * groups, groups, tiles, 0);
  }

  /** For every aligned shape and number of blocks the copies hit every address of the tensor exactly once, so
      the check for gaps never fires and no byte is copied twice. */
  method EnumerateWeightCopies(k: int, n: int, groups: int) returns (r: Coverage)
    ensures r.BadDims? <==> k <= 0 || k % 32 != 0 || n <= 0 || n % 256 != 0 || groups <= 0
    ensures !r.Gaps?
    ensures r.Coverage? ==>
              && 2 * r.uniqueBytes == k * n && r.issuedBytes == r.uniqueBytes
              && r.mostCopies == 1 && r.duplicateBytes == 0
  {
    if k <= 0 || k % 32 != 0 || n <= 0 || n % 256 != 0 || groups <= 0 {
      return BadDims;
    }
    var tk: Pos, tn: Pos := k / 32, n / 256;
    var addresses := Enumerate(tk, tn, groups);
    var expected := k * n / 32;
    ExpectedSize(k, n);
    AllCounted(tk, tn, addresses);
    var issued, most := 0, 0;
    for a := 0 to expected
      invariant issued == a && most == if a == 0 then 0 else 1
    {
      if a !in addresses {
        assert false;
        return Gaps;
      }
      issued := issued + addresses[a];
      most := if addresses[a] > most then addresses[a] else most;
    }
    if |addresses| != expected {
      assert false;
      return Gaps;
    }
    assert expected > 0;
    r := Coverage(|addresses| * 16, issued * 16, most, (issued - |addresses|) * 16);
  }

  lemma ExpectedSize(k: int, n: int)
    requires k > 0 && k % 32 == 0 && n > 0 && n % 256 == 0
    ensures k * n / 32 == 256 * ((k / 32) * (n / 256)) > 0 && 32 * (k * n / 32) == k * n
  {
    var tk, tn := k / 32, n / 256;
    assert k * n == (32 * tk) * (256 * tn) == 32 * (256 * (tk * tn));
    MulMono(1, tk, tn);
  }

  lemma AllCounted(tk: Pos, tn: Pos, addresses: map<int, nat>)
    requires Counted(tk, tn, addresses, 256 * (tk * tn))
    ensures forall a :: a in addresses <==> 0 <= a < 256 * (tk * tn)
    ensures |addresses| == 256 * (tk * tn)
  {
    hide TileOf, CopyOf;
    forall a: nat | a < 256 * (tk * tn)
      ensures Turn(tk, tn, a) < 256 * (tk * tn)
    {
      AddressOfCopy(tk, tn, a);
    }
    Interval(addresses.Keys, 256 * (tk * tn));
  }

  lemma {:induction false} Interval(s: set<int>, n: nat)
    requires forall a :: a in s <==> 0 <= a < n
    ensures |s| == n
  {
    if n == 0 {
      assert forall a :: a !in s;
    } else {
      Interval(s - {n - 1}, n - 1);
    }
  }

  method Enumerate(tk: Pos, tn: Pos, groups: Pos) returns (addresses: map<int, nat>)
    ensures Counted(tk, tn, addresses, 256 * (tk * tn))
  {
    addresses := map[];
    assert Counted(tk, tn, addresses, 0);
    hide Address, Counted, SliceStart;
    ghost var done := 0;
    SlicesJoin(tk * tn, 0, groups);
    for block := 0 to groups
      invariant Counted(tk, tn, addresses, 256 * done) && done == SliceStart(tk * tn, block, groups)
    {
      SlicesJoin(tk * tn, block, groups);
      var start, end := SliceStart(tk * tn, block, groups), SliceStart(tk * tn, block + 1, groups);
      for tile := start to end
        invariant Counted(tk, tn, addresses, 256 * tile)
      {
        addresses := CountTile(tk, tn, addresses, tile);
      }
      done := end;
    }
    SlicesJoin(tk * tn, groups - 1, groups);
  }

  method CountTile(tk: Pos, tn: Pos, addresses: map<int, nat>, tile: nat) returns (r: map<int, nat>)
    requires tile < tk * tn && Counted(tk, tn, addresses, 256 * tile)
    ensures Counted(tk, tn, r, 256 * (tile + 1))
  {
    hide Address, Counted;
    r := addresses;
    for t := 0 to 256
      invariant Counted(tk, tn, r, 256 * tile + t)
    {
      var a := Address(tk, tn, tile, t);
      var count := if a in r then r[a] else 0;
      NextTurn(tk, tn, r, tile, t);
      r := r[a := count + 1];
    }
  }
}
