/** Rewriting one safetensors shard: chosen tensors are taken byte for byte from other files, every other tensor
    from the shard itself, under a new header. */
module ShardRewrite {
  import opened Wrappers

  type Byte = n: int | 0 <= n < 256 witness 0
  type Bytes = seq<Byte>

  datatype Entry = Entry(dtype: string, shape: seq<nat>, begin: nat, end: nat)

  /** A decoded header: tensors in file order. */
  datatype Header = Header(metadata: Option<string>, entries: seq<(string, Entry)>)

  ghost predicate DistinctKeys<T>(xs: seq<(string, T)>) {
    forall i, j :: 0 <= i < j < |xs| ==> xs[i].0 != xs[j].0
  }

  /** What a decoded object has: each name once, and the metadata apart from the tensors. */
  ghost predicate HeaderOk(h: Header) {
    DistinctKeys(h.entries) && Named(h.entries)
  }

  /** No tensor ends before it begins. */
  ghost predicate SizesOk(h: Header) {
    forall i :: 0 <= i < |h.entries| ==> h.entries[i].1.begin <= h.entries[i].1.end
  }

  /** No tensor has the name under which the format keeps its metadata. */
  ghost predicate Named<T>(xs: seq<(string, T)>) {
    forall i :: 0 <= i < |xs| ==> xs[i].0 != "__metadata__"
  }

  /** JSON as the library gives it: a dumped object loads as itself, trailing blanks do not matter, names are unique. */
  datatype Codec = Codec(dump: Header -> Bytes, load: Bytes -> Option<Header>)
  {
    ghost predicate Faithful() {
      && (forall h, n: nat :: HeaderOk(h) ==> load(dump(h) + Blanks(n)) == Some(h))
      && (forall b :: load(b).Some? ==> HeaderOk(load(b).value))
    }
  }

  function Blanks(n: nat): (b: Bytes)
    ensures |b| == n
  {
    seq(n, _ => 32)
  }

  // ---------------------------------------------------------------- the header on disk

  const LIMIT := 0x1_0000_0000_0000_0000

  /** `n` bytes, least significant first. */
  function LittleEndian(x: nat, n: nat): (b: Bytes)
    ensures |b| == n
  {
    if n == 0 then [] else [x % 256] + LittleEndian(x / 256, n - 1)
  }

  function FromLittleEndian(b: Bytes): nat {
    if b == [] then 0 else b[0] + 256 * FromLittleEndian(b[1..])
  }

  ghost function Pow256(n: nat): nat {
    if n == 0 then 1 else 256 * Pow256(n - 1)
  }

  lemma {:induction false} LittleEndianBack(x: nat, n: nat)
    requires x < Pow256(n)
    ensures FromLittleEndian(LittleEndian(x, n)) == x
  {
    if n > 0 {
      LittleEndianBack(x / 256, n - 1);
      assert LittleEndian(x, n)[1..] == LittleEndian(x / 256, n - 1);
    }
  }

  datatype Read = Truncated | BadJson | Read(header: Header, dataStart: nat)

  function ReadHeader(c: Codec, file: Bytes): (r: Read)
    ensures r.Read? ==> 8 <= r.dataStart <= |file|
  {
    if |file| < 8 then Truncated
    else
      var length := FromLittleEndian(file[..8]);
      if |file| < 8 + length then Truncated
      else
        var h := c.load(file[8..8 + length]);
        if h.None? then BadJson else Read(h.value, 8 + length)
  }

  function Padding(n: nat): nat { (8 - n % 8) % 8 }

  /** The header padded with blanks to a multiple of eight, behind its length. */
  function EncodeHeader(c: Codec, h: Header): Bytes {
    LittleEndian(|Raw(c, h)|, 8) + Raw(c, h)
  }

  function Raw(c: Codec, h: Header): Bytes {
    c.dump(h) + Blanks(Padding(|c.dump(h)|))
  }

  lemma PaddedToEight(n: nat)
    ensures (n + Padding(n)) % 8 == 0
  {
  }

  lemma RawLoads(c: Codec, h: Header)
    requires c.Faithful() && HeaderOk(h)
    ensures c.load(Raw(c, h)) == Some(h) && |Raw(c, h)| % 8 == 0
  {
    hide HeaderOk, Padding;
    PaddedToEight(|c.dump(h)|);
  }

  /** The new header reads back as itself whatever data follows, and the data begin on an eight-byte boundary. */
  lemma HeaderReadsBack(c: Codec, h: Header, data: Bytes)
    requires c.Faithful() && HeaderOk(h) && |EncodeHeader(c, h)| < LIMIT
    ensures ReadHeader(c, EncodeHeader(c, h) + data) == Read(h, |EncodeHeader(c, h)|)
    ensures |EncodeHeader(c, h)| % 8 == 0
  {
    hide *;
    var raw := Raw(c, h);
    var prefix := LittleEndian(|raw|, 8);
    EncodedIs(c, h);
    RawLoads(c, h);
    Framed(prefix, raw, data);
    EightBytes();
    LittleEndianBack(|raw|, 8);
    ReadFramed(c, prefix + raw + data, raw, h);
  }

  lemma EncodedIs(c: Codec, h: Header)
    ensures EncodeHeader(c, h) == LittleEndian(|Raw(c, h)|, 8) + Raw(c, h)
  {
    hide LittleEndian, Raw;
  }

  lemma ReadFramed(c: Codec, file: Bytes, raw: Bytes, h: Header)
    requires |file| >= 8 + |raw| && FromLittleEndian(file[..8]) == |raw| && file[8..8 + |raw|] == raw
    requires c.load(raw) == Some(h)
    ensures ReadHeader(c, file) == Read(h, 8 + |raw|)
  {
  }

  lemma Framed(prefix: Bytes, raw: Bytes, data: Bytes)
    ensures (prefix + raw + data)[..|prefix|] == prefix
    ensures (prefix + raw + data)[|prefix|..|prefix| + |raw|] == raw
  {
  }

  lemma EightBytes()
    ensures Pow256(8) == LIMIT
  {
    assert Pow256(4) == 0x1_0000_0000;
    assert Pow256(8) == 256 * (256 * (256 * (256 * Pow256(4))));
  }

  /** The number that eight bytes hold, least significant first. */
  ghost function Value(b: Bytes): nat
    requires |b| == 8
  {
    Word(b[0], b[1], b[2], b[3]) + 0x1_0000_0000 * Word(b[4], b[5], b[6], b[7])
  }

  ghost function Word(a: nat, b: nat, c: nat, d: nat): nat {
    a + 0x100 * b + 0x1_0000 * c + 0x100_0000 * d
  }

  lemma LengthIs(b: Bytes)
    requires |b| == 8
    ensures FromLittleEndian(b) == Value(b)
  {
    HalfIs(b[4..]);
    assert b[4..][0] == b[4] && b[4..][1] == b[5] && b[4..][2] == b[6] && b[4..][3] == b[7];
    LowHalf(b);
  }

  lemma HalfIs(b: Bytes)
    requires |b| == 4
    ensures FromLittleEndian(b) == Word(b[0], b[1], b[2], b[3])
  {
    assert b[1..][1..] == b[2..] && b[2..][1..] == b[3..] && b[3..][1..] == [];
    assert FromLittleEndian(b[3..]) == b[3];
    assert FromLittleEndian(b[2..]) == b[2] + 256 * FromLittleEndian(b[3..]);
  }

  lemma LowHalf(b: Bytes)
    requires |b| == 8
    ensures FromLittleEndian(b) == Word(b[0], b[1], b[2], b[3]) + 0x1_0000_0000 * FromLittleEndian(b[4..])
  {
    assert b[1..][1..] == b[2..] && b[2..][1..] == b[3..] && b[3..][1..] == b[4..];
    assert FromLittleEndian(b[3..]) == b[3] + 256 * FromLittleEndian(b[4..]);
    assert FromLittleEndian(b[2..]) == b[2] + 256 * FromLittleEndian(b[3..]);
  }

  /** A file with this header: its length in eight bytes, the header, and the data from `start`. */
  ghost predicate IsHeader(c: Codec, file: Bytes, h: Header, start: nat) {
    8 <= start <= |file| && 8 + Value(file[..8]) == start && c.load(file[8..start]) == Some(h)
  }

  /** A header is read exactly from the files that have one; the length alone decides whether a file is too short. */
  lemma ReadHeaderIs(c: Codec, file: Bytes, h: Header, start: nat)
    ensures ReadHeader(c, file) == Read(h, start) <==> IsHeader(c, file, h, start)
    ensures ReadHeader(c, file) == Truncated <==> |file| < 8 || |file| < 8 + Value(file[..8])
  {
    if |file| >= 8 { LengthIs(file[..8]); }
    hide FromLittleEndian, Value;
  }

  /** The encoded header on disk: its length, the dumped header, and fewer than eight blanks up to a boundary. */
  lemma EncodedBytes(c: Codec, h: Header)
    requires |EncodeHeader(c, h)| < LIMIT
    ensures var e, n := EncodeHeader(c, h), |c.dump(h)|;
            && 8 + n <= |e| < 16 + n && |e| % 8 == 0 && 8 + Value(e[..8]) == |e| && e[8..8 + n] == c.dump(h)
            && forall i :: 8 + n <= i < |e| ==> e[i] == 32
  {
    hide *;
    var raw := Raw(c, h);
    var prefix := LittleEndian(|raw|, 8);
    EncodedIs(c, h);
    RawBytes(c, h);
    EightBytes();
    LittleEndianBack(|raw|, 8);
    LengthIs(prefix);
    assert EncodeHeader(c, h)[..8] == prefix && EncodeHeader(c, h)[8..] == raw;
    Behind(prefix, raw, |c.dump(h)|);
  }

  lemma RawBytes(c: Codec, h: Header)
    ensures var raw, n := Raw(c, h), |c.dump(h)|;
            && n <= |raw| < n + 8 && |raw| % 8 == 0 && raw[..n] == c.dump(h)
            && forall i :: n <= i < |raw| ==> raw[i] == 32
  {
    PaddedToEight(|c.dump(h)|);
  }

  lemma Behind(prefix: Bytes, raw: Bytes, n: nat)
    requires |prefix| == 8 && n <= |raw| && forall i :: n <= i < |raw| ==> raw[i] == 32
    ensures (prefix + raw)[8..8 + n] == raw[..n]
    ensures forall i :: 8 + n <= i < |prefix + raw| ==> (prefix + raw)[i] == 32
  {
  }

  // ---------------------------------------------------------------- copying

  class Sink {
    var data: Bytes

    constructor ()
      ensures data == []
    {
      data := [];
    }
  }

  /** A range of a file; an empty one may lie anywhere. */
  function Slice(source: Bytes, a: nat, b: nat): (r: Bytes)
    requires a == b || a <= b <= |source|
    ensures |r| == b - a
  {
    if a == b then [] else source[a..b]
  }

  lemma Grows(source: Bytes, a: nat, b: nat, c: nat)
    requires a <= b <= c <= |source|
    ensures Slice(source, a, c) == Slice(source, a, b) + source[b..c]
  {
  }

  /** Copies through a buffer of any positive size. A short read is the source's error; it leaves a prefix. */
  method CopyRange(source: Bytes, sink: Sink, offset: nat, length: nat, buffer: nat) returns (ok: bool)
    requires buffer > 0
    modifies sink
    ensures ok <==> length == 0 || offset + length <= |source|
    ensures ok ==> sink.data == old(sink.data) + Slice(source, offset, offset + length)
    ensures !ok ==> old(sink.data) <= sink.data
  {
    hide Slice;
    var remaining, at := length, offset;
    while remaining > 0
      invariant 0 <= remaining && remaining + at == offset + length && at >= offset
      invariant at <= |source| || at == offset
      invariant sink.data == old(sink.data) + Slice(source, offset, at)
    {
      var amount := if remaining < buffer then remaining else buffer;
      var available := if at < |source| then |source| - at else 0;
      var read := if amount < available then amount else available;
      if read != amount {
        return false;
      }
      sink.data := sink.data + source[at..at + read];
      Grows(source, offset, at, at + read);
      remaining, at := remaining - read, at + read;
    }
    ok := true;
  }

  // ---------------------------------------------------------------- which bytes go where

  /** Where an output tensor comes from: a file, the entry there, and where that file's data start. */
  datatype Source = Source(file: nat, entry: Entry, dataStart: nat)

  function Size(s: Source): nat
    requires s.entry.begin <= s.entry.end
  {
    s.entry.end - s.entry.begin
  }

  /** An insertion-ordered dictionary: assigning a present key keeps its place. */
  function Put<T>(d: seq<(string, T)>, key: string, value: T): (r: seq<(string, T)>)
  {
    if d == [] then [(key, value)]
    else if d[0].0 == key then [(key, value)] + d[1..]
    else [d[0]] + Put(d[1..], key, value)
  }

  ghost predicate Has<T>(d: seq<(string, T)>, key: string) {
    exists i :: 0 <= i < |d| && d[i].0 == key
  }

  function Find<T>(d: seq<(string, T)>, key: string): (r: Option<T>)
    ensures r.None? <==> !Has(d, key)
    ensures r.Some? ==> (key, r.value) in d
  {
    if d == [] then None
    else if d[0].0 == key then Some(d[0].1)
    else
      assert forall i :: 0 <= i < |d[1..]| ==> d[1..][i] == d[i + 1];
      Find(d[1..], key)
  }

  lemma {:induction false} PutKeys<T>(d: seq<(string, T)>, key: string, value: T, k: string)
    ensures Has(Put(d, key, value), k) <==> Has(d, k) || k == key
  {
    var r := Put(d, key, value);
    if d == [] {
      assert r[0].0 == key;
    } else {
      assert d == [d[0]] + d[1..];
      HasCons(d[0], d[1..], k);
      if d[0].0 == key {
        HasCons((key, value), d[1..], k);
      } else {
        PutKeys(d[1..], key, value, k);
        HasCons(d[0], Put(d[1..], key, value), k);
      }
    }
  }

  lemma HasCons<T>(x: (string, T), d: seq<(string, T)>, k: string)
    ensures Has([x] + d, k) <==> x.0 == k || Has(d, k)
  {
    var r := [x] + d;
    assert r[0] == x && forall i :: 0 <= i < |d| ==> r[i + 1] == d[i];
    if Has(r, k) && x.0 != k {
      var i :| 0 <= i < |r| && r[i].0 == k;
      assert d[i - 1].0 == k;
    }
  }

  lemma {:induction false} PutDistinct<T>(d: seq<(string, T)>, key: string, value: T)
    requires DistinctKeys(d)
    ensures DistinctKeys(Put(d, key, value))
  {
    if d != [] && d[0].0 != key {
      var rest := d[1..];
      PutDistinct(rest, key, value);
      PutKeys(rest, key, value, d[0].0);
      assert !Has(rest, d[0].0);
      assert forall i :: 0 <= i < |Put(rest, key, value)| ==> Put(rest, key, value)[i].0 != d[0].0;
    }
  }

  lemma {:induction false} PutFresh<T>(d: seq<(string, T)>, key: string, value: T)
    requires !Has(d, key)
    ensures Put(d, key, value) == d + [(key, value)]
  {
    if d != [] {
      assert d[0].0 != key;
      assert d == [d[0]] + d[1..];
      HasCons(d[0], d[1..], key);
      PutFresh(d[1..], key, value);
    }
  }

  /** The files, which of them is rewritten, the official index by tensor name, and the tensors to restore. */
  datatype Inputs = Inputs(files: seq<Bytes>, base: nat, index: map<string, nat>, replacements: set<string>,
                           codec: Codec)

  /** No header of the files gives a tensor a negative size. */
  ghost predicate Ordered(x: Inputs) {
    forall f :: 0 <= f < |x.files| && ReadHeader(x.codec, x.files[f]).Read? ==>
      SizesOk(ReadHeader(x.codec, x.files[f]).header)
  }

  predicate IsWeight(name: string) {
    |name| >= 7 && name[|name| - 7..] == ".weight"
  }

  function ScaleIn(name: string): string { name + "_scale_inv" }

  function ScaleOut(name: string): string { name + "_scale" }

  function Official(x: Inputs, name: string): Option<Source> {
    if name !in x.index || x.index[name] >= |x.files| then None
    else match ReadHeader(x.codec, x.files[x.index[name]])
      case Read(h, start) =>
        var e := Find(h.entries, name);
        if e.None? then None else Some(Source(x.index[name], e.value, start))
      case _ => None
  }

  predicate Restorable(x: Inputs, name: string, entry: Entry) {
    && IsWeight(name) && entry.dtype == "BF16"
    && var w, s := Official(x, name), Official(x, ScaleIn(name));
    && w.Some? && s.Some? && w.value.entry.dtype == "F8_E4M3" && s.value.entry.dtype == "F32"
      && w.value.entry.shape == entry.shape
  }

  /** The ordered sources after the first `n` base tensors; none when a tensor to restore breaks its contract. */
  function Plan(x: Inputs, h: Header, start: nat, n: nat): Option<seq<(string, Source)>>
    requires n <= |h.entries|
  {
    if n == 0 then Some([])
    else
      var before, name, entry := Plan(x, h, start, n - 1), h.entries[n - 1].0, h.entries[n - 1].1;
      if before.None? then None
      else if name !in x.replacements then Some(Put(before.value, name, Source(x.base, entry, start)))
      else if !Restorable(x, name, entry) then None
      else Some(Put(Put(before.value, name, Official(x, name).value), ScaleOut(name), Official(x, ScaleIn(name)).value))
  }

  // ---------------------------------------------------------------- layout and contents

  ghost predicate SourcesOk(d: seq<(string, Source)>) {
    forall i :: 0 <= i < |d| ==> d[i].1.entry.begin <= d[i].1.entry.end
  }

  function Offset(d: seq<(string, Source)>, n: nat): nat
    requires n <= |d| && SourcesOk(d)
  {
    if n == 0 then 0 else Offset(d, n - 1) + Size(d[n - 1].1)
  }

  function OutEntry(d: seq<(string, Source)>, i: nat): (string, Entry)
    requires i < |d| && SourcesOk(d)
  {
    (d[i].0, Entry(d[i].1.entry.dtype, d[i].1.entry.shape, Offset(d, i), Offset(d, i + 1)))
  }

  function OutHeader(metadata: Option<string>, d: seq<(string, Source)>): (h: Header)
    requires SourcesOk(d)
  {
    Header(metadata, seq(|d|, i requires 0 <= i < |d| => OutEntry(d, i)))
  }

  predicate InFile(files: seq<Bytes>, s: Source)
    requires s.entry.begin <= s.entry.end
  {
    s.file < |files| && (Size(s) == 0 || s.dataStart + s.entry.end <= |files[s.file]|)
  }

  /** The bytes a source names. */
  function Contents(files: seq<Bytes>, s: Source): (b: Bytes)
    requires s.entry.begin <= s.entry.end && InFile(files, s)
    ensures |b| == Size(s)
  {
    Slice(files[s.file], s.dataStart + s.entry.begin, s.dataStart + s.entry.end)
  }

  /** The first `n` sources lie in their files. */
  ghost predicate InFiles(files: seq<Bytes>, d: seq<(string, Source)>, n: nat)
    requires n <= |d| && SourcesOk(d)
  {
    forall i :: 0 <= i < n ==> InFile(files, d[i].1)
  }

  function Body(files: seq<Bytes>, d: seq<(string, Source)>, n: nat): (b: Bytes)
    requires n <= |d| && SourcesOk(d) && InFiles(files, d, n)
    ensures |b| == Offset(d, n)
  {
    if n == 0 then [] else Body(files, d, n - 1) + Contents(files, d[n - 1].1)
  }

  lemma {:induction false} OffsetMono(d: seq<(string, Source)>, i: nat, n: nat)
    requires i <= n <= |d| && SourcesOk(d)
    ensures Offset(d, i) <= Offset(d, n)
  {
    if i < n { OffsetMono(d, i, n - 1); }
  }

  lemma {:induction false} BodyPrefix(files: seq<Bytes>, d: seq<(string, Source)>, i: nat, n: nat)
    requires i <= n <= |d| && SourcesOk(d) && InFiles(files, d, n)
    ensures Offset(d, i) <= Offset(d, n) && InFiles(files, d, i)
    ensures Body(files, d, n)[..Offset(d, i)] == Body(files, d, i)
  {
    hide InFile, Contents, Size;
    OffsetMono(d, i, n);
    if i < n {
      BodyPrefix(files, d, i, n - 1);
      PrefixOf(Body(files, d, n - 1), Contents(files, d[n - 1].1), Offset(d, i));
    }
  }

  lemma PrefixOf(a: Bytes, b: Bytes, k: nat)
    requires k <= |a|
    ensures (a + b)[..k] == a[..k]
  {
  }

  /** The data of tensor `i` are the bytes of its source. */
  lemma BodyAt(files: seq<Bytes>, d: seq<(string, Source)>, i: nat)
    requires i < |d| && SourcesOk(d) && InFiles(files, d, |d|)
    ensures Offset(d, i) <= Offset(d, i + 1) <= Offset(d, |d|)
    ensures Body(files, d, |d|)[Offset(d, i)..Offset(d, i + 1)] == Contents(files, d[i].1)
  {
    assert d[i].1.entry.begin <= d[i].1.entry.end;
    hide *;
    BodyPrefix(files, d, i + 1, |d|);
    BodyPrefix(files, d, i, i + 1);
    BodyNext(files, d, i);
    SliceOfPrefix(Body(files, d, |d|), Body(files, d, i), Contents(files, d[i].1));
  }

  lemma BodyNone(files: seq<Bytes>, d: seq<(string, Source)>)
    requires SourcesOk(d)
    ensures InFiles(files, d, 0) && Body(files, d, 0) == []
  {
  }

  lemma BodyNext(files: seq<Bytes>, d: seq<(string, Source)>, i: nat)
    requires i < |d| && SourcesOk(d) && InFiles(files, d, i + 1)
    ensures InFiles(files, d, i) && InFile(files, d[i].1)
    ensures Body(files, d, i + 1) == Body(files, d, i) + Contents(files, d[i].1)
  {
    hide InFile, Contents;
  }

  lemma SliceOfPrefix(all: Bytes, a: Bytes, b: Bytes)
    requires |a| + |b| <= |all| && all[..|a| + |b|] == a + b
    ensures all[|a|..|a| + |b|] == b
  {
    assert all[|a|..|a| + |b|] == all[..|a| + |b|][|a|..];
  }

  /** A written shard: the header of the plan and the bytes of its sources. */
  ghost function Shard(x: Inputs, metadata: Option<string>, d: seq<(string, Source)>): Bytes
    requires SourcesOk(d) && InFiles(x.files, d, |d|)
  {
    EncodeHeader(x.codec, OutHeader(metadata, d)) + Body(x.files, d, |d|)
  }

  /** Read through its own header, a written shard gives every tensor exactly its source's bytes; the tensors tile
      the data from its aligned start to the end of the file. */
  lemma ReadsBack(x: Inputs, metadata: Option<string>, d: seq<(string, Source)>, i: nat)
    requires x.codec.Faithful() && SourcesOk(d) && InFiles(x.files, d, |d|) && DistinctKeys(d) && Named(d) && i < |d|
    requires |EncodeHeader(x.codec, OutHeader(metadata, d))| < LIMIT
    ensures var file, h := Shard(x, metadata, d), OutHeader(metadata, d);
            var r := ReadHeader(x.codec, file);
            && r.Read? && r.header == h && h.metadata == metadata && |h.entries| == |d| && r.dataStart % 8 == 0
            && h.entries[i].0 == d[i].0 && h.entries[i].1.dtype == d[i].1.entry.dtype
              && h.entries[i].1.shape == d[i].1.entry.shape
            && (i == 0 ==> h.entries[i].1.begin == 0) && (i > 0 ==> h.entries[i].1.begin == h.entries[i - 1].1.end)
            && (i == |d| - 1 ==> r.dataStart + h.entries[i].1.end == |file|)
            && h.entries[i].1.begin <= h.entries[i].1.end && r.dataStart + h.entries[i].1.end <= |file|
            && file[r.dataStart + h.entries[i].1.begin..r.dataStart + h.entries[i].1.end] == Contents(x.files, d[i].1)
  {
    hide ReadHeader, EncodeHeader, Body, Contents, InFiles;
    var h := OutHeader(metadata, d);
    var head, body := EncodeHeader(x.codec, h), Body(x.files, d, |d|);
    OutHeaderOk(metadata, d);
    HeaderReadsBack(x.codec, h, body);
    BodyAt(x.files, d, i);
    assert h.entries[i] == OutEntry(d, i) && (i > 0 ==> h.entries[i - 1] == OutEntry(d, i - 1));
    Shifted(head, body, Offset(d, i), Offset(d, i + 1));
  }

  lemma Shifted(head: Bytes, body: Bytes, a: nat, b: nat)
    requires a <= b <= |body|
    ensures (head + body)[|head| + a..|head| + b] == body[a..b]
  {
  }

  lemma OutHeaderOk(metadata: Option<string>, d: seq<(string, Source)>)
    requires SourcesOk(d) && DistinctKeys(d) && Named(d)
    ensures HeaderOk(OutHeader(metadata, d))
  {
  }

  // ---------------------------------------------------------------- the rewrite

  datatype Result = BadHeader | BadTensor | ShortRead | Written(bytes: Bytes, tensors: nat)

  lemma PutOk(d: seq<(string, Source)>, key: string, s: Source)
    requires SourcesOk(d) && DistinctKeys(d) && s.entry.begin <= s.entry.end
    ensures SourcesOk(Put(d, key, s)) && DistinctKeys(Put(d, key, s))
  {
    PutDistinct(d, key, s);
    PutSources(d, key, s);
  }

  lemma {:induction false} PutSources(d: seq<(string, Source)>, key: string, s: Source)
    requires SourcesOk(d) && s.entry.begin <= s.entry.end
    ensures SourcesOk(Put(d, key, s))
  {
    if d != [] && d[0].0 != key { PutSources(d[1..], key, s); }
  }

  lemma OfficialOk(x: Inputs, name: string)
    requires Ordered(x) && Official(x, name).Some?
    ensures Official(x, name).value.entry.begin <= Official(x, name).value.entry.end
  {
    var r := ReadHeader(x.codec, x.files[x.index[name]]);
    assert SizesOk(r.header);
    var e := Find(r.header.entries, name).value;
    var i :| 0 <= i < |r.header.entries| && r.header.entries[i] == (name, e);
    assert r.header.entries[i].1.begin <= r.header.entries[i].1.end;
  }

  /** The dictionary keeps its keys apart whatever the names are. */
  lemma {:induction false} PlanOk(x: Inputs, h: Header, start: nat, n: nat)
    requires Ordered(x) && SizesOk(h) && n <= |h.entries| && Plan(x, h, start, n).Some?
    ensures SourcesOk(Plan(x, h, start, n).value) && DistinctKeys(Plan(x, h, start, n).value)
  {
    if n > 0 {
      PlanOk(x, h, start, n - 1);
      var before, name, entry := Plan(x, h, start, n - 1).value, h.entries[n - 1].0, h.entries[n - 1].1;
      if name !in x.replacements {
        PutOk(before, name, Source(x.base, entry, start));
      } else {
        OfficialOk(x, name);
        OfficialOk(x, ScaleIn(name));
        PutOk(before, name, Official(x, name).value);
        PutOk(Put(before, name, Official(x, name).value), ScaleOut(name), Official(x, ScaleIn(name)).value);
      }
    }
  }

  /** A key of the plan is a tensor's name or the scale name of a restored one, among the first `n`. */
  lemma {:induction false} KeysOfPlan(x: Inputs, h: Header, start: nat, n: nat, key: string)
    requires n <= |h.entries| && Plan(x, h, start, n).Some? && Has(Plan(x, h, start, n).value, key)
    ensures exists j ::
              && 0 <= j < n
              && (h.entries[j].0 == key || (h.entries[j].0 in x.replacements && ScaleOut(h.entries[j].0) == key))
  {
    if n > 0 {
      var before, name, entry := Plan(x, h, start, n - 1).value, h.entries[n - 1].0, h.entries[n - 1].1;
      if name !in x.replacements {
        PutKeys(before, name, Source(x.base, entry, start), key);
      } else {
        PutKeys(before, name, Official(x, name).value, key);
        PutKeys(Put(before, name, Official(x, name).value), ScaleOut(name), Official(x, ScaleIn(name)).value, key);
      }
      if Has(before, key) { KeysOfPlan(x, h, start, n - 1, key); }
    }
  }

  lemma PlanNamed(x: Inputs, h: Header, start: nat)
    requires Named(h.entries) && Plan(x, h, start, |h.entries|).Some?
    ensures Named(Plan(x, h, start, |h.entries|).value)
  {
    var d := Plan(x, h, start, |h.entries|).value;
    forall i | 0 <= i < |d|
      ensures d[i].0 != "__metadata__"
    {
      KeysOfPlan(x, h, start, |h.entries|, d[i].0);
      var j :| 0 <= j < |h.entries|
        && (h.entries[j].0 == d[i].0 || (h.entries[j].0 in x.replacements && ScaleOut(h.entries[j].0) == d[i].0));
      var name := h.entries[j].0;
      assert ScaleOut(name)[|ScaleOut(name)| - 1] == 'e';
    }
  }

  // ---------------------------------------------------------------- what can be restored

  /** The tensor of that name in the file that the official index gives for it. */
  ghost predicate IsOfficial(x: Inputs, name: string, s: Source) {
    && name in x.index && s.file == x.index[name] < |x.files|
    && exists h :: IsHeader(x.codec, x.files[s.file], h, s.dataStart) && (name, s.entry) in h.entries
  }

  /** A BF16 weight whose official tensor is E4M3 of the same shape, with an official F32 scale. */
  ghost predicate CanRestore(x: Inputs, name: string, entry: Entry) {
    && |name| >= 7 && name[|name| - 7..] == ".weight" && entry.dtype == "BF16"
    && exists w, s ::
      && IsOfficial(x, name, w) && w.entry.dtype == "F8_E4M3" && w.entry.shape == entry.shape
      && IsOfficial(x, name + "_scale_inv", s) && s.entry.dtype == "F32"
  }

  lemma OfficialIs(x: Inputs, name: string, s: Source)
    requires x.codec.Faithful()
    ensures Official(x, name) == Some(s) <==> IsOfficial(x, name, s)
  {
    hide ReadHeader, Find, IsHeader;
    if name in x.index && x.index[name] < |x.files| {
      var file := x.files[x.index[name]];
      forall h, start: nat
        ensures ReadHeader(x.codec, file) == Read(h, start) <==> IsHeader(x.codec, file, h, start)
      {
        ReadHeaderIs(x.codec, file, h, start);
      }
      if ReadHeader(x.codec, file).Read? {
        var h := ReadHeader(x.codec, file).header;
        LoadedOk(x.codec, file);
        FindIs(h.entries, name, s.entry);
      }
    }
  }

  lemma LoadedOk(c: Codec, file: Bytes)
    requires c.Faithful() && ReadHeader(c, file).Read?
    ensures DistinctKeys(ReadHeader(c, file).header.entries)
  {
  }

  lemma FindIs<T>(d: seq<(string, T)>, key: string, value: T)
    requires DistinctKeys(d)
    ensures Find(d, key) == Some(value) <==> (key, value) in d
  {
    if (key, value) in d {
      var i :| 0 <= i < |d| && d[i] == (key, value);
      FindAt(d, i);
    }
  }

  lemma RestorableIs(x: Inputs, name: string, entry: Entry)
    requires x.codec.Faithful()
    ensures Restorable(x, name, entry) <==> CanRestore(x, name, entry)
  {
    hide Official, IsOfficial, Codec.Faithful;
    forall s
      ensures Official(x, name) == Some(s) <==> IsOfficial(x, name, s)
      ensures Official(x, name + "_scale_inv") == Some(s) <==> IsOfficial(x, name + "_scale_inv", s)
    {
      OfficialIs(x, name, s);
      OfficialIs(x, name + "_scale_inv", s);
    }
    var w, s := Official(x, name), Official(x, name + "_scale_inv");
    assert w.Some? ==> IsOfficial(x, name, w.value);
    assert s.Some? ==> IsOfficial(x, name + "_scale_inv", s.value);
  }

  /** A tensor that should be restored and cannot be. */
  ghost predicate Blocks(x: Inputs, h: Header, k: int) {
    0 <= k < |h.entries| && h.entries[k].0 in x.replacements && !CanRestore(x, h.entries[k].0, h.entries[k].1)
  }

  lemma {:induction false} PlanFailsIff(x: Inputs, h: Header, start: nat, n: nat)
    requires x.codec.Faithful() && n <= |h.entries|
    ensures Plan(x, h, start, n).None? <==> exists k :: k < n && Blocks(x, h, k)
  {
    hide CanRestore, Restorable, Official, Put, Codec.Faithful;
    if n > 0 {
      PlanFailsIff(x, h, start, n - 1);
      RestorableIs(x, h.entries[n - 1].0, h.entries[n - 1].1);
      assert Blocks(x, h, n - 1) <==>
             h.entries[n - 1].0 in x.replacements && !Restorable(x, h.entries[n - 1].0, h.entries[n - 1].1);
    }
  }

  /** Some source's bytes are not all in its file. */
  ghost predicate RunsOut(files: seq<Bytes>, d: seq<(string, Source)>) {
    exists i :: 0 <= i < |d| && (d[i].1.file >= |files|
                                 || (d[i].1.entry.begin < d[i].1.entry.end
                                     && d[i].1.dataStart + d[i].1.entry.end > |files[d[i].1.file]|))
  }

  lemma RunsOutIff(files: seq<Bytes>, d: seq<(string, Source)>)
    requires SourcesOk(d)
    ensures RunsOut(files, d) <==> !InFiles(files, d, |d|)
  {
  }

  method BuildShard(x: Inputs, buffer: nat) returns (r: Result)
    requires x.codec.Faithful() && Ordered(x) && x.base < |x.files| && buffer > 0
    ensures var b := ReadHeader(x.codec, x.files[x.base]);
            && (r.BadHeader? <==> !b.Read?)
            && (b.Read? ==>
                 var plan := Plan(x, b.header, b.dataStart, |b.header.entries|);
                 && (r.BadTensor? <==> plan.None?)
                 && (r.BadTensor? <==> exists k :: Blocks(x, b.header, k))
                 && (plan.Some? ==>
                      && SourcesOk(plan.value) && DistinctKeys(plan.value) && Named(plan.value)
                      && (r.ShortRead? <==> RunsOut(x.files, plan.value))
                      && (RunsOut(x.files, plan.value) <==> !InFiles(x.files, plan.value, |plan.value|))
                      && (r.Written? ==>
                            r.bytes == Shard(x, b.header.metadata, plan.value) && r.tensors == |plan.value|)))
  {
    var b := ReadHeader(x.codec, x.files[x.base]);
    if !b.Read? {
      return BadHeader;
    }
    var plan := Sources(x, b.header, b.dataStart);
    PlanFailsIff(x, b.header, b.dataStart, |b.header.entries|);
    assert (exists k :: Blocks(x, b.header, k)) <==> plan.None?;
    hide Blocks, RunsOut;
    if plan.None? {
      return BadTensor;
    }
    var sources := plan.value;
    PlanOk(x, b.header, b.dataStart, |b.header.entries|);
    PlanNamed(x, b.header, b.dataStart);
    RunsOutIff(x.files, sources);
    var header := NewHeader(b.header.metadata, sources);
    var sink := new Sink();
    sink.data := EncodeHeader(x.codec, header);
    var complete := CopyAll(x.files, sources, sink, buffer);
    if !complete {
      return ShortRead;
    }
    r := Written(sink.data, |sources|);
  }

  method Sources(x: Inputs, h: Header, start: nat) returns (r: Option<seq<(string, Source)>>)
    ensures r == Plan(x, h, start, |h.entries|)
  {
    var d: seq<(string, Source)> := [];
    for i := 0 to |h.entries|
      invariant Plan(x, h, start, i) == Some(d)
    {
      var (name, entry) := h.entries[i];
      if name in x.replacements {
        if !Restorable(x, name, entry) {
          PlanStops(x, h, start, i + 1, |h.entries|);
          return None;
        }
        d := Put(Put(d, name, Official(x, name).value), ScaleOut(name), Official(x, ScaleIn(name)).value);
      } else {
        d := Put(d, name, Source(x.base, entry, start));
      }
    }
    r := Some(d);
  }

  lemma {:induction false} PlanStops(x: Inputs, h: Header, start: nat, i: nat, n: nat)
    requires i <= n <= |h.entries| && Plan(x, h, start, i).None?
    ensures Plan(x, h, start, n).None?
  {
    if i < n { PlanStops(x, h, start, i, n - 1); }
  }

  method NewHeader(metadata: Option<string>, d: seq<(string, Source)>) returns (h: Header)
    requires SourcesOk(d)
    ensures h == OutHeader(metadata, d)
  {
    var entries: seq<(string, Entry)> := [];
    var offset := 0;
    for i := 0 to |d|
      invariant |entries| == i && offset == Offset(d, i)
      invariant forall j :: 0 <= j < i ==> entries[j] == OutEntry(d, j)
    {
      var size := Size(d[i].1);
      entries := entries + [(d[i].0, Entry(d[i].1.entry.dtype, d[i].1.entry.shape, offset, offset + size))];
      offset := offset + size;
    }
    h := Header(metadata, entries);
  }

  method CopyAll(files: seq<Bytes>, d: seq<(string, Source)>, sink: Sink, buffer: nat) returns (ok: bool)
    requires SourcesOk(d) && buffer > 0
    modifies sink
    ensures ok <==> InFiles(files, d, |d|)
    ensures ok ==> sink.data == old(sink.data) + Body(files, d, |d|)
  {
    hide Body, InFile, Contents, Size;
    BodyNone(files, d);
    for i := 0 to |d|
      invariant InFiles(files, d, i) && sink.data == old(sink.data) + Body(files, d, i)
    {
      ghost var before := sink.data;
      ok := CopyOne(files, d[i].1, sink, buffer);
      if !ok {
        return false;
      }
      BodyNext(files, d, i);
      assert sink.data == before + Contents(files, d[i].1);
    }
    ok := true;
  }

  method CopyOne(files: seq<Bytes>, s: Source, sink: Sink, buffer: nat) returns (ok: bool)
    requires s.entry.begin <= s.entry.end && buffer > 0
    modifies sink
    ensures ok <==> InFile(files, s)
    ensures ok ==> sink.data == old(sink.data) + Contents(files, s)
  {
    if s.file >= |files| {
      return false;
    }
    ok := CopyRange(files[s.file], sink, s.dataStart + s.entry.begin, Size(s), buffer);
  }

  // ---------------------------------------------------------------- every tensor is kept or restored

  /** No output scale name is already a tensor of the shard. */
  ghost predicate FreshScales(x: Inputs, h: Header) {
    forall i, j :: 0 <= i < |h.entries| && 0 <= j < |h.entries| && h.entries[i].0 in x.replacements ==>
      ScaleOut(h.entries[i].0) != h.entries[j].0
  }

  /** What the shard's `k`-th tensor must become. */
  ghost function Wanted(x: Inputs, h: Header, start: nat, k: nat): seq<(string, Source)>
    requires k < |h.entries|
    requires h.entries[k].0 in x.replacements ==> Restorable(x, h.entries[k].0, h.entries[k].1)
  {
    var (name, entry) := h.entries[k];
    if name in x.replacements then [(name, Official(x, name).value), (ScaleOut(name), Official(x, ScaleIn(name)).value)]
    else [(name, Source(x.base, entry, start))]
  }

  lemma ScaleOutInjective(a: string, b: string)
    requires ScaleOut(a) == ScaleOut(b)
    ensures a == b
  {
    assert ScaleOut(a)[..|a|] == a && ScaleOut(b)[..|b|] == b;
  }

  /** What one more tensor puts into the plan. */
  lemma PlanNext(x: Inputs, h: Header, start: nat, n: nat)
    requires 0 < n <= |h.entries| && Plan(x, h, start, n).Some?
    ensures Plan(x, h, start, n - 1).Some?
    ensures var before, (name, entry) := Plan(x, h, start, n - 1).value, h.entries[n - 1];
            if name in x.replacements then
              && Restorable(x, name, entry) && Official(x, name).Some? && Official(x, ScaleIn(name)).Some?
              && Plan(x, h, start, n).value ==
                   Put(Put(before, name, Official(x, name).value), ScaleOut(name), Official(x, ScaleIn(name)).value)
            else Plan(x, h, start, n).value == Put(before, name, Source(x.base, entry, start))
  {
    hide Put, ScaleOut, ScaleIn, Official;
  }

  /** With fresh scale names the plan is, tensor by tensor, the tensor itself from the shard, or the official weight
      followed by its official scale: none lost, none twice. */
  lemma {:induction false} PlanIsWanted(x: Inputs, h: Header, start: nat, n: nat)
    requires DistinctKeys(h.entries) && FreshScales(x, h) && 0 < n <= |h.entries| && Plan(x, h, start, n).Some?
    ensures Plan(x, h, start, n - 1).Some?
    ensures h.entries[n - 1].0 in x.replacements ==> Restorable(x, h.entries[n - 1].0, h.entries[n - 1].1)
    ensures Plan(x, h, start, n).value == Plan(x, h, start, n - 1).value + Wanted(x, h, start, n - 1)
  {
    hide Plan, Put, Has, Official, Restorable, ScaleOut, ScaleIn, FreshScales, DistinctKeys;
    PlanNext(x, h, start, n);
    var before, name, entry := Plan(x, h, start, n - 1).value, h.entries[n - 1].0, h.entries[n - 1].1;
    NamesBefore(x, h, start, n - 1, name);
    if name !in x.replacements {
      PutFresh(before, name, Source(x.base, entry, start));
    } else {
      NamesBefore(x, h, start, n - 1, ScaleOut(name));
      PutBoth(before, name, Official(x, name).value, Official(x, ScaleIn(name)).value);
    }
  }

  lemma PutBoth<T>(d: seq<(string, T)>, name: string, weight: T, scale: T)
    requires !Has(d, name) && !Has(d, ScaleOut(name))
    ensures Put(Put(d, name, weight), ScaleOut(name), scale) == d + [(name, weight), (ScaleOut(name), scale)]
  {
    PutFresh(d, name, weight);
    PutKeys(d, name, weight, ScaleOut(name));
    ScaleIsLonger(name);
    PutFresh(Put(d, name, weight), ScaleOut(name), scale);
  }

  lemma NamesBefore(x: Inputs, h: Header, start: nat, n: nat, key: string)
    requires DistinctKeys(h.entries) && FreshScales(x, h) && n < |h.entries| && Plan(x, h, start, n).Some?
    requires key == h.entries[n].0 || (h.entries[n].0 in x.replacements && key == ScaleOut(h.entries[n].0))
    ensures !Has(Plan(x, h, start, n).value, key)
  {
    if Has(Plan(x, h, start, n).value, key) {
      KeysOfPlan(x, h, start, n, key);
      var j :| 0 <= j < n
        && (h.entries[j].0 == key || (h.entries[j].0 in x.replacements && ScaleOut(h.entries[j].0) == key));
      if ScaleOut(h.entries[j].0) == ScaleOut(h.entries[n].0) { ScaleOutInjective(h.entries[j].0, h.entries[n].0); }
    }
  }

  // ---------------------------------------------------------------- without fresh names

  lemma {:induction false} PutLength<T>(d: seq<(string, T)>, key: string, value: T)
    ensures |Put(d, key, value)| == |d| + if Has(d, key) then 0 else 1
  {
    if d != [] {
      assert d == [d[0]] + d[1..];
      HasCons(d[0], d[1..], key);
      if d[0].0 != key { PutLength(d[1..], key, value); }
    }
  }

  lemma {:induction false} FindPut<T>(d: seq<(string, T)>, key: string, value: T, k: string)
    ensures Find(Put(d, key, value), k) == if k == key then Some(value) else Find(d, k)
  {
    if d != [] {
      var r := Put(d, key, value);
      if d[0].0 == key {
        assert r[1..] == d[1..];
      } else {
        FindPut(d[1..], key, value, k);
        assert r[1..] == Put(d[1..], key, value);
      }
    }
  }

  /** How many of the first `n` tensors are restored. */
  ghost function Restored(x: Inputs, h: Header, n: nat): nat
    requires n <= |h.entries|
  {
    if n == 0 then 0 else Restored(x, h, n - 1) + if h.entries[n - 1].0 in x.replacements then 1 else 0
  }

  /** Every tensor among the first `n` has its name in the plan, and every restored one its scale's name. */
  lemma {:induction false} PlanHas(x: Inputs, h: Header, start: nat, n: nat, i: nat)
    requires i < n <= |h.entries| && Plan(x, h, start, n).Some?
    ensures Has(Plan(x, h, start, n).value, h.entries[i].0)
    ensures h.entries[i].0 in x.replacements ==> Has(Plan(x, h, start, n).value, ScaleOut(h.entries[i].0))
  {
    var before, name := Plan(x, h, start, n - 1).value, h.entries[n - 1].0;
    if i < n - 1 { PlanHas(x, h, start, n - 1, i); }
    var keys := [h.entries[i].0, ScaleOut(h.entries[i].0)];
    forall k | k in keys
      ensures Has(Plan(x, h, start, n).value, k) <==>
              Has(before, k) || k == name || (name in x.replacements && k == ScaleOut(name))
    {
      PlanKeys(x, h, start, n, k);
    }
    assert keys[0] in keys && keys[1] in keys;
  }

  /** The keys that one tensor adds. */
  lemma PlanKeys(x: Inputs, h: Header, start: nat, n: nat, k: string)
    requires 0 < n <= |h.entries| && Plan(x, h, start, n).Some?
    ensures var name := h.entries[n - 1].0;
            Has(Plan(x, h, start, n).value, k) <==>
            Has(Plan(x, h, start, n - 1).value, k) || k == name || (name in x.replacements && k == ScaleOut(name))
  {
    var before, name, entry := Plan(x, h, start, n - 1).value, h.entries[n - 1].0, h.entries[n - 1].1;
    if name !in x.replacements {
      PutKeys(before, name, Source(x.base, entry, start), k);
    } else {
      PutKeys(before, name, Official(x, name).value, k);
      PutKeys(Put(before, name, Official(x, name).value), ScaleOut(name), Official(x, ScaleIn(name)).value, k);
    }
  }

  /** What one tensor adds to the length: one for a new name, and one more for a restored one's new scale name. */
  lemma PlanGrows(x: Inputs, h: Header, start: nat, n: nat)
    requires 0 < n <= |h.entries| && Plan(x, h, start, n).Some?
    ensures var before, name := Plan(x, h, start, n - 1).value, h.entries[n - 1].0;
            |Plan(x, h, start, n).value| == |before| + (if Has(before, name) then 0 else 1)
              + if name in x.replacements && !Has(before, ScaleOut(name)) then 1 else 0
  {
    var before, name, entry := Plan(x, h, start, n - 1).value, h.entries[n - 1].0, h.entries[n - 1].1;
    if name !in x.replacements {
      PutLength(before, name, Source(x.base, entry, start));
    } else {
      var middle := Put(before, name, Official(x, name).value);
      PutLength(before, name, Official(x, name).value);
      PutKeys(before, name, Official(x, name).value, ScaleOut(name));
      assert |ScaleOut(name)| > |name|;
      PutLength(middle, ScaleOut(name), Official(x, ScaleIn(name)).value);
    }
  }

  lemma {:induction false} PlanAtMost(x: Inputs, h: Header, start: nat, n: nat)
    requires n <= |h.entries| && Plan(x, h, start, n).Some?
    ensures |Plan(x, h, start, n).value| <= n + Restored(x, h, n)
  {
    if n > 0 {
      PlanAtMost(x, h, start, n - 1);
      PlanGrows(x, h, start, n);
    }
  }

  /** Tensor `j` already has the name that the scale of the restored tensor `i` gets. */
  ghost predicate Collides(x: Inputs, h: Header, i: nat, j: nat) {
    && i < |h.entries| && j < |h.entries| && h.entries[i].0 in x.replacements
    && ScaleOut(h.entries[i].0) == h.entries[j].0
  }

  lemma CollisionParts(x: Inputs, h: Header, i: nat, j: nat)
    requires Collides(x, h, i, j)
    ensures i < |h.entries| && j < |h.entries| && i != j
    ensures h.entries[i].0 in x.replacements && ScaleOut(h.entries[i].0) == h.entries[j].0
  {
    ScaleIsLonger(h.entries[i].0);
    hide ScaleOut;
  }

  lemma RestoredNext(x: Inputs, h: Header, n: nat)
    requires 0 < n <= |h.entries|
    ensures Restored(x, h, n) == Restored(x, h, n - 1) + if h.entries[n - 1].0 in x.replacements then 1 else 0
  {
  }

  /** Each collision costs the output an entry. */
  lemma {:induction false} CollisionShortens(x: Inputs, h: Header, start: nat, n: nat, i: nat, j: nat)
    requires n <= |h.entries| && Plan(x, h, start, n).Some? && Collides(x, h, i, j) && i < n && j < n
    ensures |Plan(x, h, start, n).value| < n + Restored(x, h, n)
  {
    hide *;
    CollisionParts(x, h, i, j);
    PlanReaches(x, h, start, n - 1, n);
    PlanGrows(x, h, start, n);
    RestoredNext(x, h, n);
    if i < n - 1 && j < n - 1 {
      CollisionShortens(x, h, start, n - 1, i, j);
    } else {
      PlanAtMost(x, h, start, n - 1);
      PlanHas(x, h, start, n - 1, if i < n - 1 then i else j);
    }
  }

  lemma {:induction false} FreshLength(x: Inputs, h: Header, start: nat, n: nat)
    requires DistinctKeys(h.entries) && FreshScales(x, h) && n <= |h.entries| && Plan(x, h, start, n).Some?
    ensures |Plan(x, h, start, n).value| == n + Restored(x, h, n)
  {
    if n > 0 {
      FreshLength(x, h, start, n - 1);
      PlanIsWanted(x, h, start, n);
    }
  }

  /** The rewrite keeps or restores every tensor and adds every scale if and only if the scale names are fresh. */
  lemma NothingLostIffFresh(x: Inputs, h: Header, start: nat)
    requires DistinctKeys(h.entries) && Plan(x, h, start, |h.entries|).Some?
    ensures |Plan(x, h, start, |h.entries|).value| == |h.entries| + Restored(x, h, |h.entries|) <==> FreshScales(x, h)
  {
    var n := |h.entries|;
    if FreshScales(x, h) {
      FreshLength(x, h, start, n);
    } else {
      var i, j :| 0 <= i < n && 0 <= j < n && h.entries[i].0 in x.replacements
                  && ScaleOut(h.entries[i].0) == h.entries[j].0;
      CollisionShortens(x, h, start, n, i, j);
    }
  }

  /** What one tensor leaves under a key. */
  lemma PlanFind(x: Inputs, h: Header, start: nat, n: nat, k: string)
    requires 0 < n <= |h.entries| && Plan(x, h, start, n).Some?
    ensures Plan(x, h, start, n - 1).Some?
    ensures var (name, entry) := h.entries[n - 1];
            Find(Plan(x, h, start, n).value, k) ==
              if name in x.replacements && k == ScaleOut(name) then Official(x, ScaleIn(name))
              else if k == name
                then (if name in x.replacements then Official(x, name) else Some(Source(x.base, entry, start)))
              else Find(Plan(x, h, start, n - 1).value, k)
  {
    var before, name, entry := Plan(x, h, start, n - 1).value, h.entries[n - 1].0, h.entries[n - 1].1;
    if name !in x.replacements {
      FindPut(before, name, Source(x.base, entry, start), k);
    } else {
      FindPut(before, name, Official(x, name).value, k);
      FindPut(Put(before, name, Official(x, name).value), ScaleOut(name), Official(x, ScaleIn(name)).value, k);
    }
  }

  // ---------------------------------------------------------------- every tensor reads as it did before

  datatype Tensor = Tensor(dtype: string, shape: seq<nat>, data: Bytes)

  /** A tensor of a file, as a reader of the format finds it. */
  ghost function ReadTensor(c: Codec, file: Bytes, name: string): Option<Tensor> {
    match ReadHeader(c, file)
    case Read(h, start) =>
      var e := Find(h.entries, name);
      if e.None? || e.value.end < e.value.begin then None
      else if e.value.begin < e.value.end && start + e.value.end > |file| then None
      else Some(Tensor(e.value.dtype, e.value.shape, Slice(file, start + e.value.begin, start + e.value.end)))
    case _ => None
  }

  ghost function TensorOf(files: seq<Bytes>, s: Source): Tensor
    requires s.entry.begin <= s.entry.end && InFile(files, s)
  {
    Tensor(s.entry.dtype, s.entry.shape, Contents(files, s))
  }

  lemma {:induction false} FindAt<T>(d: seq<(string, T)>, i: nat)
    requires DistinctKeys(d) && i < |d|
    ensures Find(d, d[i].0) == Some(d[i].1)
  {
    if i > 0 {
      assert d[0].0 != d[i].0 && d[1..][i - 1] == d[i];
      FindAt(d[1..], i - 1);
    }
  }

  /** Under each name of the plan a written shard holds that source's tensor. */
  lemma WrittenReads(x: Inputs, metadata: Option<string>, d: seq<(string, Source)>, i: nat)
    requires x.codec.Faithful() && SourcesOk(d) && InFiles(x.files, d, |d|) && DistinctKeys(d) && Named(d) && i < |d|
    requires |EncodeHeader(x.codec, OutHeader(metadata, d))| < LIMIT
    ensures ReadTensor(x.codec, Shard(x, metadata, d), d[i].0) == Some(TensorOf(x.files, d[i].1))
  {
    hide Shard, ReadHeader, Find, Contents, EncodeHeader, Offset, InFiles, InFile, Named;
    ReadsBack(x, metadata, d, i);
    var h := OutHeader(metadata, d);
    assert DistinctKeys(h.entries);
    FindAt(h.entries, i);
  }

  /** An official source is the tensor that its own file holds under that name. */
  lemma OfficialReads(x: Inputs, name: string)
    requires Official(x, name).Some?
    requires var s := Official(x, name).value; s.entry.begin <= s.entry.end && InFile(x.files, s)
    ensures ReadTensor(x.codec, x.files[x.index[name]], name) == Some(TensorOf(x.files, Official(x, name).value))
  {
    hide ReadHeader, Find;
  }

  lemma BaseReads(x: Inputs, h: Header, start: nat, k: nat)
    requires x.base < |x.files| && ReadHeader(x.codec, x.files[x.base]) == Read(h, start)
    requires DistinctKeys(h.entries) && k < |h.entries| && h.entries[k].1.begin <= h.entries[k].1.end
    requires InFile(x.files, Source(x.base, h.entries[k].1, start))
    ensures ReadTensor(x.codec, x.files[x.base], h.entries[k].0)
         == Some(TensorOf(x.files, Source(x.base, h.entries[k].1, start)))
  {
    hide ReadHeader, Find;
    FindAt(h.entries, k);
  }

  /** With fresh scale names the plan holds under each tensor's name what it should. */
  lemma {:induction false} FreshFinds(x: Inputs, h: Header, start: nat, n: nat, k: nat)
    requires DistinctKeys(h.entries) && FreshScales(x, h) && k < n <= |h.entries| && Plan(x, h, start, n).Some?
    ensures var (name, entry) := h.entries[k];
            && Find(Plan(x, h, start, n).value, name) ==
                 (if name in x.replacements then Official(x, name) else Some(Source(x.base, entry, start)))
            && (name in x.replacements ==>
                  Find(Plan(x, h, start, n).value, ScaleOut(name)) == Official(x, ScaleIn(name)))
  {
    hide Plan, Find, Official, ScaleIn, ScaleOut;
    var name, last := h.entries[k].0, h.entries[n - 1].0;
    PlanFind(x, h, start, n, name);
    PlanFind(x, h, start, n, ScaleOut(name));
    if k < n - 1 { FreshFinds(x, h, start, n - 1, k); }
    if ScaleOut(name) == ScaleOut(last) { ScaleOutInjective(name, last); }
    assert name == last <==> k == n - 1;
    assert last in x.replacements ==> ScaleOut(last) != name;
    assert name in x.replacements ==> ScaleOut(name) != last;
  }

  /** The plan of a written shard: what the rewrite has checked by the time it writes. */
  ghost predicate Writes(x: Inputs, h: Header, start: nat) {
    && x.codec.Faithful() && Ordered(x) && x.base < |x.files|
    && ReadHeader(x.codec, x.files[x.base]) == Read(h, start)
    && var plan := Plan(x, h, start, |h.entries|);
    && plan.Some? && SourcesOk(plan.value) && InFiles(x.files, plan.value, |plan.value|)
    && |EncodeHeader(x.codec, OutHeader(h.metadata, plan.value))| < LIMIT
  }

  ghost function NewShard(x: Inputs, h: Header, start: nat): Bytes
    requires Writes(x, h, start)
  {
    Shard(x, h.metadata, Plan(x, h, start, |h.entries|).value)
  }

  /** Whatever the plan finds under a name, the written shard reads under it. */
  lemma ShardFinds(x: Inputs, h: Header, start: nat, key: string)
    requires Writes(x, h, start) && Find(Plan(x, h, start, |h.entries|).value, key).Some?
    ensures var s := Find(Plan(x, h, start, |h.entries|).value, key).value;
            && s.entry.begin <= s.entry.end && InFile(x.files, s)
            && ReadTensor(x.codec, NewShard(x, h, start), key) == Some(TensorOf(x.files, s))
  {
    var d := Plan(x, h, start, |h.entries|).value;
    assert HeaderOk(h) && SizesOk(h);
    PlanOk(x, h, start, |h.entries|);
    PlanNamed(x, h, start);
    var i :| 0 <= i < |d| && d[i] == (key, Find(d, key).value);
    hide Plan, ReadTensor, Shard, EncodeHeader, ReadHeader, Find, HeaderOk, Ordered;
    assert InFile(x.files, d[i].1);
    WrittenReads(x, h.metadata, d, i);
  }

  /** End to end, with fresh scale names: every tensor that is not restored reads from the new shard exactly as from
      the old one, dtype and shape included; every restored one reads as in the official file, and its scale as the
      official scale. */
  lemma EveryTensorReads(x: Inputs, h: Header, start: nat, k: nat)
    requires Writes(x, h, start) && FreshScales(x, h) && k < |h.entries|
    ensures var name, out := h.entries[k].0, NewShard(x, h, start);
            && ReadTensor(x.codec, out, name).Some?
            && (name !in x.replacements ==>
                  ReadTensor(x.codec, out, name) == ReadTensor(x.codec, x.files[x.base], name))
            && (name in x.replacements ==>
                  var scale, official := name + "_scale", name + "_scale_inv";
                  && name in x.index && x.index[name] < |x.files|
                  && official in x.index && x.index[official] < |x.files|
                  && ReadTensor(x.codec, out, name) == ReadTensor(x.codec, x.files[x.index[name]], name)
                  && ReadTensor(x.codec, out, scale).Some?
                  && ReadTensor(x.codec, out, scale) == ReadTensor(x.codec, x.files[x.index[official]], official))
  {
    var name, n := h.entries[k].0, |h.entries|;
    assert x.base < |x.files| && ReadHeader(x.codec, x.files[x.base]) == Read(h, start);
    assert DistinctKeys(h.entries) && SizesOk(h);
    FreshFinds(x, h, start, n, k);
    PlanReaches(x, h, start, k + 1, n);
    PlanNext(x, h, start, k + 1);
    assert ScaleIn(name) == name + "_scale_inv" && ScaleOut(name) == name + "_scale";
    hide Plan, ReadTensor, Find, NewShard, Writes, TensorOf, InFile, FreshScales, ScaleIn, ScaleOut;
    ShardFinds(x, h, start, name);
    if name !in x.replacements {
      BaseReads(x, h, start, k);
    } else {
      ShardFinds(x, h, start, ScaleOut(name));
      OfficialReads(x, name);
      OfficialReads(x, ScaleIn(name));
    }
  }

  /** And nothing else: a name that reads from the new shard is a tensor's or a restored one's scale. */
  lemma NothingElse(x: Inputs, h: Header, start: nat, key: string)
    requires Writes(x, h, start) && ReadTensor(x.codec, NewShard(x, h, start), key).Some?
    ensures exists j ::
              && 0 <= j < |h.entries|
              && (h.entries[j].0 == key || (h.entries[j].0 in x.replacements && h.entries[j].0 + "_scale" == key))
  {
    var d := Plan(x, h, start, |h.entries|).value;
    assert HeaderOk(h) && Named(h.entries) && SizesOk(h);
    hide Plan, Shard, EncodeHeader, HeaderOk, SizesOk, Ordered, Find, ReadTensor, ReadHeader, OutHeader;
    PlanOk(x, h, start, |h.entries|);
    PlanNamed(x, h, start);
    ShardHeader(x, h.metadata, d);
    InHeader(x.codec, NewShard(x, h, start), key);
    OutNames(h.metadata, d, key);
    KeysOfPlan(x, h, start, |h.entries|, key);
  }

  lemma InHeader(c: Codec, file: Bytes, key: string)
    requires ReadTensor(c, file, key).Some?
    ensures ReadHeader(c, file).Read? && Has(ReadHeader(c, file).header.entries, key)
  {
    hide ReadHeader;
  }

  lemma OutNames(metadata: Option<string>, d: seq<(string, Source)>, key: string)
    requires SourcesOk(d) && Has(OutHeader(metadata, d).entries, key)
    ensures Has(d, key)
  {
    var i :| 0 <= i < |d| && OutHeader(metadata, d).entries[i].0 == key;
    assert d[i].0 == key;
  }

  lemma ShardHeader(x: Inputs, metadata: Option<string>, d: seq<(string, Source)>)
    requires x.codec.Faithful() && SourcesOk(d) && InFiles(x.files, d, |d|) && DistinctKeys(d) && Named(d)
    requires |EncodeHeader(x.codec, OutHeader(metadata, d))| < LIMIT
    ensures ReadHeader(x.codec, Shard(x, metadata, d)).Read?
    ensures ReadHeader(x.codec, Shard(x, metadata, d)).header == OutHeader(metadata, d)
  {
    hide ReadHeader, EncodeHeader, Body;
    OutHeaderOk(metadata, d);
    HeaderReadsBack(x.codec, OutHeader(metadata, d), Body(x.files, d, |d|));
  }

  // ---------------------------------------------------------------- which side a collision loses

  /** What a colliding name holds after the first `n` tensors: nothing, then what the earlier of the two put there,
      then what the later one put there. */
  ghost function Holder(x: Inputs, h: Header, start: nat, n: nat, i: nat, j: nat): Option<Source>
    requires n <= |h.entries| && Collides(x, h, i, j)
  {
    var own, scale := Some(Source(x.base, h.entries[j].1, start)), Official(x, ScaleIn(h.entries[i].0));
    if i < n && j < n then (if i < j then own else scale)
    else if i < n then scale
    else if j < n then own
    else None
  }

  lemma {:induction false} CollisionHolder(x: Inputs, h: Header, start: nat, n: nat, i: nat, j: nat)
    requires DistinctKeys(h.entries) && n <= |h.entries| && Plan(x, h, start, |h.entries|).Some? && Collides(x, h, i, j)
    ensures Plan(x, h, start, n).Some?
    ensures Find(Plan(x, h, start, n).value, h.entries[j].0) == Holder(x, h, start, n, i, j)
  {
    hide Plan, Official, Restorable, DistinctKeys, ScaleOut, ScaleIn, Find, IsWeight;
    PlanReaches(x, h, start, n, |h.entries|);
    if n == 0 {
      NothingPlanned(x, h, start, h.entries[j].0);
    } else {
      ScaleIsNoWeight(x, h, start, i, j);
      CollisionHolder(x, h, start, n - 1, i, j);
      PlanFind(x, h, start, n, h.entries[j].0);
      CollidingNames(x, h, i, j, n - 1);
    }
  }

  lemma NothingPlanned(x: Inputs, h: Header, start: nat, key: string)
    requires Plan(x, h, start, 0).Some?
    ensures Find(Plan(x, h, start, 0).value, key) == None
  {
  }

  /** Only tensor `j` has the colliding name, and only tensor `i`'s scale gets it. */
  lemma CollidingNames(x: Inputs, h: Header, i: nat, j: nat, k: nat)
    requires DistinctKeys(h.entries) && Collides(x, h, i, j) && k < |h.entries|
    ensures h.entries[k].0 == h.entries[j].0 <==> k == j
    ensures ScaleOut(h.entries[k].0) == h.entries[j].0 <==> k == i
    ensures i != j
  {
    hide ScaleOut;
    ScaleIsLonger(h.entries[i].0);
    if ScaleOut(h.entries[k].0) == h.entries[j].0 { ScaleOutInjective(h.entries[k].0, h.entries[i].0); }
  }

  lemma ScaleIsLonger(name: string)
    ensures ScaleOut(name) != name
  {
    assert |ScaleOut(name)| > |name|;
  }

  lemma {:induction false} PlanReaches(x: Inputs, h: Header, start: nat, m: nat, n: nat)
    requires m <= n <= |h.entries| && Plan(x, h, start, n).Some?
    ensures Plan(x, h, start, m).Some?
  {
    if m < n { PlanReaches(x, h, start, m, n - 1); }
  }

  /** A tensor with a scale's name is never one to restore: it would break the contract. */
  lemma ScaleIsNoWeight(x: Inputs, h: Header, start: nat, i: nat, j: nat)
    requires Plan(x, h, start, |h.entries|).Some? && Collides(x, h, i, j)
    ensures h.entries[j].0 !in x.replacements
  {
    PlanReaches(x, h, start, j + 1, |h.entries|);
    var name := h.entries[j].0;
    assert name == ScaleOut(h.entries[i].0) && name[|name| - 1] == 'e';
    EndsInT(name);
  }

  lemma EndsInT(name: string)
    ensures IsWeight(name) ==> name[|name| - 1] == 't'
  {
    assert IsWeight(name) ==> name[|name| - 1] == name[|name| - 7..][6];
  }

  /** Which side a collision loses, for every header: the name holds what came later. A colliding tensor after the
      restored weight keeps its bytes and the official scale is lost; one before it gives way to the official scale. */
  lemma CollisionLoses(x: Inputs, h: Header, start: nat, i: nat, j: nat)
    requires DistinctKeys(h.entries) && Plan(x, h, start, |h.entries|).Some? && Collides(x, h, i, j)
    ensures i != j
    ensures var kept := Find(Plan(x, h, start, |h.entries|).value, h.entries[j].0);
            kept == if j > i then Some(Source(x.base, h.entries[j].1, start)) else Official(x, ScaleIn(h.entries[i].0))
  {
    CollidingNames(x, h, i, j, i);
    CollisionHolder(x, h, start, |h.entries|, i, j);
  }

  /** One witness for each order. */
  lemma CollidingScaleIsLost(x: Inputs, h: Header, start: nat, w: Entry, s: Entry)
    requires h.entries == [("a.weight", w), ("a.weight_scale", s)] && x.replacements == {"a.weight"}
    requires Plan(x, h, start, 2).Some?
    ensures Official(x, "a.weight").Some?
    ensures Plan(x, h, start, 2).value ==
              [("a.weight", Official(x, "a.weight").value), ("a.weight_scale", Source(x.base, s, start))]
  {
    ExampleNames();
    PlanNext(x, h, start, 1);
    PlanNext(x, h, start, 2);
    hide Official, Restorable, ScaleOut, ScaleIn;
    assert Plan(x, h, start, 0) == Some([]);
  }

  lemma CollidingTensorIsLost(x: Inputs, h: Header, start: nat, w: Entry, s: Entry)
    requires h.entries == [("a.weight_scale", s), ("a.weight", w)] && x.replacements == {"a.weight"}
    requires Plan(x, h, start, 2).Some?
    ensures Official(x, "a.weight").Some? && Official(x, "a.weight_scale_inv").Some?
    ensures Plan(x, h, start, 2).value ==
              [("a.weight_scale", Official(x, "a.weight_scale_inv").value), ("a.weight", Official(x, "a.weight").value)]
  {
    ExampleNames();
    PlanNext(x, h, start, 1);
    PlanNext(x, h, start, 2);
    hide Official, Restorable, ScaleOut, ScaleIn;
    assert Plan(x, h, start, 0) == Some([]);
  }

  lemma ExampleNames()
    ensures ScaleOut("a.weight") == "a.weight_scale" && ScaleIn("a.weight") == "a.weight_scale_inv"
    ensures "a.weight" != "a.weight_scale"
  {
    assert |"a.weight"| == 8 && |"a.weight_scale"| == 14;
  }
}
