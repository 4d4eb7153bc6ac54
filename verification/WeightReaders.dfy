/** Readers that must commute with row slicing: CnqReader of oracle/cnq_weights.py and the FP8 source of
    oracle/glm5_common.py. */
module WeightReaders {
  import opened Arithmetic
  import opened Common

  // ----- NVFP4 blocks: four scale bytes and thirty-two packed bytes for sixty-four values

  const BLOCK: nat := 36

  /** The float arithmetic stays abstract, so equal results are bit-equal: a scale byte times the global
      scale, a nibble with its sign, and their product. */
  datatype Math<!V, !S> = Math(scaleOf: byte -> S, signed: nat -> V, times: (V, S) -> V)

  /** Read with sanitize_sf, scale byte 0x7F counts as 0x7E. */
  function Sane(b: byte, sanitize: bool): byte {
    if sanitize && b == 0x7F then 0x7E else b
  }

  function Nibble(pack: byte, high: bool): nat {
    if high then pack / 16 else pack % 16
  }

  /** Value i of a block: its nibble (low first) times the scale of its sixteen. */
  function BlockAt<V, S>(m: Math<V, S>, block: Bytes, sanitize: bool, i: nat): V
    requires |block| == BLOCK && i < 64
  {
    m.times(m.signed(Nibble(block[4 + i / 2], i % 2 == 1)), m.scaleOf(Sane(block[i / 16], sanitize)))
  }

  function BlockValues<V, S>(m: Math<V, S>, block: Bytes, sanitize: bool): (v: seq<V>)
    requires |block| == BLOCK
    ensures |v| == 64 && forall i | 0 <= i < 64 :: v[i] == BlockAt(m, block, sanitize, i)
  {
    seq(64, i requires 0 <= i < 64 => BlockAt(m, block, sanitize, i))
  }

  /** Entry i of the unpacked nibbles is in place once both fills have passed its byte. */
  predicate Unpacked(nib: nat, packs: Bytes, i: nat)
    requires i / 2 < |packs|
  {
    nib == Nibble(packs[i / 2], i % 2 == 1)
  }

  /** nib[0::2] = pack & 0xF, then nib[1::2] = pack >> 4 */
  method Unpack(packs: Bytes) returns (nibbles: seq<nat>)
    ensures |nibbles| == 2 * |packs| && forall i | 0 <= i < |nibbles| :: Unpacked(nibbles[i], packs, i)
  {
    var nib := new nat[2 * |packs|](_ => 0);
    for k := 0 to |packs|
      invariant forall i | 0 <= i < 2 * k && i % 2 == 0 :: Unpacked(nib[i], packs, i)
    {
      nib[2 * k] := packs[k] % 16;
    }
    for k := 0 to |packs|
      invariant forall i | 0 <= i < nib.Length && i % 2 == 0 :: Unpacked(nib[i], packs, i)
      invariant forall i | 0 <= i < 2 * k :: Unpacked(nib[i], packs, i)
    {
      nib[2 * k + 1] := packs[k] / 16;
    }
    nibbles := nib[..];
  }

  /** _deq_block */
  method DeqBlock<V, S>(m: Math<V, S>, block: Bytes) returns (out: seq<V>)
    requires |block| == BLOCK
    ensures out == BlockValues(m, block, false)
  {
    var nib := Unpack(block[4..]);
    out := [];
    for i := 0 to 64
      invariant |out| == i && forall x | 0 <= x < i :: out[x] == BlockAt(m, block, false, x)
    {
      assert Unpacked(nib[i], block[4..], i);
      out := out + [m.times(m.signed(nib[i]), m.scaleOf(block[i / 16]))];
    }
  }

  /** The blocks decoded one after another; a last part shorter than a block is dropped. */
  function Flat<V, S>(m: Math<V, S>, raw: Bytes, sanitize: bool): (v: seq<V>)
    ensures |v| == 64 * (|raw| / 36)
  {
    if |raw| < BLOCK then []
    else
      assert |raw[BLOCK..]| / 36 == |raw| / 36 - 1;
      BlockValues(m, raw[..BLOCK], sanitize) + Flat(m, raw[BLOCK..], sanitize)
  }

  function BlockOf(raw: Bytes, b: nat): (block: Bytes)
    requires b < |raw| / 36
    ensures |block| == BLOCK
  {
    raw[36 * b..36 * b + 36]
  }

  lemma BlockOfRest(raw: Bytes, b: nat)
    requires 0 < b < |raw| / 36
    ensures b - 1 < |raw[BLOCK..]| / 36 && BlockOf(raw[BLOCK..], b - 1) == BlockOf(raw, b)
  {
  }

  lemma {:induction false} FlatAt<V, S>(m: Math<V, S>, raw: Bytes, sanitize: bool, b: nat, i: nat)
    requires b < |raw| / 36 && i < 64
    ensures Flat(m, raw, sanitize)[64 * b + i] == BlockAt(m, BlockOf(raw, b), sanitize, i)
  {
    if b == 0 {
      assert BlockOf(raw, 0) == raw[..BLOCK];
    } else {
      BlockOfRest(raw, b);
      FlatAt(m, raw[BLOCK..], sanitize, b - 1, i);
    }
  }

  /** b[:, 4:36], flattened */
  function Packs(raw: Bytes): (p: Bytes)
    ensures |p| == 32 * (|raw| / 36)
  {
    seq(32 * (|raw| / 36), k requires 0 <= k < 32 * (|raw| / 36) => raw[36 * (k / 32) + 4 + k % 32])
  }

  /** b[:, 0:4], sanitized, flattened */
  function Scales(raw: Bytes, sanitize: bool): (sc: Bytes)
    ensures |sc| == 4 * (|raw| / 36)
  {
    seq(4 * (|raw| / 36), i requires 0 <= i < 4 * (|raw| / 36) => Sane(raw[36 * (i / 4) + i % 4], sanitize))
  }

  /** _deq_flat: the whole tensor with strided fills, every block at once. */
  method DeqFlat<V, S>(m: Math<V, S>, raw: Bytes, sanitize: bool) returns (out: seq<V>)
    ensures out == Flat(m, raw, sanitize)
  {
    var scales := Scales(raw, sanitize);
    var nib := Unpack(Packs(raw));
    ghost var flat := Flat(m, raw, sanitize);
    out := [];
    for i := 0 to 64 * (|raw| / 36)
      invariant |out| == i && forall x | 0 <= x < i :: out[x] == flat[x]
    {
      assert Unpacked(nib[i], Packs(raw), i);
      FlatEntry(m, raw, sanitize, i, nib[i], scales[i / 16]);
      out := out + [m.times(m.signed(nib[i]), m.scaleOf(scales[i / 16]))];
    }
  }

  lemma FlatEntry<V, S>(m: Math<V, S>, raw: Bytes, sanitize: bool, i: nat, nibble: nat, scale: byte)
    requires i < 64 * (|raw| / 36) && Unpacked(nibble, Packs(raw), i) && scale == Scales(raw, sanitize)[i / 16]
    ensures Flat(m, raw, sanitize)[i] == m.times(m.signed(nibble), m.scaleOf(scale))
  {
    FlatValue(m, raw, sanitize, i / 64, i % 64);
    Halves(i);
  }

  lemma FlatValue<V, S>(m: Math<V, S>, raw: Bytes, sanitize: bool, b: nat, x: nat)
    requires b < |raw| / 36 && x < 64
    ensures Flat(m, raw, sanitize)[64 * b + x] ==
            m.times(m.signed(Nibble(Packs(raw)[32 * b + x / 2], x % 2 == 1)),
                    m.scaleOf(Scales(raw, sanitize)[4 * b + x / 16]))
  {
    FlatAt(m, raw, sanitize, b, x);
    PackAt(raw, b, x);
    ScaleAt(raw, sanitize, b, x);
  }

  lemma Halves(i: nat)
    ensures i / 2 == 32 * (i / 64) + i % 64 / 2 && i % 2 == i % 64 % 2 && i / 16 == 4 * (i / 64) + i % 64 / 16
  {
  }

  lemma PackAt(raw: Bytes, b: nat, x: nat)
    requires b < |raw| / 36 && x < 64
    ensures Packs(raw)[32 * b + x / 2] == BlockOf(raw, b)[4 + x / 2]
  {
    var k := 32 * b + x / 2;
    assert k / 32 == b && k % 32 == x / 2;
  }

  lemma ScaleAt(raw: Bytes, sanitize: bool, b: nat, x: nat)
    requires b < |raw| / 36 && x < 64
    ensures Scales(raw, sanitize)[4 * b + x / 16] == Sane(BlockOf(raw, b)[x / 16], sanitize)
  {
    var k := 4 * b + x / 16;
    assert k / 4 == b && k % 4 == x / 16;
  }

  // ----- tensors and rows

  /** How many values an element of `width` bytes holds and what they are; NVFP4: 64 in 36 bytes. */
  datatype Codec<V> = Codec(width: nat, count: nat, decode: Bytes -> seq<V>)

  ghost predicate Sound<V>(c: Codec<V>) {
    c.width > 0 && c.count > 0 && forall e: Bytes | |e| == c.width :: |c.decode(e)| == c.count
  }

  datatype DType<!V, !S> = NvFp4(m: Math<V, S>) | Bf16(f: Bytes -> V) | F32(f: Bytes -> V) | I64(f: Bytes -> V)

  function CodecOf<V, S>(t: DType<V, S>, sanitize: bool): (c: Codec<V>)
    ensures Sound(c)
  {
    match t
    case NvFp4(m) => Codec(36, 64, e => Flat(m, e, sanitize))
    case Bf16(f) => Codec(2, 1, e => [f(e)])
    case F32(f) => Codec(4, 1, e => [f(e)])
    case I64(f) => Codec(8, 1, e => [f(e)])
  }

  function Values<V>(c: Codec<V>, raw: Bytes): seq<V>
    requires c.width > 0
  {
    if |raw| < c.width then [] else c.decode(raw[..c.width]) + Values(c, raw[c.width..])
  }

  /** n whole elements decode on their own, whatever follows. */
  lemma {:induction false} ValuesSplit<V>(c: Codec<V>, a: Bytes, b: Bytes, n: nat)
    requires Sound(c) && |a| == n * c.width
    ensures Values(c, a + b) == Values(c, a) + Values(c, b) && |Values(c, a)| == n * c.count
    decreases n
  {
    if n == 0 {
      assert a + b == b;
      assert Values(c, a) + Values(c, b) == Values(c, b);
    } else {
      OneMore(n - 1, c.width);
      OneMore(n - 1, c.count);
      var first, rest := a[..c.width], a[c.width..];
      ValuesSplit(c, rest, b, n - 1);
      assert (a + b)[..c.width] == first && (a + b)[c.width..] == rest + b;
      assert c.decode(first) + (Values(c, rest) + Values(c, b)) == (c.decode(first) + Values(c, rest)) + Values(c, b);
    }
  }

  /** Elements [i, j) of a run of bytes are decoded by decoding just their bytes [a, b): values [x, y). */
  lemma ValuesSlice<V>(c: Codec<V>, raw: Bytes, i: nat, j: nat, a: nat, b: nat, x: nat, y: nat)
    requires Sound(c) && i <= j && a == i * c.width && b == j * c.width && b <= |raw|
    requires x == i * c.count && y == j * c.count
    ensures a <= b && x <= y <= |Values(c, raw)| && Values(c, raw[a..b]) == Values(c, raw)[x..y]
  {
    Difference(i, j, c.width);
    Difference(i, j, c.count);
    var before, here, rest := raw[..a], raw[a..b], raw[b..];
    assert raw == before + (here + rest);
    ValuesSplit(c, before, here + rest, i);
    ValuesSplit(c, here, rest, j - i);
  }

  lemma Difference(i: nat, j: nat, w: nat)
    requires i <= j
    ensures (j - i) * w == j * w - i * w && (j - i) * w >= 0
  {
  }

  datatype Record<!V, !S> = Record(dtype: DType<V, S>, offset: nat, len: nat, nValues: nat, rows: nat, cols: nat)

  function PerRow<V, S>(t: Record<V, S>): nat {
    if t.dtype.NvFp4? then t.cols / 64 else t.cols
  }

  /** The index record describes a stored 2-D tensor. */
  ghost predicate Stored<V, S>(file: Bytes, blob: nat, t: Record<V, S>, sanitize: bool) {
    && t.nValues == t.rows * t.cols
    && t.len == t.rows * PerRow(t) * CodecOf(t.dtype, sanitize).width
    && blob + t.offset + t.len <= |file|
  }

  /** tensor_f32, the whole tensor flat. */
  function TensorF32<V, S>(file: Bytes, blob: nat, t: Record<V, S>, sanitize: bool): seq<V> {
    var v := Values(CodecOf(t.dtype, sanitize), ReadAt(file, blob + t.offset, t.len));
    if t.dtype.NvFp4? && t.nValues <= |v| then v[..t.nValues] else v
  }

  /** rows_f32; None: the assertions, or a dtype without rows. */
  function RowsF32<V, S>(file: Bytes, blob: nat, t: Record<V, S>, sanitize: bool, r0: nat, r1: nat): Option<seq<V>> {
    var c := CodecOf(t.dtype, sanitize);
    if !(r0 <= r1 <= t.rows) || t.dtype.I64? || (t.dtype.NvFp4? && t.cols % 64 != 0) then None
    else
      var perRow := PerRow(t) * c.width;
      Some(Values(c, ReadAt(file, blob + t.offset + r0 * perRow, (r1 - r0) * perRow)))
  }

  lemma Regroup(r: nat, p: nat, w: nat)
    ensures r * (p * w) == r * p * w
  {
  }

  /** r rows of p elements with `count` values each are r rows of p * count values. */
  lemma RowValues<V, S>(t: Record<V, S>, sanitize: bool, r: nat)
    requires t.dtype.NvFp4? ==> t.cols % 64 == 0
    ensures r * PerRow(t) * CodecOf(t.dtype, sanitize).count == r * t.cols
  {
    var count := CodecOf(t.dtype, sanitize).count;
    Regroup(r, PerRow(t), count);
    assert PerRow(t) * count == t.cols;
  }

  /** Where the bytes of rows r0..r1 lie. */
  lemma RowBytes(r0: nat, r1: nat, rows: nat, p: nat, w: nat)
    requires r0 <= r1 <= rows
    ensures r0 * p <= r1 * p <= rows * p && r0 * p * w <= r1 * p * w <= rows * p * w
    ensures r0 * (p * w) == r0 * p * w && (r1 - r0) * (p * w) == r1 * p * w - r0 * p * w
  {
    Grows(r0, r1, p);
    Grows(r1, rows, p);
    Grows(r0 * p, r1 * p, w);
    Grows(r1 * p, rows * p, w);
    Regroup(r0, p, w);
    Regroup(r1, p, w);
    Difference(r0, r1, p * w);
  }

  lemma RowsRead<V, S>(file: Bytes, blob: nat, t: Record<V, S>, sanitize: bool, r0: nat, r1: nat, a: nat, b: nat)
    requires r0 <= r1 <= t.rows && !t.dtype.I64? && (t.dtype.NvFp4? ==> t.cols % 64 == 0)
    requires a == r0 * PerRow(t) * CodecOf(t.dtype, sanitize).width
    requires b == r1 * PerRow(t) * CodecOf(t.dtype, sanitize).width
    ensures a <= b
    ensures RowsF32(file, blob, t, sanitize, r0, r1) ==
            Some(Values(CodecOf(t.dtype, sanitize), ReadAt(file, blob + t.offset + a, b - a)))
  {
    RowBytes(r0, r1, t.rows, PerRow(t), CodecOf(t.dtype, sanitize).width);
  }

  lemma RowOffsets(r0: nat, r1: nat, rows: nat, p: nat, w: nat, len: nat) returns (a: nat, b: nat)
    requires r0 <= r1 <= rows && len == rows * p * w
    ensures a == r0 * p * w && b == r1 * p * w && a <= b <= len
  {
    RowBytes(r0, r1, rows, p, w);
    a, b := r0 * p * w, r1 * p * w;
  }

  /** The bytes rows_f32 reads are a slice of the tensor's bytes. */
  lemma RowsReadInside<V, S>(file: Bytes, blob: nat, t: Record<V, S>, sanitize: bool, r0: nat, r1: nat, raw: Bytes)
      returns (a: nat, b: nat)
    requires Stored(file, blob, t, sanitize) && raw == ReadAt(file, blob + t.offset, t.len)
    requires r0 <= r1 <= t.rows && !t.dtype.I64? && (t.dtype.NvFp4? ==> t.cols % 64 == 0)
    ensures a == r0 * PerRow(t) * CodecOf(t.dtype, sanitize).width
    ensures b == r1 * PerRow(t) * CodecOf(t.dtype, sanitize).width
    ensures a <= b <= |raw|
    ensures RowsF32(file, blob, t, sanitize, r0, r1) == Some(Values(CodecOf(t.dtype, sanitize), raw[a..b]))
  {
    var p, w := PerRow(t), CodecOf(t.dtype, sanitize).width;
    a, b := RowOffsets(r0, r1, t.rows, p, w, t.len);
    RowsRead(file, blob, t, sanitize, r0, r1, a, b);
    ReadInside(file, blob + t.offset, t.len, a, b);
  }

  /** Rows r0..r1 read by seek are those rows of the whole decoded tensor. */
  lemma RowsAreSlices<V, S>(file: Bytes, blob: nat, t: Record<V, S>, sanitize: bool, r0: nat, r1: nat, x: nat, y: nat)
    requires Stored(file, blob, t, sanitize) && r0 <= r1 <= t.rows && !t.dtype.I64?
    requires (t.dtype.NvFp4? ==> t.cols % 64 == 0) && x == r0 * t.cols && y == r1 * t.cols
    ensures x <= y <= |TensorF32(file, blob, t, sanitize)|
    ensures RowsF32(file, blob, t, sanitize, r0, r1) == Some(TensorF32(file, blob, t, sanitize)[x..y])
  {
    var raw := ReadAt(file, blob + t.offset, t.len);
    WholeTensor(file, blob, t, sanitize);
    RowValues(t, sanitize, r0);
    RowValues(t, sanitize, r1);
    var a, b := RowsReadInside(file, blob, t, sanitize, r0, r1, raw);
    Grows(r0, r1, PerRow(t));
    ValuesSlice(CodecOf(t.dtype, sanitize), raw, r0 * PerRow(t), r1 * PerRow(t), a, b, x, y);
  }

  /** Nothing is cut from, or missing in, a stored tensor. */
  lemma WholeTensor<V, S>(file: Bytes, blob: nat, t: Record<V, S>, sanitize: bool)
    requires Stored(file, blob, t, sanitize) && (t.dtype.NvFp4? ==> t.cols % 64 == 0)
    ensures var v := Values(CodecOf(t.dtype, sanitize), ReadAt(file, blob + t.offset, t.len));
            TensorF32(file, blob, t, sanitize) == v && |v| == t.rows * t.cols
  {
    var c, p := CodecOf(t.dtype, sanitize), PerRow(t);
    var raw := ReadAt(file, blob + t.offset, t.len);
    ReadInside(file, blob + t.offset, t.len, 0, 0);
    ValuesSplit(c, raw, [], t.rows * p);
    RowValues(t, sanitize, t.rows);
  }

  lemma ReadInside(file: Bytes, at: nat, len: nat, a: nat, b: nat)
    requires at + len <= |file| && a <= b <= len
    ensures |ReadAt(file, at, len)| == len && ReadAt(file, at + a, b - a) == ReadAt(file, at, len)[a..b]
  {
    var whole, part := file[at..at + len], file[at + a..at + b];
    forall k | 0 <= k < b - a ensures part[k] == whole[a..b][k] {
      assert part[k] == file[at + a + k] == whole[a + k];
    }
    assert ReadAt(file, at, len) == whole && ReadAt(file, at + a, b - a) == part;
  }

  /** Values through the NVFP4 codec are what _deq_flat computes. */
  lemma {:induction false} ValuesAreFlat<V, S>(m: Math<V, S>, raw: Bytes, sanitize: bool)
    ensures Values(CodecOf(NvFp4(m), sanitize), raw) == Flat(m, raw, sanitize)
  {
    if |raw| >= BLOCK {
      ValuesAreFlat(m, raw[BLOCK..], sanitize);
      var e := raw[..BLOCK];
      assert e[..BLOCK] == e;
      assert Flat(m, e, sanitize) == BlockValues(m, e, sanitize) + [];
    }
  }

  // ----- FP8: 128 x 128 blocks with one scale each

  const FP8_BLOCK: nat := 128

  datatype Mat<T> = Mat(cols: nat, rows: seq<seq<T>>)

  predicate Rectangular<T>(m: Mat<T>) {
    forall i | 0 <= i < |m.rows| :: |m.rows[i]| == m.cols
  }

  function CeilDiv(n: nat): nat {
    (n + 127) / 128
  }

  /** repeat_interleave(128) */
  function Repeated<T>(s: seq<T>): (r: seq<T>)
    ensures |r| == 128 * |s|
    ensures forall i | 0 <= i < |r| :: r[i] == s[i / 128]
  {
    seq(128 * |s|, i requires 0 <= i < 128 * |s| => s[i / 128])
  }

  function MulRow<E, S, F>(w: seq<E>, s: seq<S>, mul: (E, S) -> F): (r: seq<F>)
    requires |w| <= |s|
    ensures |r| == |w| && forall j | 0 <= j < |w| :: r[j] == mul(w[j], s[j])
  {
    seq(|w|, j requires 0 <= j < |w| => mul(w[j], s[j]))
  }

  predicate GridFits<E, S>(w: Mat<E>, s: Mat<S>) {
    |s.rows| == CeilDiv(|w.rows|) && s.cols == CeilDiv(w.cols)
  }

  /** fp8_dequant; None: the scale grid does not fit. */
  function Dequant<E, S, F>(w: Mat<E>, s: Mat<S>, mul: (E, S) -> F): (r: Option<Mat<F>>)
    requires Rectangular(w) && Rectangular(s)
    ensures r.Some? ==> |r.value.rows| == |w.rows| && r.value.cols == w.cols
  {
    if !GridFits(w, s) then None
    else
      var high := Repeated(s.rows);
      Some(Mat(w.cols, seq(|w.rows|, i requires 0 <= i < |w.rows| => MulRow(w.rows[i], Repeated(high[i]), mul))))
  }

  /** A slice that stops at the end. */
  function Slice<T>(m: Mat<T>, a: nat, b: nat): (r: Mat<T>)
    requires Rectangular(m)
    ensures Rectangular(r) && r.cols == m.cols
  {
    var hi := if b <= |m.rows| then b else |m.rows|;
    if a >= hi then Mat(m.cols, []) else Mat(m.cols, m.rows[a..hi])
  }

  /** The whole blocks that hold rows r0..r1, and their scales. */
  function Part<T>(w: Mat<T>, r0: nat, r1: nat): Mat<T>
    requires Rectangular(w)
  {
    Slice(w, 128 * (r0 / 128), 128 * CeilDiv(r1))
  }

  function Grid<T>(s: Mat<T>, r0: nat, r1: nat): Mat<T>
    requires Rectangular(s)
  {
    Slice(s, r0 / 128, CeilDiv(r1))
  }

  /** WeightSource.rows on FP8: whole blocks are read, dequantized and cut. */
  function Fp8Rows<E, S, F>(w: Mat<E>, s: Mat<S>, mul: (E, S) -> F, r0: nat, r1: nat): Option<seq<seq<F>>>
    requires Rectangular(w) && Rectangular(s)
  {
    var part := Dequant(Part(w, r0, r1), Grid(s, r0, r1), mul);
    if part.None? then None
    else
      var rows := part.value.rows;
      var lo, hi := r0 - 128 * (r0 / 128), r1 - 128 * (r0 / 128);
      Some(if lo <= hi <= |rows| then rows[lo..hi] else [])
  }

  /** Each weight is scaled by its own block's scale. */
  lemma DequantAt<E, S, F>(w: Mat<E>, s: Mat<S>, mul: (E, S) -> F, i: nat, j: nat)
    requires Rectangular(w) && Rectangular(s) && GridFits(w, s) && i < |w.rows| && j < w.cols
    ensures i / 128 < |s.rows| && j / 128 < s.cols
    ensures Dequant(w, s, mul).value.rows[i][j] == mul(w.rows[i][j], s.rows[i / 128][j / 128])
  {
  }

  /** The blocks that hold rows r0..r1 fit the scale rows read with them, the last one partial included. */
  lemma PartFits<E, S>(w: Mat<E>, s: Mat<S>, r0: nat, r1: nat)
    requires Rectangular(w) && Rectangular(s) && GridFits(w, s) && r0 <= r1 <= |w.rows|
    ensures GridFits(Part(w, r0, r1), Grid(s, r0, r1)) && r1 - 128 * (r0 / 128) <= |Part(w, r0, r1).rows|
  {
  }

  /** Row k of the part is row k behind the part's first block, and its scales are that row's. */
  lemma PartRow<E, S>(w: Mat<E>, s: Mat<S>, r0: nat, r1: nat, k: nat)
    requires Rectangular(w) && Rectangular(s) && GridFits(w, s) && r0 <= r1 <= |w.rows|
    requires GridFits(Part(w, r0, r1), Grid(s, r0, r1)) && k < |Part(w, r0, r1).rows|
    ensures var i := 128 * (r0 / 128) + k; i < |w.rows| && Part(w, r0, r1).rows[k] == w.rows[i]
    ensures var i := 128 * (r0 / 128) + k;
            k / 128 < |Grid(s, r0, r1).rows| && i / 128 < |s.rows| && Grid(s, r0, r1).rows[k / 128] == s.rows[i / 128]
  {
    assert (128 * (r0 / 128) + k) / 128 == r0 / 128 + k / 128;
  }

  lemma DequantRow<E, S, F>(w: Mat<E>, s: Mat<S>, mul: (E, S) -> F, i: nat)
    requires Rectangular(w) && Rectangular(s) && GridFits(w, s) && i < |w.rows|
    ensures i / 128 < |s.rows| && Dequant(w, s, mul).value.rows[i] == MulRow(w.rows[i], Repeated(s.rows[i / 128]), mul)
  {
  }

  lemma PartRowDequants<E, S, F>(w: Mat<E>, s: Mat<S>, mul: (E, S) -> F, r0: nat, r1: nat, k: nat)
    requires Rectangular(w) && Rectangular(s) && GridFits(w, s) && r0 <= r1 <= |w.rows|
    requires GridFits(Part(w, r0, r1), Grid(s, r0, r1)) && k < |Part(w, r0, r1).rows|
    ensures var i := 128 * (r0 / 128) + k;
            && i < |w.rows|
            && Dequant(Part(w, r0, r1), Grid(s, r0, r1), mul).value.rows[k] == Dequant(w, s, mul).value.rows[i]
  {
    PartRow(w, s, r0, r1, k);
    DequantRow(Part(w, r0, r1), Grid(s, r0, r1), mul, k);
    DequantRow(w, s, mul, 128 * (r0 / 128) + k);
  }

  lemma CutIsSlice<F>(cut: seq<seq<F>>, whole: seq<seq<F>>, lo: nat, hi: nat, from: nat)
    requires lo <= hi <= |cut| && from + hi <= |whole|
    requires forall k | 0 <= k < hi :: cut[k] == whole[from + k]
    ensures cut[lo..hi] == whole[from + lo..from + hi]
  {
  }

  /** Reading rows r0..r1 in whole blocks gives those rows of the whole tensor. */
  lemma Fp8RowsAreSlices<E, S, F>(w: Mat<E>, s: Mat<S>, mul: (E, S) -> F, r0: nat, r1: nat)
    requires Rectangular(w) && Rectangular(s) && r0 <= r1 <= |w.rows| && Dequant(w, s, mul).Some?
    ensures Fp8Rows(w, s, mul, r0, r1) == Some(Dequant(w, s, mul).value.rows[r0..r1])
  {
    var part, grid, from := Part(w, r0, r1), Grid(s, r0, r1), 128 * (r0 / 128);
    PartFits(w, s, r0, r1);
    var cut, whole := Dequant(part, grid, mul).value.rows, Dequant(w, s, mul).value.rows;
    forall k | 0 <= k < r1 - from ensures cut[k] == whole[from + k] {
      PartRowDequants(w, s, mul, r0, r1, k);
    }
    CutIsSlice(cut, whole, r0 - from, r1 - from, from);
  }
}
