/** The n-gram embedding ids: `ple_ids_for` (oracle/ref_engine_logits.py) and `ple_uid_table`
    (oracle/ref_longctx_logits.py). */
module PleIds {
  import opened Arithmetic

  const EOS: int := 248044
  const NGRAM: nat := 3
  const NHEADS: nat := 16 // eight heads per n-gram length, H_PER in the programs
  const WORD: int := 0x1_0000_0000_0000_0000
  const HALF: int := 0x8000_0000_0000_0000

  type word = x: int | 0 <= x < WORD

  function Low(x: int): word {
    x % WORD
  }

  /** Exclusive or, bit by bit. */
  function XorBits(a: nat, b: nat): nat
    decreases a + b
  {
    if a == 0 && b == 0 then 0 else 2 * XorBits(a / 2, b / 2) + if a % 2 == b % 2 then 0 else 1
  }

  lemma {:induction false} XorBelow(a: nat, b: nat, n: nat)
    requires a < Pow2(n) && b < Pow2(n)
    ensures XorBits(a, b) < Pow2(n)
    decreases n
  {
    if n > 0 { XorBelow(a / 2, b / 2, n - 1); }
  }

  function Xor(a: word, b: word): word {
    WordSize();
    XorBelow(a, b, 64);
    XorBits(a, b)
  }

  lemma WordSize()
    ensures Pow2(64) == WORD
  {
    assert Pow2(1) == 2 && Pow2(2) == 4;
    PowAdd(2, 2);
    PowAdd(4, 4);
    PowAdd(8, 8);
    PowAdd(16, 16);
    PowAdd(32, 32);
  }

  /** The two's-complement reading of a word. */
  function Signed(x: word): int {
    if x < HALF then x else x - WORD
  }

  /** numpy's int64 result of an exact value. */
  function Int64(x: int): int {
    Signed(Low(x))
  }

  datatype Heads = Heads(multipliers: seq<int>, vocab: seq<int>, offsets: seq<int>)

  ghost predicate ValidHeads(h: Heads) {
    && |h.multipliers| == NGRAM && |h.vocab| == NHEADS && |h.offsets| == NHEADS
    && forall j | 0 <= j < NHEADS :: h.vocab[j] > 0 && -HALF <= h.offsets[j] && h.offsets[j] + h.vocab[j] <= HALF
  }

  // ----- The declarative form

  function History(ids: seq<int>): (hist: seq<int>)
    ensures |hist| == |ids| + NGRAM - 1
  {
    seq(NGRAM - 1, _ => EOS) + ids
  }

  /** The token `p` back of position i, unless an EOS lies between them. */
  function ShiftedToken(hist: seq<int>, p: nat, i: nat): int
    requires i < |hist|
  {
    if p <= i && EOS !in hist[i - p..i] then hist[i - p] else EOS
  }

  /** token * multiplier, wrapped to 64 bits. */
  function Scrambled(token: int, multiplier: int): word {
    Low(token * Low(multiplier))
  }

  function Mixed(h: Heads, hist: seq<int>, i: nat, n: nat): word
    requires ValidHeads(h) && i < |hist| && 1 <= n <= NGRAM
  {
    var part := Scrambled(ShiftedToken(hist, n - 1, i), h.multipliers[n - 1]);
    if n == 1 then part else Xor(Mixed(h, hist, i, n - 1), part)
  }

  function Ngram(j: nat): nat {
    2 + j / 8
  }

  /** The id of head j at history position i. */
  function Uid(h: Heads, hist: seq<int>, i: nat, j: nat): int
    requires ValidHeads(h) && i < |hist| && j < NHEADS
  {
    Signed(Mixed(h, hist, i, Ngram(j))) % h.vocab[j] + h.offsets[j]
  }

  function UidRow(h: Heads, hist: seq<int>, i: nat): (row: seq<int>)
    requires ValidHeads(h) && i < |hist|
    ensures |row| == NHEADS
  {
    seq(NHEADS, j requires 0 <= j < NHEADS => Uid(h, hist, i, j))
  }

  /** Every id lies in its head's slice of the embedding table. */
  lemma UidInRange(h: Heads, hist: seq<int>, i: nat, j: nat)
    requires ValidHeads(h) && i < |hist| && j < NHEADS
    ensures h.offsets[j] <= Uid(h, hist, i, j) < h.offsets[j] + h.vocab[j]
  {
  }

  /** A row depends on the last NGRAM tokens only. */
  lemma RowIsLocal(h: Heads, a: seq<int>, b: seq<int>, i: nat, k: nat)
    requires ValidHeads(h) && NGRAM - 1 <= i < |a| && NGRAM - 1 <= k < |b|
    requires a[i - 2..i + 1] == b[k - 2..k + 1]
    ensures UidRow(h, a, i) == UidRow(h, b, k)
  {
    forall p: nat | p < NGRAM ensures ShiftedToken(a, p, i) == ShiftedToken(b, p, k) {
      TokenIsLocal(a, b, i, k, p);
    }
    forall n: nat | 1 <= n <= NGRAM ensures Mixed(h, a, i, n) == Mixed(h, b, k, n) {
      MixedSame(h, a, b, i, k, n);
    }
  }

  lemma TokenIsLocal(a: seq<int>, b: seq<int>, i: nat, k: nat, p: nat)
    requires 2 <= i < |a| && 2 <= k < |b| && p <= 2 && a[i - 2..i + 1] == b[k - 2..k + 1]
    ensures ShiftedToken(a, p, i) == ShiftedToken(b, p, k)
  {
    var u, v := a[i - 2..i + 1], b[k - 2..k + 1];
    assert a[i - p] == u[2 - p] && b[k - p] == v[2 - p];
    assert a[i - p..i] == u[2 - p..2] && b[k - p..k] == v[2 - p..2];
  }

  lemma {:induction false} MixedSame(h: Heads, a: seq<int>, b: seq<int>, i: nat, k: nat, n: nat)
    requires ValidHeads(h) && i < |a| && k < |b| && 1 <= n <= NGRAM
    requires forall p: nat | p < n :: ShiftedToken(a, p, i) == ShiftedToken(b, p, k)
    ensures Mixed(h, a, i, n) == Mixed(h, b, k, n)
  {
    assert ShiftedToken(a, n - 1, i) == ShiftedToken(b, n - 1, k);
    if n > 1 { MixedSame(h, a, b, i, k, n - 1); }
  }

  // ----- Both programs find the segment by the last EOS before a position

  /** The last EOS index below n, or -1. */
  function LastEos(hist: seq<int>, n: nat): (e: int)
    requires n <= |hist|
    ensures -1 <= e < n
  {
    if n == 0 then -1 else if hist[n - 1] == EOS then n - 1 else LastEos(hist, n - 1)
  }

  /** The test both programs make. */
  predicate InSegment(hist: seq<int>, p: nat, i: nat)
    requires i < |hist|
  {
    i - (LastEos(hist, i) + 1) >= p && i - p >= 0
  }

  lemma {:induction false} LastEosIsLast(hist: seq<int>, n: nat, k: nat)
    requires k <= n <= |hist|
    ensures LastEos(hist, n) < k <==> EOS !in hist[k..n]
  {
    if n > k {
      LastEosIsLast(hist, n - 1, k);
      assert hist[k..n] == hist[k..n - 1] + [hist[n - 1]];
    }
  }

  lemma SegmentTest(hist: seq<int>, p: nat, i: nat)
    requires i < |hist|
    ensures (if InSegment(hist, p, i) then hist[if i >= p then i - p else 0] else EOS) == ShiftedToken(hist, p, i)
  {
    if p <= i { LastEosIsLast(hist, i, i - p); }
  }

  // ----- The loop form

  method ShiftedRow(hist: seq<int>, shift: nat) returns (row: seq<int>)
    ensures |row| == |hist| && forall i | 0 <= i < |hist| :: row[i] == ShiftedToken(hist, shift, i)
  {
    var n := |hist|;
    var eosPos := seq(n, _ => -1);
    for i := 0 to n
      invariant |eosPos| == n
      invariant forall k | 0 <= k < n :: eosPos[k] == if k < i && hist[k] == EOS then k else -1
    {
      if hist[i] == EOS {
        eosPos := eosPos[i := i];
      }
    }
    var prevIncl := [];
    var run := -HALF;
    for i := 0 to n
      invariant |prevIncl| == i && (if i == 0 then run == -HALF else run == LastEos(hist, i))
      invariant forall k | 0 <= k < i :: prevIncl[k] == LastEos(hist, k + 1)
    {
      run := if run >= eosPos[i] then run else eosPos[i];
      prevIncl := prevIncl + [run];
    }
    row := [];
    for i := 0 to n
      invariant |row| == i && forall k | 0 <= k < i :: row[k] == ShiftedToken(hist, shift, k)
    {
      var prev := if i == 0 then -1 else prevIncl[i - 1];
      var segStart := prev + 1;
      var posInSeg := i - segStart;
      var src := i - shift;
      var valid := posInSeg >= shift && src >= 0;
      SegmentTest(hist, shift, i);
      row := row + [if valid then hist[if src >= 0 then src else 0] else EOS];
    }
  }

  ghost predicate AreShifted(hist: seq<int>, shifted: seq<seq<int>>) {
    && |shifted| == NGRAM
    && forall p | 0 <= p < NGRAM :: IsShifted(hist, shifted[p], p)
  }

  ghost predicate IsShifted(hist: seq<int>, row: seq<int>, p: nat) {
    |row| == |hist| && forall i | 0 <= i < |hist| :: row[i] == ShiftedToken(hist, p, i)
  }

  lemma WrapsOnce(token: int, multiplier: int)
    ensures Scrambled(Low(token), multiplier) == Scrambled(token, multiplier)
  {
    LowTimes(token, Low(multiplier));
  }

  /** The mix of the first `ngram` shifted tokens at position i. */
  method MixAt(hist: seq<int>, h: Heads, shifted: seq<seq<int>>, i: nat, ngram: nat) returns (mixed: word)
    requires ValidHeads(h) && AreShifted(hist, shifted) && i < |hist| && 2 <= ngram <= NGRAM
    ensures mixed == Mixed(h, hist, i, ngram)
  {
    assert IsShifted(hist, shifted[0], 0);
    var token := shifted[0][i];
    mixed := Low(token);
    mixed := Scrambled(mixed, h.multipliers[0]);
    WrapsOnce(token, h.multipliers[0]);
    assert mixed == Mixed(h, hist, i, 1);
    for p := 1 to ngram
      invariant mixed == Mixed(h, hist, i, p)
    {
      assert IsShifted(hist, shifted[p], p);
      mixed := Xor(mixed, Scrambled(shifted[p][i], h.multipliers[p]));
    }
  }

  method RowAt(hist: seq<int>, h: Heads, shifted: seq<seq<int>>, i: nat) returns (r: seq<int>)
    requires ValidHeads(h) && AreShifted(hist, shifted) && i < |hist|
    ensures r == UidRow(h, hist, i)
  {
    r := [];
    for ngram := 2 to NGRAM + 1
      invariant |r| == (ngram - 2) * 8 && forall j | 0 <= j < |r| :: r[j] == Uid(h, hist, i, j)
    {
      var start := (ngram - 2) * 8;
      var mixed := MixAt(hist, h, shifted, i, ngram);
      var m := if mixed < HALF then mixed else mixed - WORD;
      for k := 0 to 8
        invariant |r| == start + k && forall j | 0 <= j < |r| :: r[j] == Uid(h, hist, i, j)
      {
        assert Ngram(start + k) == ngram && m == Signed(mixed);
        r := r + [m % h.vocab[start + k] + h.offsets[start + k]];
      }
    }
  }

  method PleIdsFor(ids: seq<int>, h: Heads) returns (out: seq<seq<int>>)
    requires ValidHeads(h)
    ensures |out| == |ids| && forall i | 0 <= i < |ids| :: out[i] == UidRow(h, History(ids), i + NGRAM - 1)
  {
    var hist := seq(NGRAM - 1, _ => EOS) + ids;
    var shifted := [];
    for shift := 0 to NGRAM
      invariant |shifted| == shift && forall p | 0 <= p < shift :: IsShifted(hist, shifted[p], p)
    {
      var row := ShiftedRow(hist, shift);
      shifted := shifted + [row];
    }
    out := [];
    for i := NGRAM - 1 to |hist|
      invariant |out| == i - (NGRAM - 1)
      invariant forall k | 0 <= k < |out| :: out[k] == UidRow(h, hist, k + NGRAM - 1)
    {
      var r := RowAt(hist, h, shifted, i);
      out := out + [r];
    }
  }

  /** Reducing a factor first does not change a product's low word. */
  lemma LowTimes(x: int, m: int)
    ensures Low(Low(x) * m) == Low(x * m)
  {
    var q, r := x / WORD, Low(x);
    ProductSplits(q, r, m, WORD);
    LowPlus(r * m, q * m);
  }

  lemma ProductSplits(q: int, r: int, m: int, w: int)
    ensures (q * w + r) * m == r * m + q * m * w
  {
  }

  lemma LowPlus(a: int, k: int)
    ensures Low(a + k * WORD) == Low(a)
  {
  }

  // ----- The vectorized form

  function EosIndex(hist: seq<int>): (s: seq<int>)
    ensures |s| == |hist|
  {
    seq(|hist|, i requires 0 <= i < |hist| => if hist[i] == EOS then i else -1)
  }

  /** np.maximum.accumulate */
  function Accumulate(s: seq<int>): (r: seq<int>)
    ensures |r| == |s|
  {
    if |s| <= 1 then s
    else
      var r := Accumulate(s[..|s| - 1]);
      var last := s[|s| - 1];
      r + [if r[|r| - 1] >= last then r[|r| - 1] else last]
  }

  lemma {:induction false} AccumulateFindsLast(hist: seq<int>, n: nat)
    requires 0 < n <= |hist|
    ensures Accumulate(EosIndex(hist)[..n])[n - 1] == LastEos(hist, n)
    ensures forall k | 0 <= k < n :: Accumulate(EosIndex(hist)[..n])[k] == LastEos(hist, k + 1)
  {
    var s := EosIndex(hist)[..n];
    if n > 1 {
      AccumulateFindsLast(hist, n - 1);
      assert s[..n - 1] == EosIndex(hist)[..n - 1];
    }
  }

  /** A part of the mix for a whole column, with numpy's uint64 wrap. */
  function Part(col: seq<int>, multiplier: int): (part: seq<word>)
    ensures |part| == |col|
  {
    seq(|col|, i requires 0 <= i < |col| => Scrambled(Low(col[i]), multiplier))
  }

  function XorAll(a: seq<word>, b: seq<word>): (c: seq<word>)
    requires |a| == |b|
    ensures |c| == |a|
  {
    seq(|a|, i requires 0 <= i < |a| => Xor(a[i], b[i]))
  }

  /** np.where(valid, hist[np.maximum(src, 0)], EOS) */
  function ShiftedColumn(hist: seq<int>, posInSeg: seq<int>, p: nat): (col: seq<int>)
    requires |posInSeg| == |hist|
    ensures |col| == |hist|
  {
    seq(|hist|, i requires 0 <= i < |hist| =>
      if posInSeg[i] >= p && i - p >= 0 then hist[if i - p >= 0 then i - p else 0] else EOS)
  }

  lemma ColumnIsShifted(hist: seq<int>, posInSeg: seq<int>, p: nat)
    requires |posInSeg| == |hist| && forall i | 0 <= i < |hist| :: posInSeg[i] == i - (LastEos(hist, i) + 1)
    ensures IsShifted(hist, ShiftedColumn(hist, posInSeg, p), p)
  {
    var col := ShiftedColumn(hist, posInSeg, p);
    forall i | 0 <= i < |hist| ensures col[i] == ShiftedToken(hist, p, i) {
      SegmentTest(hist, p, i);
    }
  }

  lemma PrevSegIsLast(hist: seq<int>, i: nat)
    requires i < |hist|
    ensures |Accumulate(EosIndex(hist))| == |hist|
    ensures ([-1] + Accumulate(EosIndex(hist))[..|hist| - 1])[i] == LastEos(hist, i)
  {
    AccumulateFindsLast(hist, |hist|);
    assert EosIndex(hist)[..|hist|] == EosIndex(hist);
  }

  method ShiftedColumns(hist: seq<int>) returns (shifted: seq<seq<int>>)
    requires hist != []
    ensures AreShifted(hist, shifted)
  {
    var n := |hist|;
    var prevIncl := Accumulate(EosIndex(hist));
    var prevSeg := [-1] + prevIncl[..n - 1];
    var posInSeg := seq(n, i requires 0 <= i < n => i - (prevSeg[i] + 1));
    forall i | 0 <= i < n ensures posInSeg[i] == i - (LastEos(hist, i) + 1) { PrevSegIsLast(hist, i); }
    shifted := [];
    for p := 0 to NGRAM
      invariant |shifted| == p && forall q | 0 <= q < p :: IsShifted(hist, shifted[q], q)
    {
      ColumnIsShifted(hist, posInSeg, p);
      shifted := shifted + [ShiftedColumn(hist, posInSeg, p)];
    }
  }

  ghost predicate AreMixed(hist: seq<int>, h: Heads, mixed: seq<word>, n: nat)
    requires ValidHeads(h) && 1 <= n <= NGRAM
  {
    |mixed| == |hist| && forall i | 0 <= i < |hist| :: mixed[i] == Mixed(h, hist, i, n)
  }

  lemma PartOfMix(hist: seq<int>, h: Heads, col: seq<int>, p: nat, before: seq<word>)
    requires ValidHeads(h) && p < NGRAM && IsShifted(hist, col, p) && |before| == |hist|
    requires p > 0 ==> AreMixed(hist, h, before, p)
    ensures var part := Part(col, h.multipliers[p]);
            AreMixed(hist, h, if p == 0 then part else XorAll(before, part), p + 1)
  {
    var part := Part(col, h.multipliers[p]);
    forall i | 0 <= i < |hist| ensures part[i] == Scrambled(ShiftedToken(hist, p, i), h.multipliers[p]) {
      WrapsOnce(col[i], h.multipliers[p]);
    }
  }

  method MixColumns(hist: seq<int>, h: Heads, shifted: seq<seq<int>>, ngram: nat) returns (mixed: seq<word>)
    requires ValidHeads(h) && 2 <= ngram <= NGRAM && AreShifted(hist, shifted)
    ensures AreMixed(hist, h, mixed, ngram)
  {
    mixed := seq(|hist|, _ => 0);
    for p := 0 to ngram
      invariant |mixed| == |hist| && (p > 0 ==> AreMixed(hist, h, mixed, p))
    {
      assert IsShifted(hist, shifted[p], p);
      var part := Part(shifted[p], h.multipliers[p]);
      PartOfMix(hist, h, shifted[p], p, mixed);
      mixed := if p == 0 then part else XorAll(mixed, part);
    }
  }

  /** Rows NGRAM-1 and on of one head's column. */
  method HeadColumn(hist: seq<int>, h: Heads, mixed: seq<word>, j: nat) returns (col: seq<int>)
    requires ValidHeads(h) && j < NHEADS && |hist| >= NGRAM - 1 && AreMixed(hist, h, mixed, Ngram(j))
    ensures |col| == |hist| - (NGRAM - 1)
    ensures forall i | 0 <= i < |col| :: col[i] == Uid(h, hist, i + NGRAM - 1, j)
  {
    var lo := NGRAM - 1;
    var vs, off := h.vocab[j], h.offsets[j];
    col := seq(|hist| - lo, i requires 0 <= i < |hist| - lo => Int64(Signed(mixed[lo + i]) % vs + off));
    forall i | 0 <= i < |col| ensures col[i] == Uid(h, hist, i + lo, j) {
      UidInRange(h, hist, i + lo, j);
      FitsInt64(Uid(h, hist, i + lo, j));
    }
  }

  method WriteColumn(uids: array2<int>, j: nat, col: seq<int>)
    requires j < uids.Length1 && |col| == uids.Length0
    modifies uids
    ensures forall i | 0 <= i < uids.Length0 :: uids[i, j] == col[i]
    ensures forall i, k | 0 <= i < uids.Length0 && 0 <= k < uids.Length1 && k != j :: uids[i, k] == old(uids[i, k])
  {
    forall i | 0 <= i < uids.Length0 {
      uids[i, j] := col[i];
    }
  }

  /** The first `heads` columns of the table hold the ids. */
  ghost predicate Filled(uids: array2<int>, hist: seq<int>, h: Heads, heads: nat)
    requires ValidHeads(h) && heads <= NHEADS == uids.Length1 && uids.Length0 + NGRAM - 1 == |hist|
    reads uids
  {
    forall i, j | 0 <= i < uids.Length0 && 0 <= j < heads :: uids[i, j] == Uid(h, hist, i + NGRAM - 1, j)
  }

  method FillHead(uids: array2<int>, hist: seq<int>, h: Heads, mixed: seq<word>, j: nat)
    requires ValidHeads(h) && j < NHEADS == uids.Length1 && uids.Length0 + NGRAM - 1 == |hist|
    requires AreMixed(hist, h, mixed, Ngram(j)) && Filled(uids, hist, h, j)
    modifies uids
    ensures Filled(uids, hist, h, j + 1)
  {
    var col := HeadColumn(hist, h, mixed, j);
    WriteColumn(uids, j, col);
  }

  lemma HeadOfNgram(ngram: nat, k: nat)
    requires 2 <= ngram <= NGRAM && k < 8
    ensures (ngram - 2) * 8 + k < NHEADS && Ngram((ngram - 2) * 8 + k) == ngram
  {
  }

  /** The eight heads of one n-gram length. */
  method FillHeads(uids: array2<int>, hist: seq<int>, h: Heads, mixed: seq<word>, ngram: nat)
    requires ValidHeads(h) && NHEADS == uids.Length1 && uids.Length0 + NGRAM - 1 == |hist|
    requires 2 <= ngram <= NGRAM && AreMixed(hist, h, mixed, ngram) && Filled(uids, hist, h, (ngram - 2) * 8)
    modifies uids
    ensures Filled(uids, hist, h, (ngram - 1) * 8)
  {
    var start := (ngram - 2) * 8;
    for k := 0 to 8
      invariant Filled(uids, hist, h, start + k)
    {
      HeadOfNgram(ngram, k);
      FillHead(uids, hist, h, mixed, start + k);
    }
  }

  method PleUidTable(ids: seq<int>, h: Heads) returns (uids: array2<int>)
    requires ValidHeads(h)
    ensures fresh(uids) && uids.Length0 == |ids| && uids.Length1 == NHEADS
    ensures forall i, j | 0 <= i < |ids| && 0 <= j < NHEADS :: uids[i, j] == Uid(h, History(ids), i + NGRAM - 1, j)
  {
    var hist := seq(NGRAM - 1, _ => EOS) + ids;
    var shifted := ShiftedColumns(hist);
    uids := new int[|ids|, NHEADS];
    for ngram := 2 to NGRAM + 1
      invariant Filled(uids, hist, h, (ngram - 2) * 8)
    {
      var mixed := MixColumns(hist, h, shifted, ngram);
      FillHeads(uids, hist, h, mixed, ngram);
    }
  }

  lemma FitsInt64(x: int)
    requires -HALF <= x < HALF
    ensures Int64(x) == x
  {
  }

  /** The two programs agree on every token list, row for row. */
  method BothForms(ids: seq<int>, h: Heads) returns (rows: seq<seq<int>>, table: array2<int>)
    requires ValidHeads(h)
    ensures |rows| == |ids| == table.Length0 && table.Length1 == NHEADS
    ensures forall i, j | 0 <= i < |ids| && 0 <= j < NHEADS :: |rows[i]| == NHEADS && rows[i][j] == table[i, j]
  {
    rows := PleIdsFor(ids, h);
    table := PleUidTable(ids, h);
  }
}
