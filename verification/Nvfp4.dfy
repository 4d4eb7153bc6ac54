/** The NVFP4 encoder and its exhaustive scale search in exact arithmetic: oracle/nvfp4_sim.py. */
module Nvfp4 {
  import opened Arithmetic
  import opened Common

  const GRID: seq<real> := [0.0, 0.5, 1.0, 1.5, 2.0, 3.0, 4.0, 6.0]
  const MIDS: seq<real> := [0.25, 0.75, 1.25, 1.75, 2.5, 3.5, 5.0]

  /** One sub-block: sixteen consecutive values of a row. */
  type Block = b: seq<real> | |b| == 16 witness seq(16, _ => 0.0)

  // ----- the scale bytes

  function RealPow2(k: int): (p: real)
    ensures p > 0.0
    decreases if k < 0 then -k else k
  {
    if k == 0 then 1.0 else if k > 0 then 2.0 * RealPow2(k - 1) else RealPow2(k + 1) / 2.0
  }

  function Decode(b: nat): real {
    var e, m := b / 8, b % 8;
    if e == 0 then m as real * RealPow2(-9) else (1.0 + m as real / 8.0) * RealPow2(e - 7)
  }

  lemma Doubles(k: int)
    ensures RealPow2(k + 1) == 2.0 * RealPow2(k)
  {
  }

  lemma SmallPowers()
    ensures RealPow2(-6) == 8.0 * RealPow2(-9) && RealPow2(0) == 1.0
  {
    Doubles(-9);
    Doubles(-8);
    Doubles(-7);
  }

  lemma Scale(p: real, x: real, y: real)
    requires p > 0.0 && x < y
    ensures x * p < y * p
  {
  }

  /** The scales grow strictly with the byte. */
  lemma DecodeRises(b: nat)
    ensures Decode(b) < Decode(b + 1)
  {
    var e, m := b / 8, b % 8;
    SmallPowers();
    if m < 7 {
      assert (b + 1) / 8 == e && (b + 1) % 8 == m + 1;
      if e == 0 {
        Scale(RealPow2(-9), m as real, (m + 1) as real);
      } else {
        Scale(RealPow2(e - 7), 1.0 + m as real / 8.0, 1.0 + (m + 1) as real / 8.0);
      }
    } else {
      assert (b + 1) / 8 == e + 1 && (b + 1) % 8 == 0;
      if e == 0 {
        Scale(RealPow2(-9), 7.0, 8.0);
      } else {
        Doubles(e - 7);
        Scale(RealPow2(e - 7), 1.0 + 7.0 / 8.0, 2.0);
      }
    }
  }

  lemma {:induction false} DecodeOrders(a: nat, b: nat)
    requires a < b
    ensures Decode(a) < Decode(b)
  {
    DecodeRises(b - 1);
    if a < b - 1 { DecodeOrders(a, b - 1); }
  }

  method Ue4m3Table() returns (table: seq<real>)
    ensures |table| == 127 && forall b | 0 <= b < 127 :: table[b] == Decode(b)
    ensures table[0] == 0.0 && table[126] == 448.0
    ensures forall a, b | 0 <= a < b < 127 :: table[a] < table[b]
  {
    table := [];
    for b := 0 to 127
      invariant |table| == b && forall x | 0 <= x < b :: table[x] == Decode(x)
    {
      table := table + [Decode(b)];
    }
    TopByte();
    forall a, b | 0 <= a < b < 127 ensures table[a] < table[b] { DecodeOrders(a, b); }
  }

  lemma TopByte()
    ensures Decode(126) == 448.0 && Decode(0) == 0.0
  {
    SmallPowers();
    for k := 0 to 8
      invariant RealPow2(k) == [1.0, 2.0, 4.0, 8.0, 16.0, 32.0, 64.0, 128.0, 256.0][k]
    {
      Doubles(k);
    }
    assert 126 / 8 == 15 && 126 % 8 == 6;
  }

  // ----- nearest E2M1

  /** The bin of a magnitude: midpoints belong to the bin above. */
  function Bin(m: real): (i: nat)
    ensures i < |GRID|
  {
    if m < 0.25 then 0 else if m < 0.75 then 1 else if m < 1.25 then 2 else if m < 1.75 then 3
    else if m < 2.5 then 4 else if m < 3.5 then 5 else if m < 5.0 then 6 else 7
  }

  lemma BinAbove(m: real, i: nat)
    requires i < |MIDS|
    ensures m >= MIDS[i] <==> Bin(m) > i
  {
  }

  /** idx += m >= mid, midpoint by midpoint. */
  method Index(m: real) returns (idx: nat)
    ensures idx == Bin(m)
  {
    idx := 0;
    for i := 0 to |MIDS|
      invariant idx == if Bin(m) < i then Bin(m) else i
    {
      BinAbove(m, i);
      if m >= MIDS[i] { idx := idx + 1; }
    }
  }

  /** E2M1_GRID[idx] */
  function Rounded(m: real): (q: real)
    ensures 0.0 <= q <= 6.0
  {
    GRID[Bin(m)]
  }

  /** Quantized at scale s and dequantized. At scale 0 every magnitude comes back as 0. */
  function DequantAt(x: real, s: real): real
    requires s >= 0.0
  {
    if s == 0.0 then 0.0
    else
      var q := Rounded(Abs(x) / s);
      (if x < 0.0 then -q else q) * s
  }

  lemma NearestMagnitude(m: real, i: nat)
    requires m >= 0.0 && i < |GRID|
    ensures GRID[i] >= 0.0 && Abs(Rounded(m) - m) <= Abs(GRID[i] - m)
    ensures m <= 6.0 ==> Abs(Rounded(m) - m) <= 1.0
  {
  }

  lemma Stretch(q: real, m: real, s: real, qs: real, a: real)
    requires s > 0.0 && qs == q * s && a == m * s
    ensures Abs(qs - a) == Abs(q - m) * s
  {
    assert qs - a == (q - m) * s;
    if q - m < 0.0 { Scale(s, q - m, 0.0); } else if q - m > 0.0 { Scale(s, 0.0, q - m); }
  }

  lemma ScaleUp(p: real, x: real, y: real)
    requires p > 0.0 && x <= y
    ensures x * p <= y * p
  {
    if x < y { Scale(p, x, y); }
  }

  lemma Ratio(x: real, s: real) returns (m: real)
    requires s > 0.0 && x >= 0.0
    ensures m == x / s && m >= 0.0 && m * s == x
  {
    m := x / s;
    assert m * s == x;
    FactorSign(m, s);
  }

  lemma FactorSign(m: real, s: real)
    requires s > 0.0 && m * s >= 0.0
    ensures m >= 0.0
  {
    if m < 0.0 { Scale(s, m, 0.0); }
  }

  /** The magnitude's grid value with the sign back. */
  function WithSign(x: real, q: real): real {
    if x < 0.0 then -q else q
  }

  lemma SignScales(x: real, q: real, s: real)
    ensures (if x < 0.0 then -q else q) * s == WithSign(x, q * s)
  {
    assert (-q) * s == -(q * s);
  }

  /** dequant_at by its parts: the magnitude in steps of s, its grid value, and that at scale s. */
  lemma DequantParts(x: real, s: real) returns (m: real, q: real, qs: real)
    requires s > 0.0
    ensures m >= 0.0 && Abs(x) == m * s && q == Rounded(m) && qs == q * s && DequantAt(x, s) == WithSign(x, qs)
  {
    m := Ratio(Abs(x), s);
    q := Rounded(m);
    qs := q * s;
    SignScales(x, q, s);
  }

  predicate NoFurther(y: real, x: real, value: real) {
    Abs(y - x) <= Abs(value - x) && Abs(y - x) <= Abs(-value - x)
  }

  lemma Signed(x: real, q: real, v: real)
    requires v >= 0.0 && Abs(q - Abs(x)) <= Abs(v - Abs(x))
    ensures Abs(WithSign(x, q) - x) <= Abs(v - x) && Abs(WithSign(x, q) - x) <= Abs(-v - x)
  {
  }

  lemma NearerScaled(s: real, m: real, q: real, v: real, qs: real, vs: real, a: real)
    requires s > 0.0 && a == m * s && qs == q * s && vs == v * s && Abs(q - m) <= Abs(v - m)
    ensures Abs(qs - a) <= Abs(vs - a)
  {
    Stretch(q, m, s, qs, a);
    Stretch(v, m, s, vs, a);
    ScaleUp(s, Abs(q - m), Abs(v - m));
  }

  /** A magnitude, its grid value and any other grid value, seen at scale s. */
  lemma SeenAtScale(x: real, s: real, m: real, q: real, v: real, qs: real, vs: real)
    requires s > 0.0 && Abs(x) == m * s && qs == q * s && vs == v * s && v >= 0.0 && Abs(q - m) <= Abs(v - m)
    ensures NoFurther(WithSign(x, qs), x, vs)
  {
    NearerScaled(s, m, q, v, qs, vs, Abs(x));
    ScaleNotNegative(v, s);
    Signed(x, qs, vs);
  }

  /** dequant_at picks a nearest E2M1 value, of either sign, at every positive scale. */
  lemma DequantIsNearest(x: real, s: real, i: nat, value: real)
    requires s > 0.0 && i < |GRID| && value == GRID[i] * s
    ensures NoFurther(DequantAt(x, s), x, value)
  {
    var m, q, qs := DequantParts(x, s);
    NearestMagnitude(m, i);
    SeenAtScale(x, s, m, q, GRID[i], qs, value);
  }

  lemma CloseAtScale(x: real, s: real, m: real, q: real, qs: real)
    requires s > 0.0 && Abs(x) == m * s && qs == q * s && Abs(q - m) <= 1.0
    ensures Abs(WithSign(x, qs) - x) <= s
  {
    var a, d := Abs(x), Abs(q - m);
    Stretch(q, m, s, qs, a);
    ScaleUp(s, d, 1.0);
    assert Abs(qs - a) == d * s <= s;
    CloseSigned(x, qs, s);
  }

  lemma CloseSigned(x: real, q: real, s: real)
    requires Abs(q - Abs(x)) <= s
    ensures Abs(WithSign(x, q) - x) <= s
  {
  }

  lemma SmallRatio(m: real, s: real, a: real)
    requires s > 0.0 && m * s == a <= 6.0 * s
    ensures m <= 6.0
  {
    if m > 6.0 { Scale(s, 6.0, m); }
  }

  /** In range the error is at most the scale. */
  lemma ErrorAtMostScale(x: real, s: real)
    requires s > 0.0 && Abs(x) <= 6.0 * s
    ensures Abs(DequantAt(x, s) - x) <= s
  {
    var m, q, qs := DequantParts(x, s);
    SmallRatio(m, s, Abs(x));
    NearestMagnitude(m, 0);
    CloseAtScale(x, s, m, q, qs);
  }

  /** No scale is worse for a value than scale 0. */
  lemma NoWorseThanNothing(x: real, s: real)
    requires s >= 0.0
    ensures Abs(DequantAt(x, s) - x) <= Abs(DequantAt(x, 0.0) - x)
  {
    if s > 0.0 { DequantIsNearest(x, s, 0, 0.0); }
  }

  // ----- the objectives

  datatype Objective = X126 | Diag(h: seq<Block>) | Lh(hessian: seq<seq<Block>>)

  /** diag and lh carry one entry per sub-block column. */
  predicate Fits(obj: Objective, columns: nat) {
    match obj
    case X126 => true
    case Diag(h) => |h| == columns
    case Lh(hh) => |hh| == columns && forall k | 0 <= k < columns :: |hh[k]| == 16
  }

  function Dot(a: seq<real>, b: seq<real>): real
    requires |a| == |b|
  {
    if a == [] then 0.0 else a[0] * b[0] + Dot(a[1..], b[1..])
  }

  function Squares(e: seq<real>): (r: seq<real>)
    ensures |r| == |e|
  {
    seq(|e|, i requires 0 <= i < |e| => e[i] * e[i])
  }

  function Errors(block: Block, s: real): (e: Block)
    requires s >= 0.0
  {
    seq(16, i requires 0 <= i < 16 => DequantAt(block[i], s) - block[i])
  }

  /** The error of sub-block column k's values e under the objective. */
  function Cost(obj: Objective, columns: nat, k: nat, e: Block): real
    requires Fits(obj, columns) && k < columns
  {
    match obj
    case X126 => Dot(Squares(e), seq(16, _ => 1.0))
    case Diag(h) => Dot(Squares(e), h[k])
    case Lh(hh) => Dot(e, seq(16, i requires 0 <= i < 16 => Dot(hh[k][i], e)))
  }

  function CostAt(obj: Objective, columns: nat, k: nat, block: Block, g: real, b: nat): real
    requires Fits(obj, columns) && k < columns && g >= 0.0 && b < 127
  {
    Cost(obj, columns, k, Errors(block, ScaleOf(b, g)))
  }

  /** table[b] * g */
  function ScaleOf(b: nat, g: real): (s: real)
    requires g >= 0.0
    ensures s >= 0.0 && (b > 0 && g > 0.0 ==> s > 0.0)
  {
    DecodeNotNegative(b);
    ScaleNotNegative(Decode(b), g);
    Decode(b) * g
  }

  lemma EndScales(g: real)
    requires g >= 0.0
    ensures ScaleOf(0, g) == 0.0 && ScaleOf(126, g) == 448.0 * g
  {
    TopByte();
  }

  lemma DecodeNotNegative(b: nat)
    ensures Decode(b) >= 0.0 && (b > 0 ==> Decode(b) > 0.0)
  {
    TopByte();
    if b > 0 { DecodeOrders(0, b); }
  }

  lemma ScaleNotNegative(x: real, y: real)
    requires x >= 0.0 && y >= 0.0
    ensures x * y >= 0.0 && (x > 0.0 && y > 0.0 ==> x * y > 0.0)
  {
  }

  // ----- global_scale and search

  function AbsMax(s: seq<real>): (m: real)
    ensures m >= 0.0 && (forall i | 0 <= i < |s| :: Abs(s[i]) <= m)
    ensures m == 0.0 <==> forall i | 0 <= i < |s| :: s[i] == 0.0
  {
    if s == [] then 0.0
    else
      var rest := AbsMax(s[1..]);
      if Abs(s[0]) > rest then Abs(s[0]) else rest
  }

  predicate Rectangular(w: seq<seq<Block>>, columns: nat) {
    forall n | 0 <= n < |w| :: |w[n]| == columns
  }

  ghost predicate HasBlock(w: seq<seq<Block>>, n: int, k: int) {
    0 <= n < |w| && 0 <= k < |w[n]|
  }

  /** The largest |x| / 6 of any sub-block, divided by 448; 1 for a tensor of zeros. */
  ghost predicate IsGlobalScale(w: seq<seq<Block>>, g: real) {
    && g > 0.0
    && (forall n, k | HasBlock(w, n, k) :: AbsMax(w[n][k]) <= 6.0 * (448.0 * g))
    && ((exists n, k :: HasBlock(w, n, k) && AbsMax(w[n][k]) == 6.0 * (448.0 * g)) ||
        (g == 1.0 && forall n, k | HasBlock(w, n, k) :: AbsMax(w[n][k]) == 0.0))
  }

  lemma GlobalScaleIsUnique(w: seq<seq<Block>>, g: real, h: real)
    requires IsGlobalScale(w, g) && IsGlobalScale(w, h)
    ensures g == h
  {
    if !(forall n, k | HasBlock(w, n, k) :: AbsMax(w[n][k]) == 0.0) {
      var n, k :| HasBlock(w, n, k) && AbsMax(w[n][k]) == 6.0 * (448.0 * g);
      var m, j :| HasBlock(w, m, j) && AbsMax(w[m][j]) == 6.0 * (448.0 * h);
    }
  }

  ghost predicate MaxSoFar(w: seq<seq<Block>>, mx: real, rows: nat, cols: nat) {
    && mx >= 0.0
    && (forall n, k | HasBlock(w, n, k) && (n < rows || (n == rows && k < cols)) :: AbsMax(w[n][k]) / 6.0 <= mx)
    && (mx > 0.0 ==> exists n, k :: HasBlock(w, n, k) && AbsMax(w[n][k]) / 6.0 == mx)
  }

  method GlobalScale(w: seq<seq<Block>>) returns (g: real)
    ensures IsGlobalScale(w, g)
  {
    var mx := 0.0;
    for n := 0 to |w|
      invariant MaxSoFar(w, mx, n, 0)
    {
      for k := 0 to |w[n]|
        invariant MaxSoFar(w, mx, n, k)
      {
        assert HasBlock(w, n, k);
        if AbsMax(w[n][k]) / 6.0 > mx { mx := AbsMax(w[n][k]) / 6.0; }
      }
    }
    g := if mx > 0.0 then mx / 448.0 else 1.0;
  }

  /** The smallest byte in 1..126 of least cost; 0 for a sub-block of zeros. */
  ghost predicate IsBest(obj: Objective, columns: nat, k: nat, block: Block, g: real, byte: nat)
    requires Fits(obj, columns) && k < columns && g > 0.0
  {
    if AbsMax(block) == 0.0 then byte == 0 else LeastUpTo(obj, columns, k, block, g, 127, byte)
  }

  ghost predicate LeastUpTo(obj: Objective, columns: nat, k: nat, block: Block, g: real, end: nat, byte: nat)
    requires Fits(obj, columns) && k < columns && g > 0.0 && end <= 127
  {
    1 <= byte < end && forall b | 1 <= b < end :: Beats(obj, columns, k, block, g, byte, b)
  }

  ghost predicate Beats(obj: Objective, columns: nat, k: nat, block: Block, g: real, byte: nat, b: nat)
    requires Fits(obj, columns) && k < columns && g > 0.0 && byte < 127 && b < 127
  {
    CostAt(obj, columns, k, block, g, byte) <= CostAt(obj, columns, k, block, g, b) &&
    (b < byte ==> CostAt(obj, columns, k, block, g, byte) < CostAt(obj, columns, k, block, g, b))
  }

  /** best_err (None: infinity) and bb of one sub-block. */
  datatype Cell = Cell(err: Option<real>, byte: nat)

  ghost predicate CellFits(obj: Objective, columns: nat, k: nat, block: Block, g: real, end: nat, c: Cell)
    requires Fits(obj, columns) && k < columns && g > 0.0 && 1 <= end <= 127
  {
    if end == 1 then c == Cell(None, 0)
    else LeastUpTo(obj, columns, k, block, g, end, c.byte) && c.err == Some(CostAt(obj, columns, k, block, g, c.byte))
  }

  /** torch.where(err < best_err, …) at one sub-block. */
  function Improved(c: Cell, err: real, b: nat): Cell {
    if c.err.None? || err < c.err.value then Cell(Some(err), b) else c
  }

  lemma ImprovedFits(obj: Objective, columns: nat, k: nat, block: Block, g: real, b: nat, c: Cell)
    requires Fits(obj, columns) && k < columns && g > 0.0 && 1 <= b < 127
    requires CellFits(obj, columns, k, block, g, b, c)
    ensures CellFits(obj, columns, k, block, g, b + 1, Improved(c, CostAt(obj, columns, k, block, g, b), b))
  {
    var better := Improved(c, CostAt(obj, columns, k, block, g, b), b);
    forall x | 1 <= x < b + 1 ensures Beats(obj, columns, k, block, g, better.byte, x) {
      if x < b { assert Beats(obj, columns, k, block, g, c.byte, x); }
    }
  }

  /** The search over one chunk of rows: byte by byte, all sub-blocks at once. */
  method SearchChunk(rows: seq<seq<Block>>, columns: nat, obj: Objective, g: real) returns (bytes: seq<seq<nat>>)
    requires Rectangular(rows, columns) && Fits(obj, columns) && g > 0.0
    ensures |bytes| == |rows| && forall n | 0 <= n < |rows| :: RowIsBest(obj, columns, rows[n], g, bytes[n])
  {
    var cells := seq(|rows|, _ => seq(columns, _ => Cell(None, 0)));
    for b := 1 to 127
      invariant |cells| == |rows| && forall n | 0 <= n < |rows| :: RowFits(obj, columns, rows[n], g, b, cells[n])
    {
      forall n | 0 <= n < |rows|
        ensures RowFits(obj, columns, rows[n], g, b + 1, ImproveRow(obj, columns, rows[n], g, b, cells[n]))
      {
        RowImproves(obj, columns, rows[n], g, b, cells[n]);
      }
      cells := seq(|rows|, n requires
          0 <= n < |rows| && |rows[n]| == columns && |cells| == |rows| && |cells[n]| == columns =>
        ImproveRow(obj, columns, rows[n], g, b, cells[n]));
    }
    bytes := seq(|rows|, n requires
        0 <= n < |rows| && |rows[n]| == columns && |cells| == |rows| && |cells[n]| == columns =>
      ZeroBytes(rows[n], cells[n]));
    forall n | 0 <= n < |rows| ensures RowIsBest(obj, columns, rows[n], g, bytes[n]) {
      assert RowFits(obj, columns, rows[n], g, 127, cells[n]);
      assert bytes[n] == ZeroBytes(rows[n], cells[n]);
    }
  }

  /** bb[zero] = 0 */
  function ZeroBytes(row: seq<Block>, cells: seq<Cell>): (bytes: seq<nat>)
    requires |cells| == |row|
    ensures |bytes| == |row|
  {
    seq(|row|, k requires 0 <= k < |row| => if AbsMax(row[k]) == 0.0 then 0 else cells[k].byte)
  }

  function ImproveRow(obj: Objective, columns: nat, row: seq<Block>, g: real, b: nat, cells: seq<Cell>)
      : (after: seq<Cell>)
    requires Fits(obj, columns) && |row| == |cells| == columns && g > 0.0 && 1 <= b < 127
    ensures |after| == columns
  {
    seq(columns, k requires 0 <= k < columns => Improved(cells[k], CostAt(obj, columns, k, row[k], g, b), b))
  }

  ghost predicate RowFits(obj: Objective, columns: nat, row: seq<Block>, g: real, end: nat, cells: seq<Cell>)
    requires Fits(obj, columns) && |row| == columns && g > 0.0 && 1 <= end <= 127
  {
    |cells| == columns && forall k | 0 <= k < columns :: CellFits(obj, columns, k, row[k], g, end, cells[k])
  }

  ghost predicate RowIsBest(obj: Objective, columns: nat, row: seq<Block>, g: real, bytes: seq<nat>)
    requires Fits(obj, columns) && |row| == columns && g > 0.0
  {
    |bytes| == columns && forall k | 0 <= k < columns :: IsBest(obj, columns, k, row[k], g, bytes[k])
  }

  lemma RowImproves(obj: Objective, columns: nat, row: seq<Block>, g: real, b: nat, cells: seq<Cell>)
    requires Fits(obj, columns) && |row| == columns && g > 0.0 && 1 <= b < 127
    requires RowFits(obj, columns, row, g, b, cells)
    ensures RowFits(obj, columns, row, g, b + 1, ImproveRow(obj, columns, row, g, b, cells))
  {
    forall k | 0 <= k < columns
      ensures CellFits(obj, columns, k, row[k], g, b + 1, ImproveRow(obj, columns, row, g, b, cells)[k])
    {
      ImprovedFits(obj, columns, k, row[k], g, b, cells[k]);
    }
  }

  /** What search returns: the global scale, every sub-block's best byte, and the values those bytes stand for. */
  ghost predicate IsSearched(w: seq<seq<Block>>, columns: nat, obj: Objective, g: real, bytes: seq<seq<nat>>,
                             out: seq<seq<Block>>)
    requires Rectangular(w, columns) && Fits(obj, columns)
  {
    && IsGlobalScale(w, g) && |bytes| == |out| == |w|
    && (forall n | 0 <= n < |w| :: RowIsBest(obj, columns, w[n], g, bytes[n]))
    && (forall n | 0 <= n < |w| :: |bytes[n]| == |w[n]| && out[n] == DequantRow(w[n], g, bytes[n]))
  }

  /** Row chunk by row chunk. */
  method Search(w: seq<seq<Block>>, columns: nat, obj: Objective, rowChunk: nat)
      returns (g: real, bytes: seq<seq<nat>>, out: seq<seq<Block>>)
    requires Rectangular(w, columns) && Fits(obj, columns) && rowChunk >= 1
    ensures IsSearched(w, columns, obj, g, bytes, out)
  {
    g := GlobalScale(w);
    bytes := [];
    var r0 := 0;
    while r0 < |w|
      invariant r0 <= |w| && |bytes| == r0
      invariant forall n | 0 <= n < r0 :: RowIsBest(obj, columns, w[n], g, bytes[n])
    {
      var end := if r0 + rowChunk <= |w| then r0 + rowChunk else |w|;
      var chunk := SearchChunk(w[r0..end], columns, obj, g);
      bytes := bytes + chunk;
      r0 := end;
    }
    assert forall n | 0 <= n < |w| :: RowIsBest(obj, columns, w[n], g, bytes[n]);
    out := DequantBytes(w, g, bytes, rowChunk);
  }

  lemma RowIsUnique(obj: Objective, columns: nat, row: seq<Block>, g: real, a: seq<nat>, b: seq<nat>)
    requires Fits(obj, columns) && |row| == columns && g > 0.0
    requires RowIsBest(obj, columns, row, g, a) && RowIsBest(obj, columns, row, g, b)
    ensures a == b
  {
    forall k | 0 <= k < columns ensures a[k] == b[k] {
      BestIsUnique(obj, columns, k, row[k], g, a[k], b[k]);
    }
  }

  /** The tensor and the objective determine all three results. */
  lemma SearchIsDetermined(w: seq<seq<Block>>, columns: nat, obj: Objective, g: real, bytes: seq<seq<nat>>,
                           out: seq<seq<Block>>, g': real, bytes': seq<seq<nat>>, out': seq<seq<Block>>)
    requires Rectangular(w, columns) && Fits(obj, columns)
    requires IsSearched(w, columns, obj, g, bytes, out) && IsSearched(w, columns, obj, g', bytes', out')
    ensures g == g' && bytes == bytes' && out == out'
  {
    GlobalScaleIsUnique(w, g, g');
    forall n | 0 <= n < |w| ensures bytes[n] == bytes'[n] {
      RowIsUnique(obj, columns, w[n], g, bytes[n], bytes'[n]);
    }
  }

  /** The result is independent of row_chunk. */
  method SearchTwice(w: seq<seq<Block>>, columns: nat, obj: Objective, chunk: nat, other: nat)
      returns (g: real, bytes: seq<seq<nat>>, out: seq<seq<Block>>, g': real, bytes': seq<seq<nat>>,
               out': seq<seq<Block>>)
    requires Rectangular(w, columns) && Fits(obj, columns) && chunk >= 1 && other >= 1
    ensures g == g' && bytes == bytes' && out == out'
  {
    g, bytes, out := Search(w, columns, obj, chunk);
    g', bytes', out' := Search(w, columns, obj, other);
    SearchIsDetermined(w, columns, obj, g, bytes, out, g', bytes', out');
  }

  lemma BestIsUnique(obj: Objective, columns: nat, k: nat, block: Block, g: real, a: nat, b: nat)
    requires Fits(obj, columns) && k < columns && g > 0.0
    requires IsBest(obj, columns, k, block, g, a) && IsBest(obj, columns, k, block, g, b)
    ensures a == b
  {
    if AbsMax(block) != 0.0 {
      assert Beats(obj, columns, k, block, g, a, b) && Beats(obj, columns, k, block, g, b, a);
    }
  }

  // ----- the best byte is no worse than byte 0

  ghost predicate Weighted(obj: Objective) {
    match obj
    case X126 => true
    case Diag(h) => forall k, i | 0 <= k < |h| && 0 <= i < 16 :: h[k][i] >= 0.0
    case Lh(_) => false
  }

  lemma SquareOrder(a: real, b: real)
    requires Abs(a) <= Abs(b)
    ensures a * a <= b * b
  {
    var x, y := Abs(a), Abs(b);
    assert a * a == x * x && b * b == y * y;
    assert y * y - x * x == (y - x) * (y + x);
    ScaleNotNegative(y - x, y + x);
  }

  lemma {:induction false} DotOrder(a: seq<real>, b: seq<real>, h: seq<real>)
    requires |a| == |b| == |h| && forall i | 0 <= i < |a| :: a[i] <= b[i] && h[i] >= 0.0
    ensures Dot(a, h) <= Dot(b, h)
  {
    if a != [] {
      DotOrder(a[1..], b[1..], h[1..]);
      ScaleNotNegative(b[0] - a[0], h[0]);
      assert (b[0] - a[0]) * h[0] == b[0] * h[0] - a[0] * h[0];
    }
  }

  /** Smaller errors, value by value, cost no more. */
  lemma CostOrder(obj: Objective, columns: nat, k: nat, e: Block, f: Block)
    requires Fits(obj, columns) && k < columns && Weighted(obj)
    requires forall i | 0 <= i < 16 :: Abs(e[i]) <= Abs(f[i])
    ensures Cost(obj, columns, k, e) <= Cost(obj, columns, k, f)
  {
    forall i | 0 <= i < 16 ensures Squares(e)[i] <= Squares(f)[i] { SquareOrder(e[i], f[i]); }
    match obj
    case X126 => DotOrder(Squares(e), Squares(f), seq(16, _ => 1.0));
    case Diag(h) => DotOrder(Squares(e), Squares(f), h[k]);
  }

  /** No byte is worse than byte 0 under x126 and diag with weights that are not negative. */
  lemma NoWorseThanZero(obj: Objective, columns: nat, k: nat, block: Block, g: real, b: nat)
    requires Fits(obj, columns) && k < columns && Weighted(obj) && g > 0.0 && b < 127
    ensures CostAt(obj, columns, k, block, g, b) <= CostAt(obj, columns, k, block, g, 0)
  {
    var s := ScaleOf(b, g);
    EndScales(g);
    forall i | 0 <= i < 16 ensures Abs(Errors(block, s)[i]) <= Abs(Errors(block, 0.0)[i]) {
      NoWorseThanNothing(block[i], s);
    }
    CostOrder(obj, columns, k, Errors(block, s), Errors(block, 0.0));
  }

  /** A block of zeros costs least at byte 0. */
  lemma ZeroBlockCostsNothing(obj: Objective, columns: nat, k: nat, block: Block, g: real, b: nat)
    requires Fits(obj, columns) && k < columns && Weighted(obj) && g > 0.0 && b < 127 && AbsMax(block) == 0.0
    ensures CostAt(obj, columns, k, block, g, 0) <= CostAt(obj, columns, k, block, g, b)
  {
    var s := ScaleOf(b, g);
    EndScales(g);
    forall i | 0 <= i < 16 ensures Abs(Errors(block, 0.0)[i]) <= Abs(Errors(block, s)[i]) {
      assert block[i] == 0.0;
    }
    CostOrder(obj, columns, k, Errors(block, 0.0), Errors(block, s));
  }

  /** The byte search returns is at most as costly as every byte 0..126. */
  lemma BestOfAll(obj: Objective, columns: nat, k: nat, block: Block, g: real, byte: nat, b: nat)
    requires Fits(obj, columns) && k < columns && Weighted(obj) && g > 0.0 && b < 127
    requires IsBest(obj, columns, k, block, g, byte)
    ensures byte < 127 && CostAt(obj, columns, k, block, g, byte) <= CostAt(obj, columns, k, block, g, b)
  {
    if AbsMax(block) == 0.0 {
      ZeroBlockCostsNothing(obj, columns, k, block, g, b);
    } else if b == 0 {
      NoWorseThanZero(obj, columns, k, block, g, byte);
    } else {
      assert Beats(obj, columns, k, block, g, byte, b);
    }
  }

  /** So it costs at most what an error of one top scale in every value would: the global scale puts
      every sub-block in range of the top byte. */
  lemma BestIsBounded(obj: Objective, columns: nat, k: nat, block: Block, g: real, byte: nat)
    requires Fits(obj, columns) && k < columns && Weighted(obj) && g > 0.0 && AbsMax(block) <= 6.0 * (448.0 * g)
    requires IsBest(obj, columns, k, block, g, byte)
    ensures byte < 127 && CostAt(obj, columns, k, block, g, byte) <= Cost(obj, columns, k, seq(16, _ => 448.0 * g))
  {
    var s := 448.0 * g;
    var top: Block := seq(16, _ => s);
    BestOfAll(obj, columns, k, block, g, byte, 126);
    EndScales(g);
    forall i | 0 <= i < 16 ensures Abs(Errors(block, s)[i]) <= Abs(top[i]) {
      ErrorAtMostScale(block[i], s);
    }
    CostOrder(obj, columns, k, Errors(block, s), top);
  }

  // ----- dequant_bytes

  function DequantBlock(block: Block, g: real, b: nat): Block
    requires g >= 0.0
  {
    var s := ScaleOf(b, g);
    seq(16, i requires 0 <= i < 16 => DequantAt(block[i], s))
  }

  function DequantRow(row: seq<Block>, g: real, bytes: seq<nat>): (out: seq<Block>)
    requires |bytes| == |row| && g >= 0.0
    ensures |out| == |row| && forall k | 0 <= k < |row| :: out[k] == DequantBlock(row[k], g, bytes[k])
  {
    if row == [] then [] else [DequantBlock(row[0], g, bytes[0])] + DequantRow(row[1..], g, bytes[1..])
  }

  /** Row chunk by row chunk; the chunks leave no trace in the result. */
  method DequantBytes(w: seq<seq<Block>>, g: real, bytes: seq<seq<nat>>, rowChunk: nat) returns (out: seq<seq<Block>>)
    requires g >= 0.0 && rowChunk >= 1 && |bytes| == |w| && forall n | 0 <= n < |w| :: |bytes[n]| == |w[n]|
    ensures |out| == |w| && forall n | 0 <= n < |w| :: out[n] == DequantRow(w[n], g, bytes[n])
  {
    out := [];
    var r0 := 0;
    while r0 < |w|
      invariant r0 <= |w| && |out| == r0
      invariant forall n | 0 <= n < r0 :: out[n] == DequantRow(w[n], g, bytes[n])
    {
      var end := if r0 + rowChunk <= |w| then r0 + rowChunk else |w|;
      while r0 < end
        invariant r0 <= end <= |w| && |out| == r0
        invariant forall n | 0 <= n < r0 :: out[n] == DequantRow(w[n], g, bytes[n])
      {
        out := out + [DequantRow(w[r0], g, bytes[r0])];
        r0 := r0 + 1;
      }
    }
  }
}
