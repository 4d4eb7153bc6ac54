/** Multimodal rotary positions, two ways: hf_positions and engine_positions of
    oracle/ref_qwen35_image_logits.py. */
module ImagePositions {
  import opened Arithmetic
  import opened Common

  /** A token's positions on the three axes. */
  datatype Pos = Pos(t: nat, h: nat, w: nat)
  /** An image's grid, in patches. */
  datatype Grid = Grid(t: nat, h: nat, w: nat)
  /** A run of equal token types: 0 is text, anything else an image. */
  datatype Group = Group(ty: nat, n: nat)
  /** The rows so far and the cursor. */
  datatype Laid = Laid(rows: seq<Pos>, cur: nat)
  datatype Form = Hf | Engine

  const MERGE: nat := 2

  /** itertools.groupby */
  function GroupBy(types: seq<nat>): (groups: seq<Group>)
    ensures NonEmpty(groups) && Tokens(groups) == |types| && (types == [] <==> groups == [])
    ensures types != [] ==> groups[0].ty == types[0]
  {
    if types == [] then []
    else
      var rest := GroupBy(types[1..]);
      if rest != [] && rest[0].ty == types[0] then [Group(types[0], rest[0].n + 1)] + rest[1..]
      else [Group(types[0], 1)] + rest
  }

  predicate NonEmpty(groups: seq<Group>) {
    forall g | 0 <= g < |groups| :: groups[g].n > 0
  }

  function Tokens(groups: seq<Group>): nat {
    if groups == [] then 0 else groups[0].n + Tokens(groups[1..])
  }

  function Repeat(ty: nat, n: nat): seq<nat> {
    if n == 0 then [] else [ty] + Repeat(ty, n - 1)
  }

  function Ungroup(groups: seq<Group>): seq<nat> {
    if groups == [] then [] else Repeat(groups[0].ty, groups[0].n) + Ungroup(groups[1..])
  }

  /** The groups are the maximal runs of the types. */
  lemma {:induction false} GroupsAreRuns(types: seq<nat>)
    ensures Ungroup(GroupBy(types)) == types
    ensures forall g | 0 < g < |GroupBy(types)| :: GroupBy(types)[g - 1].ty != GroupBy(types)[g].ty
  {
    if types != [] {
      var rest := GroupBy(types[1..]);
      GroupsAreRuns(types[1..]);
      if rest != [] && rest[0].ty == types[0] {
        assert GroupBy(types)[1..] == rest[1..];
        assert [types[0]] + (Repeat(types[0], rest[0].n) + Ungroup(rest[1..])) ==
            ([types[0]] + Repeat(types[0], rest[0].n)) + Ungroup(rest[1..]);
      } else {
        assert GroupBy(types)[1..] == rest;
        assert Repeat(types[0], 1) == [types[0]] + [];
      }
      assert types == [types[0]] + types[1..];
    }
  }

  function TextRows(cur: nat, n: nat): (rows: seq<Pos>)
    ensures |rows| == n
  {
    seq(n, k requires 0 <= k < n => Pos(cur + k, cur + k, cur + k))
  }

  /** Row k of t frames of lh x lw merged patches, in raster order. */
  function RasterAt(cur: nat, lh: nat, lw: nat, k: nat): Pos
    requires lw > 0 && lh * lw > 0
  {
    Pos(cur + k / (lh * lw), cur + (k % (lh * lw)) / lw, cur + k % lw)
  }

  function HfRows(cur: nat, grid: Grid): (rows: seq<Pos>)
    ensures |rows| == grid.t * (grid.h / MERGE * (grid.w / MERGE))
  {
    var lh, lw := grid.h / MERGE, grid.w / MERGE;
    if lh * lw == 0 then
      NothingToLay(grid.t, lh * lw);
      []
    else
      Positive(lh, lw);
      seq(grid.t * (lh * lw), k requires 0 <= k < grid.t * (lh * lw) => RasterAt(cur, lh, lw, k))
  }

  lemma NothingToLay(t: nat, n: nat)
    requires n == 0
    ensures t * n == 0
  {
  }

  lemma Positive(a: nat, b: nat)
    requires a * b > 0
    ensures a > 0 && b > 0
  {
  }

  function EngineRows(cur: nat, gw: nat, n: nat): (rows: seq<Pos>)
    requires gw > 0
    ensures |rows| == n
  {
    seq(n, k requires 0 <= k < n => EngineAt(cur, gw, k))
  }

  function EngineAt(cur: nat, gw: nat, k: nat): Pos
    requires gw > 0
  {
    Pos(cur, cur + k / gw, cur + k % gw)
  }

  /** The rows of an image group of n tokens; None: the assertion, or a division by zero. */
  function ImageRows(form: Form, cur: nat, grid: Grid, n: nat): (r: Option<seq<Pos>>)
    ensures r.Some? ==> |r.value| == n
  {
    match form
    case Hf => if n == grid.t * (grid.h / MERGE * (grid.w / MERGE)) then Some(HfRows(cur, grid)) else None
    case Engine => if grid.w / MERGE == 0 then None else Some(EngineRows(cur, grid.w / MERGE, n))
  }

  /** None: an image group without a grid, or without rows. */
  function Positions(form: Form, groups: seq<Group>, grids: seq<Grid>, cur: nat): (r: Option<Laid>)
    ensures r.Some? ==> |r.value.rows| == Tokens(groups)
  {
    if groups == [] then Some(Laid([], cur))
    else if groups[0].ty == 0 then
      Onto(TextRows(cur, groups[0].n), Positions(form, groups[1..], grids, cur + groups[0].n))
    else if grids == [] then None
    else
      var here := ImageRows(form, cur, grids[0], groups[0].n);
      if here.None? then None else Onto(here.value, Positions(form, groups[1..], grids[1..], NextCursor(cur, grids[0])))
  }

  function NextCursor(cur: nat, grid: Grid): nat {
    cur + Max(grid.h, grid.w) / MERGE
  }

  function Onto(rows: seq<Pos>, rest: Option<Laid>): Option<Laid> {
    if rest.None? then None else Some(Laid(rows + rest.value.rows, rest.value.cur))
  }

  // ----- the loops

  lemma RasterIndex(lh: nat, lw: nat, tt: nat, r: nat, c: nat)
    requires r < lh && c < lw
    ensures var k := tt * (lh * lw) + (r * lw + c);
            lh * lw > 0 && k / (lh * lw) == tt && (k % (lh * lw)) / lw == r && k % lw == c
  {
    RowFits(lh, lw, r, c);
    var area, inner := lh * lw, r * lw + c;
    Quotient(tt * area + inner, area, tt, inner);
    Quotient(inner, lw, r, c);
    Regroup(tt, lh, lw, r);
    Quotient(tt * area + inner, lw, tt * lh + r, c);
  }

  lemma Regroup(t: nat, a: nat, b: nat, r: nat)
    ensures t * (a * b) + r * b == (t * a + r) * b
  {
  }

  lemma RowFits(lh: nat, lw: nat, r: nat, c: nat)
    requires r < lh && c < lw
    ensures r * lw + c < lh * lw
  {
    OneMore(r, lw);
    Grows(r + 1, lh, lw);
  }

  lemma Quotient(x: nat, d: nat, q: nat, r: nat)
    requires r < d && x == q * d + r
    ensures x / d == q && x % d == r
  {
    var p := x / d;
    assert x == p * d + x % d;
    assert (q - p) * d == q * d - p * d;
    SmallMultiple(q - p, d);
  }

  lemma SmallMultiple(k: int, d: int)
    requires d >= 0 && -d < k * d < d
    ensures k == 0
  {
    assert (-k) * d == -(k * d);
    if k >= 1 { Grows(1, k, d); }
    if k <= -1 { Grows(1, -k, d); }
  }

  lemma SmallerFactor(a: nat, b: nat, d: nat)
    requires a * d < b * d
    ensures a < b
  {
    if a >= b { Grows(b, a, d); }
  }

  ghost predicate IsRaster(rows: seq<Pos>, cur: nat, lh: nat, lw: nat) {
    lh * lw > 0 ==> lw > 0 && forall k | 0 <= k < |rows| :: rows[k] == RasterAt(cur, lh, lw, k)
  }

  lemma RasterStep(rows: seq<Pos>, cur: nat, lh: nat, lw: nat, tt: nat, r: nat, c: nat)
    requires IsRaster(rows, cur, lh, lw) && r < lh && c < lw && |rows| == tt * (lh * lw) + (r * lw + c)
    ensures IsRaster(rows + [Pos(cur + tt, cur + r, cur + c)], cur, lh, lw)
  {
    RasterIndex(lh, lw, tt, r, c);
  }

  /** The three nested loops of an image group. */
  method Raster(cur: nat, t: nat, lh: nat, lw: nat) returns (rows: seq<Pos>)
    ensures |rows| == t * (lh * lw) && IsRaster(rows, cur, lh, lw)
  {
    rows := [];
    for tt := 0 to t
      invariant |rows| == tt * (lh * lw) && IsRaster(rows, cur, lh, lw)
    {
      for r := 0 to lh
        invariant |rows| == tt * (lh * lw) + r * lw && IsRaster(rows, cur, lh, lw)
      {
        for c := 0 to lw
          invariant |rows| == tt * (lh * lw) + (r * lw + c) && IsRaster(rows, cur, lh, lw)
        {
          RasterStep(rows, cur, lh, lw, tt, r, c);
          rows := rows + [Pos(cur + tt, cur + r, cur + c)];
        }
        OneMore(r, lw);
      }
      OneMore(tt, lh * lw);
    }
  }

  method DivMod(cur: nat, gw: nat, n: nat) returns (rows: seq<Pos>)
    requires gw > 0
    ensures rows == EngineRows(cur, gw, n)
  {
    rows := [];
    for k := 0 to n
      invariant |rows| == k && forall x | 0 <= x < k :: rows[x] == EngineAt(cur, gw, x)
    {
      rows := rows + [Pos(cur, cur + k / gw, cur + k % gw)];
    }
  }

  lemma RasterIsHfRows(rows: seq<Pos>, cur: nat, grid: Grid)
    requires IsRaster(rows, cur, grid.h / MERGE, grid.w / MERGE)
    requires |rows| == grid.t * (grid.h / MERGE * (grid.w / MERGE))
    ensures rows == HfRows(cur, grid)
  {
    var area := grid.h / MERGE * (grid.w / MERGE);
    if area == 0 { NothingToLay(grid.t, area); }
  }

  method Rows(form: Form, cur: nat, grid: Grid, n: nat) returns (rows: Option<seq<Pos>>)
    ensures rows == ImageRows(form, cur, grid, n)
  {
    var lh, lw := grid.h / MERGE, grid.w / MERGE;
    if form == Hf {
      if n != grid.t * (lh * lw) {
        return None;
      }
      var raster := Raster(cur, grid.t, lh, lw);
      RasterIsHfRows(raster, cur, grid);
      rows := Some(raster);
    } else {
      if lw == 0 {
        return None;
      }
      var engine := DivMod(cur, lw, n);
      rows := Some(engine);
    }
  }

  /** Both programs: the loop over groups is the same. */
  method Lay(form: Form, types: seq<nat>, grids: seq<Grid>) returns (r: Option<(seq<Pos>, int)>)
    ensures types == [] || Positions(form, GroupBy(types), grids, 0).None? ==> r == None
    ensures types != [] && Positions(form, GroupBy(types), grids, 0).Some? ==>
              r.Some? && r.value.0 == Positions(form, GroupBy(types), grids, 0).value.rows &&
              IsTop(r.value.0, r.value.1 + |types| - 1)
  {
    var groups := GroupBy(types);
    var laid := LayGroups(form, groups, grids);
    if laid.None? || laid.value == [] {
      return None;
    }
    var mx := Top(laid.value);
    r := Some((laid.value, mx + 1 - |types|));
  }

  method LayGroups(form: Form, groups: seq<Group>, grids: seq<Grid>) returns (r: Option<seq<Pos>>)
    ensures var p := Positions(form, groups, grids, 0); r == if p.None? then None else Some(p.value.rows)
  {
    var out: seq<Pos> := [];
    var cur: nat, next := 0, 0;
    assert groups[0..] == groups && grids[0..] == grids;
    OntoNothing(Positions(form, groups, grids, 0));
    for g := 0 to |groups|
      invariant next <= |grids|
      invariant Positions(form, groups, grids, 0) == Onto(out, Positions(form, groups[g..], grids[next..], cur))
    {
      var n := groups[g].n;
      assert groups[g..][1..] == groups[g + 1..];
      if groups[g].ty == 0 {
        OntoTwice(out, TextRows(cur, n), Positions(form, groups[g + 1..], grids[next..], cur + n));
        out := out + TextRows(cur, n);
        cur := cur + n;
      } else {
        if next == |grids| {
          return None;
        }
        var rows := Rows(form, cur, grids[next], n);
        if rows.None? {
          return None;
        }
        assert grids[next..][1..] == grids[next + 1..];
        OntoTwice(out, rows.value, Positions(form, groups[g + 1..], grids[next + 1..], NextCursor(cur, grids[next])));
        out := out + rows.value;
        cur := NextCursor(cur, grids[next]);
        next := next + 1;
      }
    }
    assert out + [] == out;
    r := Some(out);
  }

  lemma OntoNothing(rest: Option<Laid>)
    ensures Onto([], rest) == rest
  {
    if rest.Some? { assert [] + rest.value.rows == rest.value.rows; }
  }

  lemma OntoTwice(a: seq<Pos>, b: seq<Pos>, rest: Option<Laid>)
    ensures Onto(a, Onto(b, rest)) == Onto(a + b, rest)
  {
    if rest.Some? { assert a + (b + rest.value.rows) == (a + b) + rest.value.rows; }
  }

  function Highest(p: Pos): nat {
    Max(Max(p.t, p.h), p.w)
  }

  predicate IsTop(rows: seq<Pos>, mx: int) {
    (forall k | 0 <= k < |rows| :: Highest(rows[k]) <= mx) && exists k :: 0 <= k < |rows| && Highest(rows[k]) == mx
  }

  method Top(rows: seq<Pos>) returns (mx: nat)
    requires rows != []
    ensures IsTop(rows, mx)
  {
    mx := Highest(rows[0]);
    for k := 1 to |rows|
      invariant forall x | 0 <= x < k :: Highest(rows[x]) <= mx
      invariant exists x :: 0 <= x < k && Highest(rows[x]) == mx
    {
      if Highest(rows[k]) > mx { mx := Highest(rows[k]); }
    }
  }

  // ----- the two forms agree exactly on single-frame images

  /** Every image group has its grid, of a non-empty merged size that fits the group. */
  predicate WellSized(groups: seq<Group>, grids: seq<Grid>) {
    groups == [] ||
    (groups[0].n > 0 &&
     if groups[0].ty == 0 then WellSized(groups[1..], grids)
     else grids != [] && FitsGroup(grids[0], groups[0].n) && WellSized(groups[1..], grids[1..]))
  }

  predicate FitsGroup(grid: Grid, n: nat) {
    var lh, lw := grid.h / MERGE, grid.w / MERGE;
    lh > 0 && lw > 0 && n == grid.t * (lh * lw)
  }

  predicate SingleFrames(groups: seq<Group>, grids: seq<Grid>)
    requires WellSized(groups, grids)
  {
    groups == [] ||
    if groups[0].ty == 0 then SingleFrames(groups[1..], grids)
    else grids[0].t == 1 && SingleFrames(groups[1..], grids[1..])
  }

  lemma GroupAgrees(cur: nat, grid: Grid, n: nat)
    requires FitsGroup(grid, n) && n > 0
    ensures ImageRows(Hf, cur, grid, n).Some? && ImageRows(Engine, cur, grid, n).Some?
    ensures ImageRows(Hf, cur, grid, n) == ImageRows(Engine, cur, grid, n) <==> grid.t == 1
  {
    if grid.t == 1 { OneFrameAgrees(cur, grid); } else { MoreFramesDiffer(cur, grid, n); }
  }

  lemma OneFrameAgrees(cur: nat, grid: Grid)
    requires grid.t == 1 && grid.h / MERGE > 0 && grid.w / MERGE > 0
    ensures HfRows(cur, grid) == EngineRows(cur, grid.w / MERGE, grid.h / MERGE * (grid.w / MERGE))
  {
    var lh, lw := grid.h / MERGE, grid.w / MERGE;
    var area := lh * lw;
    Area(lh, lw);
    forall k | 0 <= k < area ensures HfRows(cur, grid)[k] == EngineRows(cur, lw, area)[k] {
      Quotient(k, area, 0, k);
    }
  }

  /** The second frame's first row has the next T in one form and the cursor in the other. */
  lemma MoreFramesDiffer(cur: nat, grid: Grid, n: nat)
    requires FitsGroup(grid, n) && n > 0 && grid.t != 1
    ensures HfRows(cur, grid) != EngineRows(cur, grid.w / MERGE, n)
  {
    var lh, lw := grid.h / MERGE, grid.w / MERGE;
    var area := lh * lw;
    Area(lh, lw);
    SecondFrame(grid.t, area);
    Quotient(area, area, 1, 0);
    assert HfRows(cur, grid)[area].t == cur + 1 && EngineRows(cur, lw, n)[area].t == cur;
  }

  lemma Area(a: nat, b: nat)
    requires a > 0 && b > 0
    ensures a * b >= a && a * b >= b && a * b > 0
  {
    assert a * b == (a - 1) * b + b && a * b == a * (b - 1) + a;
    assert (a - 1) * b >= 0 && a * (b - 1) >= 0;
  }

  lemma SecondFrame(t: nat, area: nat)
    requires t != 1 && t * area > 0
    ensures t >= 2 && area < t * area
  {
    assert t * area == (t - 1) * area + area;
    if t >= 2 { assert (t - 1) * area >= area; }
  }

  lemma {:induction false} FormsAgree(groups: seq<Group>, grids: seq<Grid>, cur: nat)
    requires WellSized(groups, grids)
    ensures Positions(Hf, groups, grids, cur).Some? && Positions(Engine, groups, grids, cur).Some?
    ensures Positions(Hf, groups, grids, cur).value.cur == Positions(Engine, groups, grids, cur).value.cur
    ensures Positions(Hf, groups, grids, cur) == Positions(Engine, groups, grids, cur) <==> SingleFrames(groups, grids)
  {
    if groups != [] {
      var n := groups[0].n;
      if groups[0].ty == 0 {
        FormsAgree(groups[1..], grids, cur + n);
        SameSuffix(TextRows(cur, n), TextRows(cur, n),
                   Positions(Hf, groups[1..], grids, cur + n).value.rows,
                   Positions(Engine, groups[1..], grids, cur + n).value.rows);
      } else {
        var next := NextCursor(cur, grids[0]);
        GroupAgrees(cur, grids[0], n);
        FormsAgree(groups[1..], grids[1..], next);
        SameSuffix(ImageRows(Hf, cur, grids[0], n).value, ImageRows(Engine, cur, grids[0], n).value,
                   Positions(Hf, groups[1..], grids[1..], next).value.rows,
                   Positions(Engine, groups[1..], grids[1..], next).value.rows);
      }
    }
  }

  lemma SameSuffix(a: seq<Pos>, b: seq<Pos>, x: seq<Pos>, y: seq<Pos>)
    requires |a| == |b|
    ensures a + x == b + y <==> a == b && x == y
  {
    if a + x == b + y {
      assert a == (a + x)[..|a|] && b == (b + y)[..|a|];
      assert x == (a + x)[|a|..] && y == (b + y)[|a|..];
    }
  }

  // ----- what single-frame positions are like

  predicate Within(p: Pos, low: nat, high: nat) {
    low <= p.t < high && low <= p.h < high && low <= p.w < high
  }

  lemma HalfOfMax(h: nat, w: nat)
    ensures Max(h, w) / MERGE == Max(h / MERGE, w / MERGE)
  {
  }

  /** What one group contributes: it starts at the cursor, stays below the next one and reaches it, and
      takes at least as many tokens as the cursor moves. */
  ghost predicate Fills(rows: seq<Pos>, cur: nat, next: nat) {
    && cur <= next <= cur + |rows|
    && (forall k | 0 <= k < |rows| :: Within(rows[k], cur, next))
    && (rows != [] ==> IsTop(rows, next - 1))
  }

  lemma ImageFills(cur: nat, grid: Grid, n: nat)
    requires FitsGroup(grid, n) && grid.t == 1
    ensures Fills(EngineRows(cur, grid.w / MERGE, n), cur, NextCursor(cur, grid))
  {
    var lh, lw := grid.h / MERGE, grid.w / MERGE;
    HalfOfMax(grid.h, grid.w);
    Area(lh, lw);
    LastInGrid(lh, lw);
    forall k | 0 <= k < n ensures InGrid(lh, lw, k) { RowInGrid(lh, lw, k); }
    GridFills(cur, lh, lw, n);
  }

  predicate InGrid(lh: nat, lw: nat, k: nat) {
    lw > 0 && k / lw < lh && k % lw < lw
  }

  lemma GridFills(cur: nat, lh: nat, lw: nat, n: nat)
    requires lh > 0 && lw > 0 && n >= lh && n >= lw && forall k | 0 <= k < n :: InGrid(lh, lw, k)
    requires (n - 1) / lw == lh - 1 && (n - 1) % lw == lw - 1
    ensures Fills(EngineRows(cur, lw, n), cur, cur + Max(lh, lw))
  {
    var rows, next := EngineRows(cur, lw, n), cur + Max(lh, lw);
    forall k | 0 <= k < n ensures Within(rows[k], cur, next) && Highest(rows[k]) <= next - 1 {
      CellWithin(cur, lh, lw, k);
    }
    LastCell(cur, lh, lw, n - 1);
    assert Highest(rows[n - 1]) == next - 1;
  }

  lemma CellWithin(cur: nat, lh: nat, lw: nat, k: nat)
    requires lh > 0 && lw > 0 && InGrid(lh, lw, k)
    ensures var p := EngineAt(cur, lw, k);
            Within(p, cur, cur + Max(lh, lw)) && Highest(p) <= cur + Max(lh, lw) - 1
  {
  }

  lemma LastCell(cur: nat, lh: nat, lw: nat, k: nat)
    requires lh > 0 && lw > 0 && k / lw == lh - 1 && k % lw == lw - 1
    ensures Highest(EngineAt(cur, lw, k)) == cur + Max(lh, lw) - 1
  {
  }

  lemma RowInGrid(lh: nat, lw: nat, k: nat)
    requires lw > 0 && k < lh * lw
    ensures InGrid(lh, lw, k)
  {
    assert k == k / lw * lw + k % lw;
    SmallerFactor(k / lw, lh, lw);
  }

  lemma LastInGrid(lh: nat, lw: nat)
    requires lw > 0 && lh > 0
    ensures lh * lw > 0 && (lh * lw - 1) / lw == lh - 1 && (lh * lw - 1) % lw == lw - 1
  {
    Area(lh, lw);
    OneMore(lh - 1, lw);
    Quotient(lh * lw - 1, lw, lh - 1, lw - 1);
  }

  lemma TextFills(cur: nat, n: nat)
    requires n > 0
    ensures Fills(TextRows(cur, n), cur, cur + n)
  {
    assert Highest(TextRows(cur, n)[n - 1]) == cur + n - 1;
  }

  lemma FillsJoin(a: seq<Pos>, b: seq<Pos>, cur: nat, mid: nat, end: nat)
    requires Fills(a, cur, mid) && Fills(b, mid, end)
    ensures Fills(a + b, cur, end)
  {
    var c := a + b;
    if b != [] {
      var k :| 0 <= k < |b| && Highest(b[k]) == end - 1;
      assert Highest(c[|a| + k]) == end - 1;
    } else {
      assert c == a && mid == end;
    }
  }

  /** The first group's rows, and where the rest starts. */
  lemma FirstGroup(groups: seq<Group>, grids: seq<Grid>, cur: nat) returns (rows: seq<Pos>, next: nat, left: seq<Grid>)
    requires groups != [] && WellSized(groups, grids) && SingleFrames(groups, grids)
    ensures |rows| == groups[0].n && Fills(rows, cur, next)
    ensures WellSized(groups[1..], left) && SingleFrames(groups[1..], left)
    ensures Positions(Engine, groups, grids, cur) == Onto(rows, Positions(Engine, groups[1..], left, next))
  {
    var n := groups[0].n;
    if groups[0].ty == 0 {
      rows, next, left := TextRows(cur, n), cur + n, grids;
      TextFills(cur, n);
    } else {
      rows, next, left := EngineRows(cur, grids[0].w / MERGE, n), NextCursor(cur, grids[0]), grids[1..];
      ImageFills(cur, grids[0], n);
    }
  }

  /** Positions start at the cursor, stay below the final cursor and reach one below it, and never run
      ahead of the token count. */
  lemma {:induction false} PositionsFill(groups: seq<Group>, grids: seq<Grid>, cur: nat)
    requires WellSized(groups, grids) && SingleFrames(groups, grids)
    ensures var r := Positions(Engine, groups, grids, cur); r.Some? && Fills(r.value.rows, cur, r.value.cur)
  {
    if groups != [] {
      var rows, next, left := FirstGroup(groups, grids, cur);
      PositionsFill(groups[1..], left, next);
      var tail := Positions(Engine, groups[1..], left, next).value;
      FillsJoin(rows, tail.rows, cur, next, tail.cur);
    }
  }

  predicate AllBelow(p: Pos, q: Pos) {
    Highest(p) < q.t && Highest(p) < q.h && Highest(p) < q.w
  }

  lemma TokensSplit(groups: seq<Group>, m: nat)
    requires 0 < m <= |groups|
    ensures Tokens(groups[..m]) == groups[0].n + Tokens(groups[1..][..m - 1])
    ensures Tokens(groups) == groups[0].n + Tokens(groups[1..])
  {
    assert groups[..m][1..] == groups[1..][..m - 1];
  }

  lemma OntoSplit(rows: seq<Pos>, a: seq<Pos>, b: seq<Pos>, end: nat)
    ensures Onto(rows, Some(Laid(a + b, end))) == Some(Laid((rows + a) + b, end))
  {
    assert rows + (a + b) == (rows + a) + b;
  }

  /** The rows of the first m groups, those of the others, and the cursor between. */
  lemma {:induction false} SplitAt(groups: seq<Group>, grids: seq<Grid>, cur: nat, m: nat)
      returns (a: seq<Pos>, b: seq<Pos>, mid: nat, end: nat)
    requires WellSized(groups, grids) && SingleFrames(groups, grids) && m <= |groups|
    ensures Positions(Engine, groups, grids, cur) == Some(Laid(a + b, end))
    ensures |a| == Tokens(groups[..m]) && Fills(a, cur, mid) && Fills(b, mid, end)
  {
    if m == 0 {
      PositionsFill(groups, grids, cur);
      var r := Positions(Engine, groups, grids, cur).value;
      a, b, mid, end := [], r.rows, cur, r.cur;
      assert a + b == b;
    } else {
      var rows, next, left := FirstGroup(groups, grids, cur);
      TokensSplit(groups, m);
      a, b, mid, end := SplitAt(groups[1..], left, next, m - 1);
      OntoSplit(rows, a, b, end);
      FillsJoin(rows, a, cur, next, mid);
      a := rows + a;
    }
  }

  /** Every coordinate of a later group exceeds every coordinate of the groups before it: token i is in
      the first m groups, token j is not. */
  lemma LaterGroupsExceed(groups: seq<Group>, grids: seq<Grid>, cur: nat, m: nat, i: nat, j: nat)
    requires WellSized(groups, grids) && SingleFrames(groups, grids) && m <= |groups|
    requires i < Tokens(groups[..m]) <= j < Tokens(groups)
    ensures var r := Positions(Engine, groups, grids, cur); r.Some? && AllBelow(r.value.rows[i], r.value.rows[j])
  {
    var a, b, mid, end := SplitAt(groups, grids, cur, m);
    assert Within(a[i], cur, mid) && Within(b[j - |a|], mid, end);
  }

  lemma OneTop(rows: seq<Pos>, a: int, b: int)
    requires IsTop(rows, a) && IsTop(rows, b)
    ensures a == b
  {
  }

  /** Both programs on single-frame images: the same positions, and a delta that brings the next token to
      the cursor and is never positive. */
  method BothForms(types: seq<nat>, grids: seq<Grid>)
      returns (hf: Option<(seq<Pos>, int)>, engine: Option<(seq<Pos>, int)>)
    requires types != [] && WellSized(GroupBy(types), grids) && SingleFrames(GroupBy(types), grids)
    ensures hf.Some? && hf == engine && Positions(Hf, GroupBy(types), grids, 0).Some?
    ensures hf.value.0 == Positions(Hf, GroupBy(types), grids, 0).value.rows
    ensures |types| + hf.value.1 == Positions(Hf, GroupBy(types), grids, 0).value.cur && hf.value.1 <= 0
  {
    ghost var laid := SingleFramesFill(types, grids);
    hf := Lay(Hf, types, grids);
    engine := Lay(Engine, types, grids);
    OneTop(laid.rows, hf.value.1 + |types| - 1, laid.cur - 1);
    OneTop(laid.rows, engine.value.1 + |types| - 1, laid.cur - 1);
    assert hf.value.1 == engine.value.1 == laid.cur - |types|;
  }

  lemma SingleFramesFill(types: seq<nat>, grids: seq<Grid>) returns (laid: Laid)
    requires types != [] && WellSized(GroupBy(types), grids) && SingleFrames(GroupBy(types), grids)
    ensures Positions(Hf, GroupBy(types), grids, 0) == Positions(Engine, GroupBy(types), grids, 0) == Some(laid)
    ensures |laid.rows| == |types| && laid.cur <= |types| && IsTop(laid.rows, laid.cur - 1)
  {
    var groups := GroupBy(types);
    FormsAgree(groups, grids, 0);
    PositionsFill(groups, grids, 0);
    laid := Positions(Engine, groups, grids, 0).value;
  }
}
