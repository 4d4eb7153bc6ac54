/** Package-merge, cost only: tools/glm_entropy_report.py. */
module PackageMerge {
  import opened Arithmetic

  datatype Outcome = Bits(bits: nat) | DoesNotFit

  function Sum(s: seq<nat>): nat {
    if s == [] then 0 else s[0] + Sum(s[1..])
  }

  ghost predicate Sorted(s: seq<nat>) {
    forall i, j | 0 <= i <= j < |s| :: s[i] <= s[j]
  }

  // ----- The code's own pieces: sorted(...), heapq.merge, the package comprehension

  function Insert(x: nat, s: seq<nat>): seq<nat> {
    s[..Slot(x, s)] + [x] + s[Slot(x, s)..]
  }

  function Slot(x: nat, s: seq<nat>): (i: nat)
    ensures i <= |s|
  {
    if s == [] || x <= s[0] then 0 else 1 + Slot(x, s[1..])
  }

  /** The positive counts of `h`, ascending. */
  function SortedPositive(h: seq<nat>): seq<nat> {
    if h == [] then []
    else if h[0] == 0 then SortedPositive(h[1..])
    else Insert(h[0], SortedPositive(h[1..]))
  }

  function Merge(x: seq<nat>, y: seq<nat>): (m: seq<nat>)
    ensures |m| == |x| + |y|
  {
    if x == [] then y
    else if y == [] then x
    else if x[0] <= y[0] then [x[0]] + Merge(x[1..], y)
    else [y[0]] + Merge(x, y[1..])
  }

  function Packages(s: seq<nat>): (p: seq<nat>)
    ensures |p| == |s| / 2
  {
    if |s| < 2 then [] else [s[0] + s[1]] + Packages(s[2..])
  }

  /** The list after `k - 1` package/merge rounds. */
  function Level(w: seq<nat>, k: nat): (s: seq<nat>)
    requires k >= 1
  {
    if k == 1 then w else Merge(w, Packages(Level(w, k - 1)))
  }

  // ----- Prefix codes: the thing the cost is about

  type Word = seq<bool>

  ghost predicate PrefixFree(c: seq<Word>) {
    forall i, j | 0 <= i < |c| && 0 <= j < |c| && i != j :: !(c[i] <= c[j])
  }

  /** One codeword per symbol; only the symbols that occur are constrained. */
  ghost predicate IsCode(h: seq<nat>, c: seq<Word>, limit: nat) {
    && |c| == |h|
    && (forall i | 0 <= i < |h| && h[i] > 0 :: 1 <= |c[i]| <= limit)
    && (forall i, j | 0 <= i < |h| && 0 <= j < |h| && i != j && h[i] > 0 && h[j] > 0 :: !(c[i] <= c[j]))
  }

  function CodeCost(h: seq<nat>, c: seq<Word>): nat
    requires |c| == |h|
  {
    if h == [] then 0 else h[0] * |c[0]| + CodeCost(h[1..], c[1..])
  }

  /** `bits` is the least cost of a prefix code for `h` whose words have at most `limit` bits. */
  ghost predicate IsOptimal(h: seq<nat>, limit: nat, bits: nat) {
    && (exists c: seq<Word> :: IsCode(h, c, limit) && CodeCost(h, c) == bits)
    && (forall c: seq<Word> :: IsCode(h, c, limit) ==> bits <= CodeCost(h, c))
  }

  // ----- Sums and prefixes

  lemma {:induction false} SumSnoc(s: seq<nat>, m: nat)
    requires m < |s|
    ensures Sum(s[..m + 1]) == Sum(s[..m]) + s[m]
  {
    if m == 0 {
      assert s[..1][1..] == [];
    } else {
      SumSnoc(s[1..], m - 1);
      assert s[..m + 1][1..] == s[1..][..m];
      assert s[..m][1..] == s[1..][..m - 1];
    }
  }

  lemma {:induction false} SumMonotone(s: seq<nat>, m: nat, k: nat)
    requires m <= k <= |s|
    ensures Sum(s[..m]) <= Sum(s[..k])
  {
    if m < k {
      SumMonotone(s, m, k - 1);
      SumSnoc(s, k - 1);
    }
  }

  lemma SumCons(s: seq<nat>, m: nat)
    requires 1 <= m <= |s|
    ensures Sum(s[..m]) == s[0] + Sum(s[1..][..m - 1])
  {
    assert s[..m][1..] == s[1..][..m - 1];
  }

  // ----- Merging two ascending lists: every prefix is the cheapest split

  lemma SortedCons(b: nat, s: seq<nat>)
    requires Sorted(s) && (s == [] || b <= s[0])
    ensures Sorted([b] + s)
  {
    var t := [b] + s;
    forall i, j | 0 <= i <= j < |t| ensures t[i] <= t[j] {
      if 0 < i { assert s[i - 1] <= s[j - 1]; } else if 0 < j { assert s[0] <= s[j - 1]; }
    }
  }

  lemma {:induction false} MergeSorted(x: seq<nat>, y: seq<nat>)
    requires Sorted(x) && Sorted(y)
    ensures Sorted(Merge(x, y))
  {
    if x != [] && y != [] {
      if x[0] <= y[0] {
        MergeSorted(x[1..], y);
        SortedCons(x[0], Merge(x[1..], y));
      } else {
        MergeSorted(x, y[1..]);
        SortedCons(y[0], Merge(x, y[1..]));
      }
    }
  }

  lemma {:induction false} MergeBelow(x: seq<nat>, y: seq<nat>, a: nat, b: nat)
    requires Sorted(x) && Sorted(y) && a <= |x| && b <= |y|
    ensures Sum(Merge(x, y)[..a + b]) <= Sum(x[..a]) + Sum(y[..b])
    decreases |x| + |y|, 1
  {
    if a + b == 0 {
    } else if x == [] || y == [] {
      assert x[..a] == [] || y[..b] == [];
    } else if x[0] <= y[0] {
      BelowFirst(x, y, a, b);
    } else {
      BelowSecond(x, y, a, b);
    }
  }

  lemma {:induction false} BelowFirst(x: seq<nat>, y: seq<nat>, a: nat, b: nat)
    requires Sorted(x) && Sorted(y) && a <= |x| && b <= |y| && a + b > 0
    requires x != [] && y != [] && x[0] <= y[0]
    ensures Sum(Merge(x, y)[..a + b]) <= Sum(x[..a]) + Sum(y[..b])
    decreases |x| + |y|, 0
  {
    SumCons(Merge(x, y), a + b);
    if a > 0 {
      SumCons(x, a);
      MergeBelow(x[1..], y, a - 1, b);
    } else {
      MergeBelow(x[1..], y, 0, b - 1);
      SumSnoc(y, b - 1);
    }
  }

  lemma {:induction false} BelowSecond(x: seq<nat>, y: seq<nat>, a: nat, b: nat)
    requires Sorted(x) && Sorted(y) && a <= |x| && b <= |y| && a + b > 0
    requires x != [] && y != [] && y[0] < x[0]
    ensures Sum(Merge(x, y)[..a + b]) <= Sum(x[..a]) + Sum(y[..b])
    decreases |x| + |y|, 0
  {
    SumCons(Merge(x, y), a + b);
    if b > 0 {
      SumCons(y, b);
      MergeBelow(x, y[1..], a, b - 1);
    } else {
      MergeBelow(x, y[1..], a - 1, 0);
      SumSnoc(x, a - 1);
    }
  }

  lemma {:induction false} MergeSplit(x: seq<nat>, y: seq<nat>, m: nat) returns (a: nat)
    requires m <= |x| + |y|
    ensures a <= |x| && a <= m && m - a <= |y|
    ensures Sum(Merge(x, y)[..m]) == Sum(x[..a]) + Sum(y[..m - a])
    decreases |x| + |y|
  {
    var s := Merge(x, y);
    if m == 0 {
      a := 0;
    } else if x == [] {
      a := 0;
    } else if y == [] {
      a := m;
    } else if x[0] <= y[0] {
      var a' := MergeSplit(x[1..], y, m - 1);
      a := a' + 1;
      SumCons(s, m);
      SumCons(x, a);
    } else {
      a := MergeSplit(x, y[1..], m - 1);
      SumCons(s, m);
      SumCons(y, m - a);
    }
  }

  lemma {:induction false} PackagesSum(s: seq<nat>, p: nat)
    requires 2 * p <= |s|
    ensures Sum(Packages(s)[..p]) == Sum(s[..2 * p])
  {
    if p > 0 {
      PackagesSum(s[2..], p - 1);
      SumCons(Packages(s), p);
      SumCons(s, 2 * p);
      SumCons(s[1..], 2 * p - 1);
      assert s[1..][1..] == s[2..];
    }
  }

  lemma {:induction false} PackagesSorted(s: seq<nat>)
    requires Sorted(s)
    ensures Sorted(Packages(s))
    ensures forall i | 0 <= i < |Packages(s)| :: s[0] + s[1] <= Packages(s)[i]
  {
    if |s| >= 2 {
      PackagesSorted(s[2..]);
    }
  }

  lemma {:induction false} LevelSorted(w: seq<nat>, k: nat)
    requires Sorted(w) && k >= 1
    ensures Sorted(Level(w, k)) && |Level(w, k)| >= |w|
  {
    if k > 1 {
      LevelSorted(w, k - 1);
      PackagesSorted(Level(w, k - 1));
      MergeSorted(w, Packages(Level(w, k - 1)));
    }
  }

  // ----- Lengths: cost and Kraft sum, in units of 2^-limit

  ghost predicate Lengths(l: seq<nat>, n: nat, limit: nat) {
    |l| == n && forall i | 0 <= i < n :: l[i] <= limit
  }

  function Cost(w: seq<nat>, l: seq<nat>): nat
    requires |w| == |l|
  {
    if w == [] then 0 else w[0] * l[0] + Cost(w[1..], l[1..])
  }

  function Kraft(l: seq<nat>, limit: nat): nat {
    if l == [] then 0 else (if l[0] <= limit then Pow2(limit - l[0]) else 0) + Kraft(l[1..], limit)
  }

  /** How many lengths reach depth `d`, and their total weight. */
  function Count(l: seq<nat>, d: nat): (c: nat)
    ensures c <= |l|
  {
    if l == [] then 0 else (if l[0] >= d then 1 else 0) + Count(l[1..], d)
  }

  function Cut(w: seq<nat>, l: seq<nat>, d: nat): nat
    requires |w| == |l|
  {
    if w == [] then 0 else (if l[0] >= d then w[0] else 0) + Cut(w[1..], l[1..], d)
  }

  lemma {:induction false} ShiftUp(w: seq<nat>, c: nat)
    requires Sorted(w) && c < |w|
    ensures Sum(w[..c]) <= Sum(w[1..][..c])
  {
    if c > 0 {
      ShiftUp(w, c - 1);
      SumSnoc(w, c - 1);
      SumSnoc(w[1..], c - 1);
    }
  }

  lemma {:induction false} CutAbovePrefix(w: seq<nat>, l: seq<nat>, d: nat)
    requires Sorted(w) && |w| == |l|
    ensures Sum(w[..Count(l, d)]) <= Cut(w, l, d)
  {
    if w != [] {
      CutAbovePrefix(w[1..], l[1..], d);
      if l[0] >= d {
        SumCons(w, Count(l, d));
      } else {
        ShiftUp(w, Count(l, d));
      }
    }
  }

  // Both sums below run over the depths limit, limit-1, ..., limit-k+1.

  function CutsFrom(w: seq<nat>, l: seq<nat>, limit: nat, k: nat): nat
    requires |w| == |l| && k <= limit
  {
    if k == 0 then 0 else CutsFrom(w, l, limit, k - 1) + Cut(w, l, limit - k + 1)
  }

  function WidthFrom(l: seq<nat>, limit: nat, k: nat): nat
    requires k <= limit
  {
    if k == 0 then 0 else WidthFrom(l, limit, k - 1) + Count(l, limit - k + 1) * Pow2(k - 1)
  }

  /** Items a length assignment takes from the k-th list. */
  function Taken(l: seq<nat>, limit: nat, k: nat): nat
    requires 1 <= k <= limit
  {
    Count(l, limit - k + 1) + (if k == 1 then 0 else Taken(l, limit, k - 1) / 2)
  }

  lemma LevelStep(w: seq<nat>, k: nat, a: nat, t: nat)
    requires Sorted(w) && k >= 2 && a <= |w| && t <= |Level(w, k - 1)|
    ensures a + t / 2 <= |Level(w, k)|
    ensures Sum(Level(w, k)[..a + t / 2]) <= Sum(w[..a]) + Sum(Level(w, k - 1)[..t])
  {
    var s := Level(w, k - 1);
    LevelSorted(w, k - 1);
    PackagesSorted(s);
    MergeBelow(w, Packages(s), a, t / 2);
    PackagesSum(s, t / 2);
    SumMonotone(s, 2 * (t / 2), t);
  }

  lemma {:induction false} LevelBelow(w: seq<nat>, l: seq<nat>, limit: nat, k: nat)
    requires Sorted(w) && |w| == |l| && 1 <= k <= limit
    ensures Taken(l, limit, k) <= |Level(w, k)|
    ensures Sum(Level(w, k)[..Taken(l, limit, k)]) <= CutsFrom(w, l, limit, k)
  {
    var d := limit - k + 1;
    CutAbovePrefix(w, l, d);
    if k == 1 {
      assert CutsFrom(w, l, limit, 1) == Cut(w, l, d);
    } else {
      LevelBelow(w, l, limit, k - 1);
      LevelStep(w, k, Count(l, d), Taken(l, limit, k - 1));
    }
  }

  lemma {:induction false} TakenCoversWidth(l: seq<nat>, limit: nat, k: nat)
    requires 1 <= k <= limit
    ensures WidthFrom(l, limit, k) < (Taken(l, limit, k) + 1) * Pow2(k - 1)
  {
    var a := Count(l, limit - k + 1);
    if k == 1 {
      assert WidthFrom(l, limit, 1) == WidthFrom(l, limit, 0) + a * Pow2(0);
    } else {
      TakenCoversWidth(l, limit, k - 1);
      HalfStep(WidthFrom(l, limit, k - 1), Taken(l, limit, k - 1), a, Pow2(k - 2));
    }
  }

  lemma HalfStep(width: nat, t: nat, a: nat, p: nat)
    requires width < (t + 1) * p
    ensures width + a * (2 * p) < (a + t / 2 + 1) * (2 * p)
  {
    var q := t / 2;
    Grows(t + 1, 2 * (q + 1), p);
    Distribute(a, q + 1, 2 * p);
    Associate(q + 1, 2, p);
  }

  // Adding one symbol to the two sums.

  lemma {:induction false} CutsCons(w: seq<nat>, l: seq<nat>, limit: nat, k: nat)
    requires |w| == |l| > 0 && k <= limit && l[0] <= limit
    ensures CutsFrom(w, l, limit, k)
         == CutsFrom(w[1..], l[1..], limit, k) + w[0] * (if l[0] + k > limit then l[0] + k - limit else 0)
  {
    if k > 0 {
      CutsCons(w, l, limit, k - 1);
      var d := limit - k + 1;
      if l[0] >= d { OneMore(l[0] + (k - 1) - limit, w[0]); }
    }
  }

  lemma {:induction false} CostIsCuts(w: seq<nat>, l: seq<nat>, limit: nat)
    requires |w| == |l| && Lengths(l, |w|, limit)
    ensures Cost(w, l) == CutsFrom(w, l, limit, limit)
  {
    if w == [] {
      CutsNil(limit, limit);
    } else {
      CutsCons(w, l, limit, limit);
      CostIsCuts(w[1..], l[1..], limit);
    }
  }

  lemma {:induction false} CutsNil(limit: nat, k: nat)
    requires k <= limit
    ensures CutsFrom([], [], limit, k) == 0 && WidthFrom([], limit, k) == 0
  {
    if k > 0 { CutsNil(limit, k - 1); }
  }

  lemma CountCons(l: seq<nat>, d: nat, p: nat)
    requires |l| > 0
    ensures Count(l, d) * p == Count(l[1..], d) * p + if l[0] >= d then p else 0
  {
    OneMore(Count(l[1..], d), p);
  }

  lemma {:induction false} WidthCons(l: seq<nat>, limit: nat, k: nat)
    requires |l| > 0 && k <= limit && l[0] <= limit
    ensures WidthFrom(l, limit, k) + (if l[0] + k > limit then Pow2(limit - l[0]) else Pow2(k))
         == WidthFrom(l[1..], limit, k) + Pow2(k)
  {
    if k > 0 {
      WidthCons(l, limit, k - 1);
      CountCons(l, limit - k + 1, Pow2(k - 1));
    }
  }

  lemma {:induction false} WidthIsKraft(l: seq<nat>, limit: nat)
    requires Lengths(l, |l|, limit)
    ensures WidthFrom(l, limit, limit) + Kraft(l, limit) == |l| * Pow2(limit)
  {
    if l == [] {
      CutsNil(limit, limit);
    } else {
      WidthCons(l, limit, limit);
      WidthIsKraft(l[1..], limit);
      OneMore(|l| - 1, Pow2(limit));
      assert Kraft(l, limit) == Pow2(limit - l[0]) + Kraft(l[1..], limit);
    }
  }

  lemma EnoughItems(n: nat, t: nat, p: nat, width: nat)
    requires n >= 1 && p > 0
    requires n * (2 * p) <= width + 2 * p
    requires width < (t + 1) * p
    ensures 2 * n - 2 <= t
  {
    Distribute(2 * n - 2, 2, p);
    Associate(n, 2, p);
    if t + 1 <= 2 * n - 2 {
      Grows(t + 1, 2 * n - 2, p);
    }
  }

  lemma EnoughTaken(l: seq<nat>, limit: nat)
    requires |l| >= 1 && limit >= 1 && Lengths(l, |l|, limit) && Kraft(l, limit) <= Pow2(limit)
    ensures 2 * |l| - 2 <= Taken(l, limit, limit)
  {
    WidthIsKraft(l, limit);
    TakenCoversWidth(l, limit, limit);
    EnoughItems(|l|, Taken(l, limit, limit), Pow2(limit - 1), WidthFrom(l, limit, limit));
  }

  /** No length assignment that satisfies Kraft's inequality is cheaper. */
  lemma NoneCheaper(w: seq<nat>, l: seq<nat>, limit: nat)
    requires Sorted(w) && |w| >= 2 && limit >= 1
    requires Lengths(l, |w|, limit) && Kraft(l, limit) <= Pow2(limit)
    ensures 2 * |w| - 2 <= |Level(w, limit)|
    ensures Sum(Level(w, limit)[..2 * |w| - 2]) <= Cost(w, l)
  {
    var t, n := Taken(l, limit, limit), |w|;
    EnoughTaken(l, limit);
    LevelBelow(w, l, limit, limit);
    SumMonotone(Level(w, limit), 2 * n - 2, t);
    CostIsCuts(w, l, limit);
  }

  // ----- The other direction: the first 2n-2 items are a length assignment

  /** `rows[j]` symbols get one more bit from depth limit-j; `Worth` is what that buys in width. */
  function RowsWidth(rows: seq<nat>): nat {
    if rows == [] then 0
    else RowsWidth(rows[..|rows| - 1]) + rows[|rows| - 1] * Pow2(|rows| - 1)
  }

  function RowsSum(w: seq<nat>, rows: seq<nat>): nat
    requires forall j | 0 <= j < |rows| :: rows[j] <= |w|
  {
    if rows == [] then 0
    else RowsSum(w, rows[..|rows| - 1]) + Sum(w[..rows[|rows| - 1]])
  }

  lemma RowsSnoc(w: seq<nat>, rows: seq<nat>, a: nat)
    requires a <= |w| && forall j | 0 <= j < |rows| :: rows[j] <= |w|
    ensures RowsSum(w, rows + [a]) == RowsSum(w, rows) + Sum(w[..a])
    ensures RowsWidth(rows + [a]) == RowsWidth(rows) + a * Pow2(|rows|)
  {
    assert (rows + [a])[..|rows|] == rows;
  }

  lemma LevelSplit(w: seq<nat>, k: nat, m: nat) returns (a: nat)
    requires k >= 2 && m <= |Level(w, k)|
    ensures a <= |w| && a <= m && 2 * (m - a) <= |Level(w, k - 1)|
    ensures Sum(Level(w, k)[..m]) == Sum(w[..a]) + Sum(Level(w, k - 1)[..2 * (m - a)])
  {
    var s := Level(w, k - 1);
    a := MergeSplit(w, Packages(s), m);
    PackagesSum(s, m - a);
  }

  lemma {:induction false} Unpack(w: seq<nat>, k: nat, m: nat) returns (rows: seq<nat>)
    requires k >= 1 && m <= |Level(w, k)|
    ensures |rows| == k && forall j | 0 <= j < k :: rows[j] <= |w|
    ensures RowsSum(w, rows) == Sum(Level(w, k)[..m])
    ensures RowsWidth(rows) == m * Pow2(k - 1)
  {
    if k == 1 {
      rows := [] + [m];
      RowsSnoc(w, [], m);
    } else {
      var a := LevelSplit(w, k, m);
      var deeper := Unpack(w, k - 1, 2 * (m - a));
      rows := deeper + [a];
      RowsSnoc(w, deeper, a);
      AddUp(RowsWidth(deeper), m - a, a, Pow2(k - 2));
    }
  }

  lemma AddUp(width: nat, b: nat, a: nat, p: nat)
    requires width == 2 * b * p
    ensures width + a * (2 * p) == (a + b) * (2 * p)
  {
  }

  function Depth(rows: seq<nat>, i: nat): (d: nat)
    ensures d <= |rows|
  {
    if rows == [] then 0
    else Depth(rows[..|rows| - 1], i) + (if i < rows[|rows| - 1] then 1 else 0)
  }

  function Worth(rows: seq<nat>, i: nat): nat {
    if rows == [] then 0
    else Worth(rows[..|rows| - 1], i) + (if i < rows[|rows| - 1] then Pow2(|rows| - 1) else 0)
  }

  function Depths(rows: seq<nat>, n: nat): (l: seq<nat>)
    ensures Lengths(l, n, |rows|)
  {
    seq(n, i requires 0 <= i < n => Depth(rows, i))
  }

  lemma {:induction false} WorthBound(rows: seq<nat>, i: nat)
    ensures Worth(rows, i) + Pow2(|rows| - Depth(rows, i)) <= Pow2(|rows|)
  {
    if rows != [] {
      WorthBound(rows[..|rows| - 1], i);
    }
  }

  lemma {:induction false} DepthDescends(rows: seq<nat>, i: nat, j: nat)
    requires i <= j
    ensures Depth(rows, j) <= Depth(rows, i)
  {
    if rows != [] { DepthDescends(rows[..|rows| - 1], i, j); }
  }

  // Sums over the first n symbols.

  function WorthSum(rows: seq<nat>, n: nat): nat {
    if n == 0 then 0 else WorthSum(rows, n - 1) + Worth(rows, n - 1)
  }

  function DepthCost(w: seq<nat>, rows: seq<nat>, n: nat): nat
    requires n <= |w|
  {
    if n == 0 then 0 else DepthCost(w, rows, n - 1) + w[n - 1] * Depth(rows, n - 1)
  }

  lemma {:induction false} AddRow(w: seq<nat>, rows: seq<nat>, n: nat)
    requires rows != [] && n <= |w|
    ensures var x, up := rows[|rows| - 1], rows[..|rows| - 1];
            var c := if x < n then x else n;
            && WorthSum(rows, n) == WorthSum(up, n) + c * Pow2(|rows| - 1)
            && DepthCost(w, rows, n) == DepthCost(w, up, n) + Sum(w[..c])
  {
    if n > 0 {
      AddRow(w, rows, n - 1);
      var x, p := rows[|rows| - 1], Pow2(|rows| - 1);
      if n <= x {
        SumSnoc(w, n - 1);
        OneMore(n - 1, p);
        OneMore(Depth(rows[..|rows| - 1], n - 1), w[n - 1]);
      }
    }
  }

  lemma {:induction false} RowsExact(w: seq<nat>, rows: seq<nat>)
    requires forall j | 0 <= j < |rows| :: rows[j] <= |w|
    ensures WorthSum(rows, |w|) == RowsWidth(rows)
    ensures DepthCost(w, rows, |w|) == RowsSum(w, rows)
  {
    if rows == [] {
      NoRows(w, |w|);
    } else {
      AddRow(w, rows, |w|);
      RowsExact(w, rows[..|rows| - 1]);
    }
  }

  lemma {:induction false} NoRows(w: seq<nat>, n: nat)
    requires n <= |w|
    ensures WorthSum([], n) == 0 && DepthCost(w, [], n) == 0
  {
    if n > 0 { NoRows(w, n - 1); }
  }

  lemma {:induction false} KraftSnoc(l: seq<nat>, limit: nat, n: nat)
    requires n < |l|
    ensures Kraft(l[..n + 1], limit) == Kraft(l[..n], limit) + (if l[n] <= limit then Pow2(limit - l[n]) else 0)
  {
    if n == 0 {
      assert l[..1][1..] == [];
    } else {
      KraftSnoc(l[1..], limit, n - 1);
      assert l[..n + 1][1..] == l[1..][..n];
      assert l[..n][1..] == l[1..][..n - 1];
    }
  }

  lemma {:induction false} CostSnoc(w: seq<nat>, l: seq<nat>, n: nat)
    requires |w| == |l| && n < |l|
    ensures Cost(w[..n + 1], l[..n + 1]) == Cost(w[..n], l[..n]) + w[n] * l[n]
  {
    if n == 0 {
      assert l[..1][1..] == [] == w[..1][1..];
    } else {
      CostSnoc(w[1..], l[1..], n - 1);
      assert l[..n + 1][1..] == l[1..][..n] && w[..n + 1][1..] == w[1..][..n];
      assert l[..n][1..] == l[1..][..n - 1] && w[..n][1..] == w[1..][..n - 1];
    }
  }

  lemma {:induction false} DepthsSums(w: seq<nat>, rows: seq<nat>, n: nat)
    requires n <= |w|
    ensures var l := Depths(rows, |w|);
            && Kraft(l[..n], |rows|) + WorthSum(rows, n) <= n * Pow2(|rows|)
            && Cost(w[..n], l[..n]) == DepthCost(w, rows, n)
  {
    if n > 0 {
      var l, p := Depths(rows, |w|), Pow2(|rows|);
      DepthsSums(w, rows, n - 1);
      KraftSnoc(l, |rows|, n - 1);
      CostSnoc(w, l, n - 1);
      WorthBound(rows, n - 1);
      OneMore(n - 1, p);
    }
  }

  lemma {:induction false} KraftAtLeast(l: seq<nat>, limit: nat, i: nat)
    requires Lengths(l, |l|, limit) && i < |l|
    ensures Kraft(l, limit) >= Pow2(limit - l[i]) + |l| - 1
  {
    if i > 0 {
      KraftAtLeast(l[1..], limit, i - 1);
    } else {
      KraftAtLeastLength(l[1..], limit);
    }
  }

  lemma {:induction false} KraftAtLeastLength(l: seq<nat>, limit: nat)
    requires Lengths(l, |l|, limit)
    ensures Kraft(l, limit) >= |l|
  {
    if l != [] { KraftAtLeastLength(l[1..], limit); }
  }

  /** Some length assignment attains the sum; its lengths descend along the ascending weights. */
  lemma Attained(w: seq<nat>, limit: nat) returns (l: seq<nat>)
    requires |w| >= 2 && limit >= 1 && 2 * |w| - 2 <= |Level(w, limit)|
    ensures Lengths(l, |w|, limit) && Kraft(l, limit) <= Pow2(limit)
    ensures forall i | 0 <= i < |w| :: 1 <= l[i]
    ensures forall i, j | 0 <= i <= j < |w| :: l[j] <= l[i]
    ensures Cost(w, l) == Sum(Level(w, limit)[..2 * |w| - 2])
  {
    var n := |w|;
    var rows := Unpack(w, limit, 2 * n - 2);
    l := Depths(rows, n);
    RowsExact(w, rows);
    DepthsSums(w, rows, n);
    assert l[..n] == l && w[..n] == w;
    AddUp((2 * n - 2) * Pow2(limit - 1), n - 1, 0, Pow2(limit - 1));
    OneMore(n - 1, Pow2(limit));
    forall i | 0 <= i < n ensures 1 <= l[i] {
      KraftAtLeast(l, limit, i);
    }
    forall i, j | 0 <= i <= j < n ensures l[j] <= l[i] {
      DepthDescends(rows, i, j);
    }
  }

  // ----- Kraft's inequality: words as intervals of [0, 2^limit)

  function Num(b: Word): nat {
    if b == [] then 0 else 2 * Num(b[..|b| - 1]) + (if b[|b| - 1] then 1 else 0)
  }

  function Digits(v: nat, l: nat): (b: Word)
    ensures |b| == l
  {
    if l == 0 then [] else Digits(v / 2, l - 1) + [v % 2 == 1]
  }

  lemma {:induction false} NumDigits(v: nat, l: nat)
    requires v < Pow2(l)
    ensures Num(Digits(v, l)) == v
  {
    if l > 0 {
      NumDigits(v / 2, l - 1);
      assert Digits(v, l)[..l - 1] == Digits(v / 2, l - 1);
    }
  }

  lemma {:induction false} SameNum(a: Word, b: Word)
    requires |a| == |b| && Num(a) == Num(b)
    ensures a == b
  {
    if a != [] {
      SameNum(a[..|a| - 1], b[..|b| - 1]);
      assert a == a[..|a| - 1] + [a[|a| - 1]] && b == b[..|b| - 1] + [b[|b| - 1]];
    }
  }

  function Lo(b: Word, limit: nat): nat
    requires |b| <= limit
  {
    Num(b) * Pow2(limit - |b|)
  }

  function Size(b: Word, limit: nat): (p: nat)
    requires |b| <= limit
    ensures p > 0
  {
    Pow2(limit - |b|)
  }

  lemma {:induction false} Nested(b: Word, m: nat, limit: nat)
    requires m <= |b| <= limit
    ensures Lo(b[..m], limit) <= Lo(b, limit)
    ensures Lo(b, limit) + Size(b, limit) <= Lo(b[..m], limit) + Size(b[..m], limit)
    decreases |b|
  {
    if m == |b| {
      assert b[..m] == b;
    } else {
      assert b[..|b| - 1][..m] == b[..m];
      Nested(b[..|b| - 1], m, limit);
      LastBit(b, limit);
    }
  }

  lemma LastBit(b: Word, limit: nat)
    requires 1 <= |b| <= limit
    ensures var up := b[..|b| - 1];
            && Size(up, limit) == 2 * Size(b, limit)
            && (Lo(b, limit) == Lo(up, limit) || Lo(b, limit) == Lo(up, limit) + Size(b, limit))
  {
    AddBit(Num(b[..|b| - 1]), if b[|b| - 1] then 1 else 0, Pow2(limit - |b|));
  }

  lemma AddBit(v: nat, bit: nat, p: nat)
    ensures (2 * v + bit) * p == v * (2 * p) + bit * p
  {
  }

  lemma Inside(a: Word, b: Word, limit: nat)
    requires a <= b && |b| <= limit
    ensures Lo(a, limit) <= Lo(b, limit)
    ensures Lo(b, limit) + Size(b, limit) <= Lo(a, limit) + Size(a, limit)
  {
    Nested(b, |a|, limit);
    assert b[..|a|] == a;
  }

  lemma OverlapIsPrefix(a: Word, b: Word, limit: nat, x: nat)
    requires |a| <= |b| <= limit
    requires Lo(a, limit) <= x < Lo(a, limit) + Size(a, limit)
    requires Lo(b, limit) <= x < Lo(b, limit) + Size(b, limit)
    ensures a <= b
  {
    var c, p := b[..|a|], Size(a, limit);
    Nested(b, |a|, limit);
    SameBlock(Num(a), Num(c), p, x);
    SameNum(a, c);
  }

  lemma SameBlock(m: nat, n: nat, p: nat, x: nat)
    requires m * p <= x < m * p + p && n * p <= x < n * p + p
    ensures m == n
  {
    if m < n { Grows(m + 1, n, p); OneMore(m, p); }
    if n < m { Grows(n + 1, m, p); OneMore(n, p); }
  }

  function Range(lo: nat, hi: nat): (s: set<nat>)
    requires lo <= hi
    ensures |s| == hi - lo
    ensures forall x :: x in s <==> lo <= x < hi
    decreases hi - lo
  {
    if lo == hi then {} else {lo} + Range(lo + 1, hi)
  }

  /** The cells the words of `c` from index `i` on occupy. */
  ghost function Covered(c: seq<Word>, limit: nat): set<nat>
    requires forall w | w in c :: |w| <= limit
  {
    if c == [] then {} else Range(Lo(c[0], limit), Lo(c[0], limit) + Size(c[0], limit)) + Covered(c[1..], limit)
  }

  lemma {:induction false} CoveredBy(c: seq<Word>, limit: nat, x: nat) returns (i: nat)
    requires forall w | w in c :: |w| <= limit
    requires x in Covered(c, limit)
    ensures i < |c| && Lo(c[i], limit) <= x < Lo(c[i], limit) + Size(c[i], limit)
  {
    if Lo(c[0], limit) <= x < Lo(c[0], limit) + Size(c[0], limit) {
      i := 0;
    } else {
      i := CoveredBy(c[1..], limit, x);
      i := i + 1;
    }
  }

  function LengthsOf(c: seq<Word>): (l: seq<nat>)
    ensures |l| == |c| && forall i | 0 <= i < |c| :: l[i] == |c[i]|
  {
    seq(|c|, i requires 0 <= i < |c| => |c[i]|)
  }

  lemma TailPrefixFree(c: seq<Word>)
    requires c != [] && PrefixFree(c)
    ensures PrefixFree(c[1..])
  {
    forall i, j | 0 <= i < |c| - 1 && 0 <= j < |c| - 1 && i != j ensures !(c[1..][i] <= c[1..][j]) {
      assert !(c[i + 1] <= c[j + 1]);
    }
  }

  lemma HeadApart(c: seq<Word>, limit: nat)
    requires c != [] && PrefixFree(c) && forall w | w in c :: |w| <= limit
    ensures Range(Lo(c[0], limit), Lo(c[0], limit) + Size(c[0], limit)) !! Covered(c[1..], limit)
  {
    forall x | Lo(c[0], limit) <= x < Lo(c[0], limit) + Size(c[0], limit) ensures x !in Covered(c[1..], limit) {
      if x in Covered(c[1..], limit) {
        var i := CoveredBy(c[1..], limit, x);
        var b := c[i + 1];
        if |c[0]| <= |b| {
          OverlapIsPrefix(c[0], b, limit, x);
        } else {
          OverlapIsPrefix(b, c[0], limit, x);
        }
      }
    }
  }

  lemma KraftHead(c: seq<Word>, limit: nat)
    requires c != [] && |c[0]| <= limit
    ensures Kraft(LengthsOf(c), limit) == Size(c[0], limit) + Kraft(LengthsOf(c[1..]), limit)
  {
    assert LengthsOf(c)[1..] == LengthsOf(c[1..]);
  }

  lemma HeadCovers(c: seq<Word>, limit: nat)
    requires c != [] && PrefixFree(c) && forall w | w in c :: |w| <= limit
    ensures |Covered(c, limit)| == Size(c[0], limit) + |Covered(c[1..], limit)|
  {
    var lo := Lo(c[0], limit);
    HeadApart(c, limit);
    UnionSize(Range(lo, lo + Size(c[0], limit)), Covered(c[1..], limit));
  }

  lemma {:induction false} CoveredSize(c: seq<Word>, limit: nat)
    requires PrefixFree(c) && forall w | w in c :: |w| <= limit
    ensures |Covered(c, limit)| == Kraft(LengthsOf(c), limit)
  {
    if c != [] {
      TailPrefixFree(c);
      CoveredSize(c[1..], limit);
      KraftHead(c, limit);
      HeadCovers(c, limit);
    }
  }

  lemma UnionSize(a: set<nat>, b: set<nat>)
    requires a !! b
    ensures |a + b| == |a| + |b|
  {
  }

  lemma SubsetSize(a: set<nat>, b: set<nat>)
    requires a <= b
    ensures |a| <= |b|
  {
    assert b == a + (b - a);
  }

  lemma CoveredInRange(c: seq<Word>, limit: nat, x: nat)
    requires (forall w | w in c :: |w| <= limit) && x in Covered(c, limit)
    ensures x < Pow2(limit)
  {
    var i := CoveredBy(c, limit, x);
    WordInRange(c[i], limit);
  }

  lemma {:induction false} WordInRange(b: Word, limit: nat)
    requires |b| <= limit
    ensures Lo(b, limit) + Size(b, limit) <= Pow2(limit)
  {
    if b != [] {
      WordInRange(b[..|b| - 1], limit);
      LastBit(b, limit);
    }
  }

  lemma KraftHolds(c: seq<Word>, limit: nat)
    requires PrefixFree(c) && forall w | w in c :: |w| <= limit
    ensures Kraft(LengthsOf(c), limit) <= Pow2(limit)
  {
    CoveredSize(c, limit);
    forall x | x in Covered(c, limit) ensures x in Range(0, Pow2(limit)) {
      CoveredInRange(c, limit, x);
    }
    SubsetSize(Covered(c, limit), Range(0, Pow2(limit)));
  }

  // ----- The converse: descending lengths get the canonical code

  /** The Kraft sum of lengths at most `k` is a multiple of 2^(limit-k). */
  lemma {:induction false} Aligned(l: seq<nat>, k: nat, limit: nat) returns (q: nat)
    requires k <= limit && forall i | 0 <= i < |l| :: l[i] <= k
    ensures Kraft(l, limit) == q * Pow2(limit - k)
  {
    if l == [] {
      q := 0;
    } else {
      var q' := Aligned(l[1..], k, limit);
      PowAdd(k - l[0], limit - k);
      assert (k - l[0]) + (limit - k) == limit - l[0];
      q := q' + Pow2(k - l[0]);
      Distribute(q', Pow2(k - l[0]), Pow2(limit - k));
    }
  }

  lemma Placed(q: nat, k: nat, limit: nat)
    requires k <= limit && q * Pow2(limit - k) + Pow2(limit - k) <= Pow2(limit)
    ensures q < Pow2(k)
  {
    PowAdd(k, limit - k);
    if q >= Pow2(k) { Grows(Pow2(k), q, Pow2(limit - k)); }
  }

  lemma {:induction false} KraftCode(l: seq<nat>, limit: nat) returns (c: seq<Word>)
    requires Lengths(l, |l|, limit) && Kraft(l, limit) <= Pow2(limit)
    requires forall i, j | 0 <= i <= j < |l| :: l[j] <= l[i]
    ensures |c| == |l| && forall i | 0 <= i < |l| :: |c[i]| == l[i]
    ensures PrefixFree(c)
    ensures forall i | 0 <= i < |c| :: Lo(c[i], limit) + Size(c[i], limit) <= Kraft(l, limit)
  {
    if l == [] {
      c := [];
    } else {
      var rest := KraftCode(l[1..], limit);
      var q := Aligned(l[1..], l[0], limit);
      Placed(q, l[0], limit);
      var w := Digits(q, l[0]);
      NumDigits(q, l[0]);
      c := [w] + rest;
      assert Lo(w, limit) == Kraft(l[1..], limit);
      ConsPrefixFree(w, rest, limit);
    }
  }

  lemma ConsPrefixFree(w: Word, c: seq<Word>, limit: nat)
    requires PrefixFree(c) && |w| <= limit
    requires forall i | 0 <= i < |c| :: |c[i]| <= limit && Lo(c[i], limit) + Size(c[i], limit) <= Lo(w, limit)
    ensures PrefixFree([w] + c)
  {
    forall j | 0 <= j < |c| ensures !(w <= c[j]) && !(c[j] <= w) {
      if w <= c[j] { Inside(w, c[j], limit); }
      if c[j] <= w { Inside(c[j], w, limit); }
    }
    var d := [w] + c;
    forall i, j | 0 <= i < |d| && 0 <= j < |d| && i != j ensures !(d[i] <= d[j]) {
      if i > 0 && j > 0 { assert d[i] == c[i - 1] && d[j] == c[j - 1]; }
    }
  }

  // ----- From the sorted counts back to the histogram

  lemma {:induction false} SortedSortedPositive(h: seq<nat>)
    ensures Sorted(SortedPositive(h))
    ensures forall i | 0 <= i < |SortedPositive(h)| :: SortedPositive(h)[i] > 0
  {
    if h != [] {
      SortedSortedPositive(h[1..]);
      if h[0] > 0 { InsertSorted(h[0], SortedPositive(h[1..])); }
    }
  }

  lemma {:induction false} InsertSorted(x: nat, s: seq<nat>)
    requires Sorted(s)
    ensures Sorted(Insert(x, s))
  {
    var k := Slot(x, s);
    SlotSplits(x, s);
    var t := Insert(x, s);
    forall i, j | 0 <= i <= j < |t| ensures t[i] <= t[j] {
      if i < k < j { assert s[i] <= s[j - 1]; }
    }
  }

  lemma {:induction false} SlotSplits(x: nat, s: seq<nat>)
    requires Sorted(s)
    ensures forall i | 0 <= i < Slot(x, s) :: s[i] <= x
    ensures forall i | Slot(x, s) <= i < |s| :: x <= s[i]
  {
    if s != [] && x > s[0] {
      SlotSplits(x, s[1..]);
      var k := Slot(x, s);
      forall i | 0 <= i < k ensures s[i] <= x { if i > 0 { assert s[1..][i - 1] <= x; } }
      forall i | k <= i < |s| ensures x <= s[i] { assert x <= s[1..][i - 1]; }
    }
  }

  function Put<T>(s: seq<T>, k: nat, x: T): (t: seq<T>)
    requires k <= |s|
    ensures |t| == |s| + 1 && t[k] == x
  {
    s[..k] + [x] + s[k..]
  }

  lemma {:induction false} CostPut(w: seq<nat>, d: seq<Word>, k: nat, x: nat, c: Word)
    requires |w| == |d| && k <= |w|
    ensures CodeCost(Put(w, k, x), Put(d, k, c)) == x * |c| + CodeCost(w, d)
  {
    if k == 0 {
      assert Put(w, 0, x) == [x] + w && Put(d, 0, c) == [c] + d;
    } else {
      CostPut(w[1..], d[1..], k - 1, x, c);
      assert Put(w, k, x)[1..] == Put(w[1..], k - 1, x);
      assert Put(d, k, c)[1..] == Put(d[1..], k - 1, c);
    }
  }

  /** The word of some symbol with a positive count. */
  ghost predicate IsWordOf(h: seq<nat>, c: seq<Word>, word: Word)
    requires |h| == |c|
  {
    exists j :: 0 <= j < |h| && h[j] > 0 && c[j] == word
  }

  lemma TailWord(h: seq<nat>, c: seq<Word>, limit: nat, word: Word)
    requires h != [] && IsCode(h, c, limit) && IsWordOf(h[1..], c[1..], word)
    ensures IsWordOf(h, c, word) && (h[0] > 0 ==> !(word <= c[0]) && !(c[0] <= word))
  {
    var j :| 0 <= j < |h[1..]| && h[1..][j] > 0 && c[1..][j] == word;
    assert h[j + 1] > 0 && c[j + 1] == word;
  }

  lemma CostCons(h: seq<nat>, c: seq<Word>)
    requires |h| == |c| > 0
    ensures CodeCost(h, c) == h[0] * |c[0]| + CodeCost(h[1..], c[1..])
    ensures h[0] == 0 ==> CodeCost(h, c) == CodeCost(h[1..], c[1..])
  {
    if h[0] == 0 { ZeroTimes(h[0], |c[0]|); }
  }

  lemma PutSorted(h: seq<nat>, c: seq<Word>, limit: nat, rest: seq<Word>) returns (d: seq<Word>)
    requires h != [] && h[0] > 0 && IsCode(h, c, limit) && IsCode(SortedPositive(h[1..]), rest, limit)
    requires forall word | word in rest :: !(word <= c[0]) && !(c[0] <= word)
    ensures IsCode(SortedPositive(h), d, limit)
    ensures CodeCost(SortedPositive(h), d) == h[0] * |c[0]| + CodeCost(SortedPositive(h[1..]), rest)
    ensures forall word | word in d :: word == c[0] || word in rest
  {
    var w := SortedPositive(h[1..]);
    SortedSortedPositive(h[1..]);
    var k := Slot(h[0], w);
    d := Put(rest, k, c[0]);
    CostPut(w, rest, k, h[0], c[0]);
    assert Put(w, k, h[0]) == Insert(h[0], w);
    forall i | 0 <= i < |w| ensures !(rest[i] <= c[0]) && !(c[0] <= rest[i]) { assert rest[i] in rest; }
    PutCode(w, rest, limit, k, h[0], c[0]);
  }

  lemma {:induction false} CodeOfSorted(h: seq<nat>, c: seq<Word>, limit: nat) returns (d: seq<Word>)
    requires IsCode(h, c, limit)
    ensures IsCode(SortedPositive(h), d, limit) && CodeCost(SortedPositive(h), d) == CodeCost(h, c)
    ensures forall word | word in d :: IsWordOf(h, c, word)
  {
    if h == [] {
      d := [];
    } else {
      TailCode(h, c, limit);
      var rest := CodeOfSorted(h[1..], c[1..], limit);
      forall word | word in rest ensures IsWordOf(h, c, word) && (h[0] > 0 ==> !(word <= c[0]) && !(c[0] <= word)) {
        TailWord(h, c, limit, word);
      }
      CostCons(h, c);
      if h[0] == 0 {
        d := rest;
      } else {
        d := PutSorted(h, c, limit, rest);
      }
    }
  }

  lemma SortedCode(h: seq<nat>, c: seq<Word>, limit: nat) returns (d: seq<Word>)
    requires IsCode(h, c, limit)
    ensures IsCode(SortedPositive(h), d, limit) && CodeCost(SortedPositive(h), d) == CodeCost(h, c)
    ensures Sorted(SortedPositive(h)) && forall i | 0 <= i < |SortedPositive(h)| :: SortedPositive(h)[i] > 0
  {
    d := CodeOfSorted(h, c, limit);
    SortedSortedPositive(h);
  }

  lemma TailCode(h: seq<nat>, c: seq<Word>, limit: nat)
    requires h != [] && IsCode(h, c, limit)
    ensures IsCode(h[1..], c[1..], limit)
  {
    forall i, j | 0 <= i < |h| - 1 && 0 <= j < |h| - 1 && i != j && h[1..][i] > 0 && h[1..][j] > 0
      ensures !(c[1..][i] <= c[1..][j])
    {
      assert !(c[i + 1] <= c[j + 1]);
    }
  }

  lemma PutCode(w: seq<nat>, d: seq<Word>, limit: nat, k: nat, x: nat, c: Word)
    requires IsCode(w, d, limit) && k <= |w| && 1 <= |c| <= limit
    requires forall i | 0 <= i < |w| :: w[i] > 0 && !(d[i] <= c) && !(c <= d[i])
    ensures IsCode(Put(w, k, x), Put(d, k, c), limit)
  {
    var w', d' := Put(w, k, x), Put(d, k, c);
    forall i, j | 0 <= i < |w'| && 0 <= j < |w'| && i != j ensures !(d'[i] <= d'[j]) {
      var i0 := if i < k then i else i - 1;
      var j0 := if j < k then j else j - 1;
      if i == k {
        assert d'[j] == d[j0];
      } else if j == k {
        assert d'[i] == d[i0];
      } else {
        assert d'[i] == d[i0] && d'[j] == d[j0] && w[i0] > 0 && w[j0] > 0;
      }
    }
    forall i | 0 <= i < |w'| ensures 1 <= |d'[i]| <= limit {
      var i0 := if i < k then i else i - 1;
      if i != k { assert d'[i] == d[i0] && w[i0] > 0; }
    }
  }

  lemma TakeCode(w: seq<nat>, d: seq<Word>, limit: nat, k: nat, x: nat, c: Word)
    requires |d| == |w| && k <= |w| && x > 0 && forall i | 0 <= i < |w| :: w[i] > 0
    requires IsCode(Put(w, k, x), Put(d, k, c), limit)
    ensures IsCode(w, d, limit) && 1 <= |c| <= limit
    ensures forall i | 0 <= i < |d| :: !(d[i] <= c) && !(c <= d[i])
  {
    var v, e := Put(w, k, x), Put(d, k, c);
    forall i | 0 <= i < |d| ensures 1 <= |d[i]| <= limit && !(d[i] <= c) && !(c <= d[i]) {
      var i' := if i < k then i else i + 1;
      assert d[i] == e[i'] && v[i'] > 0 && v[k] > 0;
    }
    forall i, j | 0 <= i < |d| && 0 <= j < |d| && i != j ensures !(d[i] <= d[j]) {
      var i', j' := if i < k then i else i + 1, if j < k then j else j + 1;
      assert d[i] == e[i'] && d[j] == e[j'] && v[i'] > 0 && v[j'] > 0;
    }
  }

  lemma PullOut(h: seq<nat>, d: seq<Word>, limit: nat) returns (x: Word, less: seq<Word>)
    requires h != [] && h[0] > 0 && IsCode(SortedPositive(h), d, limit)
    ensures IsCode(SortedPositive(h[1..]), less, limit) && 1 <= |x| <= limit
    ensures CodeCost(SortedPositive(h), d) == h[0] * |x| + CodeCost(SortedPositive(h[1..]), less)
    ensures forall y | y in less :: y in d && !(y <= x) && !(x <= y)
    ensures x in d
  {
    var w := SortedPositive(h[1..]);
    SortedSortedPositive(h[1..]);
    var k := Slot(h[0], w);
    x, less := d[k], d[..k] + d[k + 1..];
    assert Put(w, k, h[0]) == Insert(h[0], w) && Put(less, k, x) == d;
    TakeCode(w, less, limit, k, h[0], x);
    CostPut(w, less, k, h[0], x);
  }

  lemma {:induction false} CodeFromSorted(h: seq<nat>, d: seq<Word>, limit: nat) returns (c: seq<Word>)
    requires IsCode(SortedPositive(h), d, limit)
    ensures IsCode(h, c, limit) && CodeCost(h, c) == CodeCost(SortedPositive(h), d)
    ensures forall i | 0 <= i < |h| && h[i] > 0 :: c[i] in d
  {
    if h == [] {
      c := [];
    } else if h[0] == 0 {
      var rest := CodeFromSorted(h[1..], d, limit);
      c := [[]] + rest;
      assert c[1..] == rest;
      HeadCode(h, c, limit);
    } else {
      var x, less := PullOut(h, d, limit);
      var rest := CodeFromSorted(h[1..], less, limit);
      c := [x] + rest;
      assert c[1..] == rest;
      forall i | 0 < i < |h| && h[i] > 0 ensures c[i] in less {
        assert h[1..][i - 1] > 0;
      }
      HeadCode(h, c, limit);
    }
  }

  lemma HeadCode(h: seq<nat>, c: seq<Word>, limit: nat)
    requires |c| == |h| > 0 && IsCode(h[1..], c[1..], limit)
    requires h[0] > 0 ==> 1 <= |c[0]| <= limit
    requires h[0] > 0 ==> forall i | 0 < i < |h| && h[i] > 0 :: !(c[0] <= c[i]) && !(c[i] <= c[0])
    ensures IsCode(h, c, limit)
  {
    forall i, j | 0 <= i < |h| && 0 <= j < |h| && i != j && h[i] > 0 && h[j] > 0 ensures !(c[i] <= c[j]) {
      if i > 0 && j > 0 {
        assert h[1..][i - 1] > 0 && h[1..][j - 1] > 0 && c[1..][i - 1] == c[i] && c[1..][j - 1] == c[j];
      }
    }
    forall i | 0 <= i < |h| && h[i] > 0 ensures 1 <= |c[i]| <= limit {
      if i > 0 { assert h[1..][i - 1] > 0 && c[1..][i - 1] == c[i]; }
    }
  }

  lemma {:induction false} CostOfCode(w: seq<nat>, c: seq<Word>)
    requires |w| == |c|
    ensures CodeCost(w, c) == Cost(w, LengthsOf(c))
  {
    if w != [] {
      CostOfCode(w[1..], c[1..]);
      assert LengthsOf(c)[1..] == LengthsOf(c[1..]);
    }
  }

  // ----- The theorem, on ascending positive weights and then on histograms

  lemma SortedCodeCost(w: seq<nat>, d: seq<Word>, limit: nat)
    requires Sorted(w) && |w| >= 2 && limit >= 1 && IsCode(w, d, limit)
    requires forall i | 0 <= i < |w| :: w[i] > 0
    ensures |w| <= Pow2(limit) && 2 * |w| - 2 <= |Level(w, limit)|
    ensures Sum(Level(w, limit)[..2 * |w| - 2]) <= CodeCost(w, d)
  {
    forall i, j | 0 <= i < |d| && 0 <= j < |d| && i != j ensures !(d[i] <= d[j]) {
      assert w[i] > 0 && w[j] > 0;
    }
    KraftHolds(d, limit);
    KraftAtLeastLength(LengthsOf(d), limit);
    NoneCheaper(w, LengthsOf(d), limit);
    CostOfCode(w, d);
  }

  lemma {:induction false} KraftOfLimit(n: nat, limit: nat)
    ensures Kraft(seq(n, _ => limit), limit) == n
  {
    if n > 0 {
      assert seq(n, _ => limit)[1..] == seq(n - 1, _ => limit);
      KraftOfLimit(n - 1, limit);
    }
  }

  /** After limit-1 rounds the list holds the 2n-2 items the cost is read from. */
  lemma LongEnough(w: seq<nat>, limit: nat)
    requires Sorted(w) && 2 <= |w| <= Pow2(limit)
    ensures limit >= 1 && 2 * |w| - 2 <= |Level(w, limit)|
  {
    KraftOfLimit(|w|, limit);
    NoneCheaper(w, seq(|w|, _ => limit), limit);
  }

  lemma BestCode(h: seq<nat>, limit: nat) returns (c: seq<Word>)
    requires 2 <= |SortedPositive(h)| <= Pow2(limit)
    ensures limit >= 1 && 2 * |SortedPositive(h)| - 2 <= |Level(SortedPositive(h), limit)|
    ensures IsCode(h, c, limit)
    ensures CodeCost(h, c) == Sum(Level(SortedPositive(h), limit)[..2 * |SortedPositive(h)| - 2])
  {
    var w := SortedPositive(h);
    SortedSortedPositive(h);
    LongEnough(w, limit);
    var l := Attained(w, limit);
    var d := KraftCode(l, limit);
    assert LengthsOf(d) == l;
    CostOfCode(w, d);
    c := CodeFromSorted(h, d, limit);
  }

  /** The cost read off the last list is the optimum over all prefix codes within the limit. */
  lemma PackageMergeOptimal(h: seq<nat>, limit: nat)
    requires 2 <= |SortedPositive(h)| <= Pow2(limit)
    ensures limit >= 1 && 2 * |SortedPositive(h)| - 2 <= |Level(SortedPositive(h), limit)|
    ensures IsOptimal(h, limit, Sum(Level(SortedPositive(h), limit)[..2 * |SortedPositive(h)| - 2]))
  {
    var best := BestCode(h, limit);
    forall c | IsCode(h, c, limit) ensures CodeCost(h, best) <= CodeCost(h, c) {
      NoCodeCheaper(h, c, limit);
    }
  }

  lemma NoCodeCheaper(h: seq<nat>, c: seq<Word>, limit: nat)
    requires 2 <= |SortedPositive(h)| <= Pow2(limit) && IsCode(h, c, limit)
    ensures limit >= 1 && 2 * |SortedPositive(h)| - 2 <= |Level(SortedPositive(h), limit)|
    ensures Sum(Level(SortedPositive(h), limit)[..2 * |SortedPositive(h)| - 2]) <= CodeCost(h, c)
  {
    var e := SortedCode(h, c, limit);
    LongEnough(SortedPositive(h), limit);
    SortedCodeCost(SortedPositive(h), e, limit);
  }

  /** More symbols than words: no code at all. */
  lemma NoCode(h: seq<nat>, limit: nat)
    requires |SortedPositive(h)| > Pow2(limit)
    ensures !exists c: seq<Word> :: IsCode(h, c, limit)
  {
    forall c: seq<Word> ensures !IsCode(h, c, limit) {
      if IsCode(h, c, limit) {
        var d := SortedCode(h, c, limit);
        assert 1 <= |d[0]| <= limit;
        SortedCodeCost(SortedPositive(h), d, limit);
      }
    }
  }

  lemma AtMostOneSymbol(h: seq<nat>, limit: nat)
    requires |SortedPositive(h)| <= 1 <= limit
    ensures IsOptimal(h, limit, Sum(SortedPositive(h)))
  {
    var w := SortedPositive(h);
    var d: seq<Word> := if w == [] then [] else [[true]];
    var best := CodeFromSorted(h, d, limit);
    SmallCost(w, d);
    forall c | IsCode(h, c, limit) ensures CodeCost(h, best) <= CodeCost(h, c) {
      var e := SortedCode(h, c, limit);
      SmallCost(w, e);
      if w != [] { Grows(1, |e[0]|, w[0]); }
    }
  }

  lemma SmallCost(w: seq<nat>, d: seq<Word>)
    requires |w| == |d| <= 1
    ensures w == [] ==> CodeCost(w, d) == 0 == Sum(w)
    ensures w != [] ==> CodeCost(w, d) == w[0] * |d[0]| && Sum(w) == w[0]
  {
    if w != [] { assert w[1..] == [] && d[1..] == []; }
  }

  method HuffmanCostBits(h: seq<nat>, limit: nat) returns (r: Outcome)
    ensures r.DoesNotFit? <==> |SortedPositive(h)| >= 2 && |SortedPositive(h)| > Pow2(limit)
    ensures r.DoesNotFit? ==> !exists c: seq<Word> :: IsCode(h, c, limit)
    ensures r.Bits? && limit >= 1 ==> IsOptimal(h, limit, r.bits)
    ensures |SortedPositive(h)| <= 1 ==> r == Bits(Sum(SortedPositive(h)))
  {
    var w := SortedPositive(h);
    var n := |w|;
    if limit >= 1 && n <= 1 { AtMostOneSymbol(h, limit); }
    if n == 0 {
      return Bits(0);
    }
    if n == 1 {
      assert w[1..] == [] && Sum(w) == w[0];
      return Bits(w[0]);
    }
    if Pow2(limit) < n {
      NoCode(h, limit);
      return DoesNotFit;
    }
    PackageMergeOptimal(h, limit);
    var lst := w;
    for k := 1 to limit
      invariant lst == Level(w, k)
    {
      var packages := Packages(lst);
      lst := Merge(w, packages);
    }
    r := Bits(Sum(lst[..2 * n - 2]));
  }
}
