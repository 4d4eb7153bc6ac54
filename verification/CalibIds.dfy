/** Hamilton apportionment: largest_remainder of tools/calib_qwen35_ids.py, over exact reals. */
module CalibIds {
  import opened Arithmetic

  function Sum(s: seq<int>): int {
    if s == [] then 0 else s[0] + Sum(s[1..])
  }

  function SumReal(s: seq<real>): real {
    if s == [] then 0.0 else s[0] + SumReal(s[1..])
  }

  /** total * w / w.sum() */
  function Quotas(total: int, w: seq<real>): (q: seq<real>)
    requires SumReal(w) != 0.0
    ensures |q| == |w|
  {
    seq(|w|, i requires 0 <= i < |w| => Quota(total as real, w[i], SumReal(w)))
  }

  function Quota(total: real, weight: real, sum: real): real
    requires sum != 0.0
  {
    total * weight / sum
  }

  function Frac(x: real): (f: real)
    ensures 0.0 <= f < 1.0 && x == x.Floor as real + f
  {
    x - x.Floor as real
  }

  /** How far an allocation is from the quotas. */
  function Off(a: seq<int>, q: seq<real>): real
    requires |a| == |q|
  {
    if a == [] then 0.0 else Abs(a[0] as real - q[0]) + Off(a[1..], q[1..])
  }

  /** The sort key (-(fraction), index) puts i before j. */
  predicate Ahead(q: seq<real>, i: nat, j: nat)
    requires i < |q| && j < |q|
  {
    Frac(q[i]) > Frac(q[j]) || (Frac(q[i]) == Frac(q[j]) && i < j)
  }

  predicate Ordered(q: seq<real>, order: seq<nat>) {
    && (forall x | 0 <= x < |order| :: order[x] < |q|)
    && (forall x, y | 0 <= x < y < |order| :: Ahead(q, order[x], order[y]))
  }

  /** Entry i is its floor, or one more when `up`. */
  predicate Rounded(q: seq<real>, a: seq<int>, up: set<nat>) {
    |a| == |q| && forall i | 0 <= i < |q| :: a[i] == q[i].Floor + if i in up then 1 else 0
  }

  // ----- sums

  lemma {:induction false} SumUpdate(s: seq<int>, i: nat, v: int)
    requires i < |s|
    ensures Sum(s[i := v]) == Sum(s) - s[i] + v
  {
    if i > 0 {
      SumUpdate(s[1..], i - 1, v);
      assert s[i := v][1..] == s[1..][i - 1 := v];
    } else {
      assert s[i := v][1..] == s[1..];
    }
  }

  lemma {:induction false} Scaled(q: seq<real>, w: seq<real>, c: real)
    requires |q| == |w| && forall i | 0 <= i < |w| :: q[i] == c * w[i]
    ensures SumReal(q) == c * SumReal(w)
  {
    if q != [] {
      Scaled(q[1..], w[1..], c);
      DistributeReal(c, w[0], SumReal(w[1..]));
    }
  }

  lemma DistributeReal(c: real, x: real, y: real)
    ensures c * (x + y) == c * x + c * y
  {
  }

  lemma Cancel(t: real, w: real, s: real)
    requires s != 0.0
    ensures Quota(t, w, s) == (t / s) * w
  {
  }

  lemma WholeShare(t: real, s: real)
    requires s != 0.0
    ensures (t / s) * s == t
  {
  }

  lemma QuotasAddUp(total: int, w: seq<real>)
    requires SumReal(w) != 0.0
    ensures SumReal(Quotas(total, w)) == total as real
  {
    var s := SumReal(w);
    WholeShare(total as real, s);
    var c := total as real / s;
    forall i | 0 <= i < |w| ensures Quotas(total, w)[i] == c * w[i] {
      Cancel(total as real, w[i], s);
    }
    Scaled(Quotas(total, w), w, c);
  }

  /** The floors fall short of the total by less than one a place. */
  lemma {:induction false} FloorsFallShort(q: seq<real>, base: seq<int>)
    requires Rounded(q, base, {})
    ensures Sum(base) as real <= SumReal(q)
    ensures q != [] ==> SumReal(q) < (Sum(base) + |q|) as real
  {
    if q != [] {
      forall i | 0 <= i < |q[1..]| ensures base[1..][i] == q[1..][i].Floor { assert base[i + 1] == q[i + 1].Floor; }
      FloorsFallShort(q[1..], base[1..]);
      var f := Frac(q[0]);
    }
  }

  // ----- why the largest remainders are best

  /** The price of one unit: an allocation that gives place i one unit more must pay for it elsewhere. */
  ghost predicate Priced(q: real, a: int, price: real) {
    forall d: int :: DoesNotBeat(q, a, price, d)
  }

  ghost predicate DoesNotBeat(q: real, a: int, price: real, d: int) {
    Abs(d as real - q) >= Abs(a as real - q) + price * (d - a) as real
  }

  lemma Slope(x: real, k: real)
    requires x >= 0.0 && k >= 0.0
    ensures x * k >= 0.0
  {
  }

  /** Below tau a place keeps its floor, above tau it takes one more. */
  lemma PlaceIsPriced(q: real, a: int, tau: real)
    requires 0.0 <= tau <= 1.0
    requires (a == q.Floor && Frac(q) <= tau) || (a == q.Floor + 1 && Frac(q) >= tau)
    ensures Priced(q, a, 1.0 - 2.0 * tau)
  {
    var f := Frac(q);
    var price := 1.0 - 2.0 * tau;
    forall d: int ensures DoesNotBeat(q, a, price, d) {
      var x := (d - q.Floor) as real;
      var k := (d - a) as real;
      assert d as real - q == x - f;
      if d > q.Floor {
        Slope(x - 1.0, tau);
        assert (1.0 - 2.0 * tau) * k == k - 2.0 * (tau * k);
        if a == q.Floor {
          assert tau * k == tau * (x - 1.0) + tau;
        } else {
          assert tau * k == (x - 1.0) * tau;
        }
      } else {
        Slope(-x, 1.0 - tau);
        assert (1.0 - 2.0 * tau) * k == k - 2.0 * (tau * k);
        assert (-x) * (1.0 - tau) == -x + tau * x;
        if a == q.Floor {
          assert tau * k == tau * x;
        } else {
          assert tau * k == tau * x - tau;
        }
      }
    }
  }

  lemma {:induction false} PricesAddUp(q: seq<real>, a: seq<int>, d: seq<int>, price: real)
    requires |q| == |a| == |d|
    requires forall i | 0 <= i < |q| :: Priced(q[i], a[i], price)
    ensures Off(d, q) >= Off(a, q) + price * (Sum(d) - Sum(a)) as real
  {
    if q != [] {
      PricesAddUp(q[1..], a[1..], d[1..], price);
      assert Priced(q[0], a[0], price) && DoesNotBeat(q[0], a[0], price, d[0]);
      var x, y := (d[0] - a[0]) as real, (Sum(d[1..]) - Sum(a[1..])) as real;
      assert (Sum(d) - Sum(a)) as real == x + y;
      DistributeReal(price, x, y);
    }
  }

  /** Every place that was rounded up is ahead of every place that was not. */
  predicate LargestFirst(q: seq<real>, up: set<nat>) {
    forall i, j | 0 <= i < |q| && 0 <= j < |q| && i in up && j !in up :: Ahead(q, i, j)
  }

  /** No integer allocation of the same total is closer to the quotas. */
  lemma LargestFirstIsBest(q: seq<real>, a: seq<int>, up: set<nat>, d: seq<int>)
    requires Rounded(q, a, up) && LargestFirst(q, up)
    requires |d| == |q| && Sum(d) == Sum(a)
    ensures Off(a, q) <= Off(d, q)
  {
    var tau := Threshold(q, up);
    forall i | 0 <= i < |q| ensures Priced(q[i], a[i], 1.0 - 2.0 * tau) {
      PlaceIsPriced(q[i], a[i], tau);
    }
    PricesAddUp(q, a, d, 1.0 - 2.0 * tau);
    assert (Sum(d) - Sum(a)) as real == 0.0;
  }

  lemma {:induction false} Threshold(q: seq<real>, up: set<nat>) returns (tau: real)
    requires LargestFirst(q, up)
    ensures 0.0 <= tau <= 1.0
    ensures forall i | 0 <= i < |q| :: if i in up then Frac(q[i]) >= tau else Frac(q[i]) <= tau
  {
    tau := 1.0;
    for k := 0 to |q|
      invariant 0.0 <= tau <= 1.0
      invariant forall i | 0 <= i < k && i in up :: Frac(q[i]) >= tau
      invariant tau == 1.0 || exists i :: 0 <= i < k && i in up && Frac(q[i]) == tau
    {
      if k in up && Frac(q[k]) < tau { tau := Frac(q[k]); }
    }
    forall j | 0 <= j < |q| && j !in up ensures Frac(q[j]) <= tau {
      if tau != 1.0 {
        var i :| 0 <= i < |q| && i in up && Frac(q[i]) == tau;
        assert Ahead(q, i, j);
      }
    }
  }

  // ----- the program

  /** sorted(range(len(w)), key = (-(q[i] - base[i]), i)) */
  method Order(q: seq<real>) returns (order: seq<nat>)
    ensures |order| == |q| && Ordered(q, order)
    ensures forall i | 0 <= i < |q| :: i in order
  {
    order := [];
    for i := 0 to |q|
      invariant |order| == i && Ordered(q, order)
      invariant forall x | 0 <= x < |order| :: order[x] < i
      invariant forall k | 0 <= k < i :: k in order
    {
      var at := 0;
      while at < |order| && Frac(q[order[at]]) >= Frac(q[i])
        invariant at <= |order|
        invariant forall x | 0 <= x < at :: Frac(q[order[x]]) >= Frac(q[i])
      {
        at := at + 1;
      }
      InsertKeepsOrder(q, order, i, at);
      order := order[..at] + [i] + order[at..];
    }
  }

  lemma InsertKeepsOrder(q: seq<real>, order: seq<nat>, i: nat, at: nat)
    requires Ordered(q, order) && i < |q| && at <= |order|
    requires forall x | 0 <= x < |order| :: order[x] < i
    requires forall x | 0 <= x < at :: Frac(q[order[x]]) >= Frac(q[i])
    requires at < |order| ==> Frac(q[order[at]]) < Frac(q[i])
    ensures Ordered(q, order[..at] + [i] + order[at..])
    ensures forall k :: k in order || k == i ==> k in order[..at] + [i] + order[at..]
  {
    var longer := order[..at] + [i] + order[at..];
    forall x, y | 0 <= x < y < |longer| ensures Ahead(q, longer[x], longer[y]) {
      if at < |order| && y > at {
        assert y - 1 == at || Ahead(q, order[at], order[y - 1]);
      }
    }
    assert longer[at] == i;
    forall k | k in order ensures k in longer {
      var x :| 0 <= x < |order| && order[x] == k;
      assert longer[if x < at then x else x + 1] == k;
    }
  }

  lemma PrefixIsAhead(q: seq<real>, order: seq<nat>, n: nat)
    requires |order| == |q| && Ordered(q, order) && n <= |order|
    requires forall i | 0 <= i < |q| :: i in order
    ensures LargestFirst(q, set k | 0 <= k < n :: order[k])
  {
    var up := set k | 0 <= k < n :: order[k];
    forall i, j | 0 <= i < |q| && 0 <= j < |q| && i in up && j !in up ensures Ahead(q, i, j) {
      var x :| 0 <= x < n && order[x] == i;
      assert j in order;
      var y :| 0 <= y < |order| && order[y] == j;
      assert y >= n;
    }
  }

  method LargestRemainder(total: int, weights: seq<real>) returns (shares: seq<int>)
    requires SumReal(weights) != 0.0
    ensures |shares| == |weights| && Sum(shares) == total
    ensures exists up :: Rounded(Quotas(total, weights), shares, up) && LargestFirst(Quotas(total, weights), up)
    ensures forall d: seq<int> :: |d| == |weights| && Sum(d) == total ==>
              Off(shares, Quotas(total, weights)) <= Off(d, Quotas(total, weights))
  {
    var q := Quotas(total, weights);
    var base := new int[|q|](i requires 0 <= i < |q| => q[i].Floor);
    var rest := total - Sum(base[..]);
    QuotasAddUp(total, weights);
    FloorsFallShort(q, base[..]);
    var order := Order(q);
    for k := 0 to rest
      invariant Rounded(q, base[..], set x | 0 <= x < k :: order[x])
      invariant Sum(base[..]) == total - rest + k
    {
      SumUpdate(base[..], order[k], base[order[k]] + 1);
      ghost var was := base[..];
      forall x | 0 <= x < k ensures order[x] != order[k] { assert Ahead(q, order[x], order[k]); }
      base[order[k]] := base[order[k]] + 1;
      assert base[..] == was[order[k] := was[order[k]] + 1];
    }
    PrefixIsAhead(q, order, rest);
    shares := base[..];
    ghost var up := set x | 0 <= x < rest :: order[x];
    assert Rounded(q, shares, up) && LargestFirst(q, up);
    forall d: seq<int> | |d| == |weights| && Sum(d) == total ensures Off(shares, q) <= Off(d, q) {
      LargestFirstIsBest(q, shares, up, d);
    }
  }

  lemma QuotasNotNegative(total: int, weights: seq<real>)
    requires total >= 0 && SumReal(weights) > 0.0 && forall i | 0 <= i < |weights| :: weights[i] >= 0.0
    ensures forall i | 0 <= i < |weights| :: Quotas(total, weights)[i] >= 0.0
  {
    var t, s := total as real, SumReal(weights);
    forall i | 0 <= i < |weights| ensures Quotas(total, weights)[i] >= 0.0 {
      NotNegative(t, weights[i], s);
    }
  }

  lemma NotNegative(t: real, w: real, s: real)
    requires t >= 0.0 && w >= 0.0 && s > 0.0
    ensures Quota(t, w, s) >= 0.0
  {
    Slope(t, w);
    NotNegativeRatio(t * w, s);
  }

  lemma NotNegativeRatio(x: real, s: real)
    requires x >= 0.0 && s > 0.0
    ensures x / s >= 0.0
  {
  }

  lemma RoundedNotNegative(q: seq<real>, shares: seq<int>, up: set<nat>)
    requires Rounded(q, shares, up) && forall i | 0 <= i < |q| :: q[i] >= 0.0
    ensures forall i | 0 <= i < |shares| :: shares[i] >= 0
  {
  }

  /** Weights and a total that are not negative give natural shares. */
  lemma SharesAreNatural(total: int, weights: seq<real>, shares: seq<int>, up: set<nat>)
    requires total >= 0 && SumReal(weights) > 0.0 && forall i | 0 <= i < |weights| :: weights[i] >= 0.0
    requires Rounded(Quotas(total, weights), shares, up)
    ensures forall i | 0 <= i < |shares| :: shares[i] >= 0
  {
    QuotasNotNegative(total, weights);
    RoundedNotNegative(Quotas(total, weights), shares, up);
  }
}
