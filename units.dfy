/**
 * Energy quantities and the rounding the summaries apply to them.
 *
 * Readings are kWh values in the program. Here every quantity is an integer
 * number of micro-kWh (10^-6 kWh), so that `round(x, 3)` -- rounding to a
 * thousandth of a kWh -- is rounding to a multiple of `Grid` units, and the
 * arithmetic of sums and means is exact.
 */
module Units {

  /** An energy quantity in micro-kWh. */
  type Energy = int

  /** Micro-kWh in one kWh. */
  const KWh: int := 1000000

  /** Micro-kWh in 0.001 kWh: the resolution `round(x, 3)` keeps. */
  const Grid: int := 1000

  /** The quantity lies on the 0.001 kWh grid. */
  predicate OnGrid(x: int) {
    x % Grid == 0
  }

  /**
   * The integer nearest to p / q, ties going to the even neighbour (the
   * rounding mode of Python's `round`).
   */
  function RoundDiv(p: int, q: int): (r: int)
    requires q > 0
    ensures -q <= 2 * (p - r * q) <= q
    ensures 2 * (p - r * q) == q || 2 * (p - r * q) == -q ==> r % 2 == 0
  {
    var f := p / q;
    var m := p % q;
    assert p == f * q + m;
    assert (f + 1) * q == f * q + q;
    if 2 * m < q then f
    else if 2 * m > q then f + 1
    else if f % 2 == 0 then f
    else f + 1
  }

  /** If p / q lies in [lo, hi], the rounded quotient does too. */
  lemma RoundDivWithin(p: int, q: int, lo: int, hi: int)
    requires q > 0
    requires lo * q <= p <= hi * q
    ensures lo <= RoundDiv(p, q) <= hi
  {
    var r := RoundDiv(p, q);
    assert (lo - 1) * q == lo * q - q;
    assert (hi + 1) * q == hi * q + q;
    if r < lo {
      MulMonotone(r, lo - 1, q);
      assert false;
    }
    if r > hi {
      MulMonotone(hi + 1, r, q);
      assert false;
    }
  }

  lemma MulMonotone(a: int, b: int, q: int)
    requires a <= b && q >= 0
    ensures a * q <= b * q
  {
    assert b * q - a * q == (b - a) * q;
  }

  /** An exact quotient is returned unchanged. */
  lemma RoundDivExact(v: int, q: int)
    requires q > 0
    ensures RoundDiv(v * q, q) == v
  {
    RoundDivWithin(v * q, q, v, v);
  }

  /** `round(x, 3)` on micro-kWh: the nearest multiple of `Grid`. */
  function Round3(x: Energy): (r: Energy)
    ensures OnGrid(r)
    ensures -Grid <= 2 * (x - r) <= Grid
    ensures OnGrid(x) ==> r == x
    ensures 2 * (x - r) == Grid || 2 * (x - r) == -Grid ==> (r / Grid) % 2 == 0
  {
    var k := RoundDiv(x, Grid);
    assert (k * Grid) / Grid == k;
    if OnGrid(x) then
      assert x == (x / Grid) * Grid;
      RoundDivExact(x / Grid, Grid);
      k * Grid
    else
      k * Grid
  }

  /**
   * `round(mean(xs), 3)` for a group of `n` values whose sum is `total`:
   * the multiple of `Grid` nearest to total / n.
   */
  function RoundedMean(total: Energy, n: int): (r: Energy)
    requires n > 0
    ensures OnGrid(r)
    ensures -(Grid * n) <= 2 * (total - r * n) <= Grid * n
  {
    var k := RoundDiv(total, n * Grid);
    assert k * (n * Grid) == (k * Grid) * n;
    k * Grid
  }

  /**
   * A mean of values that all lie in [lo, hi] (both on the grid) rounds
   * into [lo, hi]; in particular a mean of equal values is that value.
   */
  lemma RoundedMeanWithin(total: Energy, n: int, lo: Energy, hi: Energy)
    requires n > 0
    requires OnGrid(lo) && OnGrid(hi)
    requires lo * n <= total <= hi * n
    ensures lo <= RoundedMean(total, n) <= hi
  {
    var q := n * Grid;
    var l, h := lo / Grid, hi / Grid;
    assert lo == l * Grid && hi == h * Grid;
    assert l * q == lo * n && h * q == hi * n by {
      assert l * (n * Grid) == (l * Grid) * n;
      assert h * (n * Grid) == (h * Grid) * n;
    }
    RoundDivWithin(total, q, l, h);
    var k := RoundDiv(total, q);
    MulMonotone(l, k, Grid);
    MulMonotone(k, h, Grid);
  }

  /** Sum of a sequence, accumulated from the front as the program's loops do. */
  function Sum(xs: seq<int>): int
  {
    if |xs| == 0 then 0 else Sum(xs[..|xs| - 1]) + xs[|xs| - 1]
  }

  /** Values that all lie in [lo, hi] sum to between |xs|*lo and |xs|*hi. */
  lemma {:induction false} SumWithin(xs: seq<int>, lo: int, hi: int)
    requires forall i :: 0 <= i < |xs| ==> lo <= xs[i] <= hi
    ensures lo * |xs| <= Sum(xs) <= hi * |xs|
  {
    if |xs| > 0 {
      var init := xs[..|xs| - 1];
      SumWithin(init, lo, hi);
      assert lo * |xs| == lo * |init| + lo;
      assert hi * |xs| == hi * |init| + hi;
    }
  }

  /** Sum distributes over concatenation. */
  lemma {:induction false} SumAppend(xs: seq<int>, ys: seq<int>)
    ensures Sum(xs + ys) == Sum(xs) + Sum(ys)
  {
    if |ys| > 0 {
      var init := ys[..|ys| - 1];
      assert (xs + ys)[..|xs + ys| - 1] == xs + init;
      SumAppend(xs, init);
    } else {
      assert xs + ys == xs;
    }
  }
}
