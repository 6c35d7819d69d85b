/** Sums, and the variance of the counts of a tag over the hosts, scaled by the square of their number. */
module Variance {
  function Sum(xs: seq<int>): int
  {
    if xs == [] then 0 else Sum(xs[..|xs| - 1]) + xs[|xs| - 1]
  }

  function Square(x: int): int { x * x }

  function Squares(xs: seq<int>): int
  {
    if xs == [] then 0 else Squares(xs[..|xs| - 1]) + Square(xs[|xs| - 1])
  }

  /** n² times the variance of `xs`. */
  function Spread(xs: seq<int>): int { Scaled(|xs|, Squares(xs), Sum(xs)) }

  function Scaled(n: nat, squares: int, sum: int): int { n * squares - sum * sum }

  /** What the spread gains when one more is counted at `b` and one less at `a`. */
  function Gain(n: nat, a: int, b: int): int { 2 * (n * (b - a + 1)) }

  lemma {:induction false} SumUpdate(xs: seq<int>, i: nat, v: int)
    requires i < |xs|
    ensures Sum(xs[i := v]) == Sum(xs) - xs[i] + v
    ensures Squares(xs[i := v]) == Squares(xs) - Square(xs[i]) + Square(v)
  {
    var n := |xs| - 1;
    var ys := xs[i := v];
    if i < n {
      SumUpdate(xs[..n], i, v);
      assert ys[..n] == xs[..n][i := v];
    } else {
      assert ys[..n] == xs[..n];
    }
  }

  /** The sum of the squared distances to `x` is no less than zero. */
  lemma {:induction false} DistanceNonNegative(xs: seq<int>, x: int)
    ensures Squares(xs) - 2 * x * Sum(xs) + |xs| * x * x >= 0
  {
    if xs != [] {
      var n := |xs| - 1;
      var y := xs[n];
      DistanceNonNegative(xs[..n], x);
      DistanceStep(n, Squares(xs[..n]), Sum(xs[..n]), x, y);
    }
  }

  lemma DistanceStep(n: nat, squares: int, sum: int, x: int, y: int)
    ensures (squares + y * y) - 2 * x * (sum + y) + (n + 1) * x * x
      == squares - 2 * x * sum + n * x * x + (y - x) * (y - x)
    ensures (y - x) * (y - x) >= 0
  {
    var z := y - x;
    assert z * z >= 0;
  }

  /** Cauchy-Schwarz for the vector of ones: the scaled variance is a natural number. */
  lemma {:induction false} SpreadNonNegative(xs: seq<int>)
    ensures Spread(xs) >= 0
  {
    if xs != [] {
      var n := |xs| - 1;
      SpreadNonNegative(xs[..n]);
      DistanceNonNegative(xs[..n], xs[n]);
      OneMore(n, Squares(xs[..n]), Sum(xs[..n]), xs[n]);
    }
  }

  lemma OneMore(n: nat, squares: int, sum: int, x: int)
    ensures (n + 1) * (squares + x * x) - (sum + x) * (sum + x)
      == n * squares - sum * sum + (squares - 2 * x * sum + n * x * x)
  {
  }

  /** Measuring from `k` instead of zero does not change the spread. */
  lemma ShiftedSpread(n: nat, squares: int, sum: int, k: int)
    ensures n * (squares - 2 * k * sum + n * k * k) - (sum - n * k) * (sum - n * k) == n * squares - sum * sum
  {
    var nk := n * k;
    assert n * (n * k * k) == nk * nk;
    assert n * (2 * k * sum) == 2 * nk * sum;
    assert (sum - nk) * (sum - nk) == sum * sum - 2 * nk * sum + nk * nk;
  }

  function Shifted(xs: seq<int>, s: nat, d: nat): (r: seq<int>)
    requires s < |xs| && d < |xs| && s != d
    ensures |r| == |xs|
  {
    xs[s := xs[s] - 1][d := xs[d] + 1]
  }

  lemma ShiftSums(xs: seq<int>, s: nat, d: nat)
    requires s < |xs| && d < |xs| && s != d
    ensures Sum(Shifted(xs, s, d)) == Sum(xs)
    ensures Squares(Shifted(xs, s, d)) == Squares(xs) + 2 * (xs[d] - xs[s] + 1)
  {
    hide Square, Sum, Squares;
    var ys := xs[s := xs[s] - 1];
    SumUpdate(xs, s, xs[s] - 1);
    SumUpdate(ys, d, xs[d] + 1);
    MoveSquares(Squares(xs), Squares(ys), Squares(Shifted(xs, s, d)), xs[s], xs[d]);
  }

  /** Moving one from `s` to `d` keeps the sum and changes the spread by 2n(b - a + 1). */
  lemma ShiftSpread(xs: seq<int>, s: nat, d: nat)
    requires s < |xs| && d < |xs| && s != d
    ensures Sum(Shifted(xs, s, d)) == Sum(xs)
    ensures Spread(Shifted(xs, s, d)) == Spread(xs) + Gain(|xs|, xs[s], xs[d])
  {
    ShiftSums(xs, s, d);
    hide Scaled, Gain, Sum, Squares, Shifted;
    MoveOne(|xs|, Sum(xs), Squares(xs), Squares(Shifted(xs, s, d)), xs[s], xs[d]);
  }

  lemma MoveSquares(before: int, between: int, after: int, a: int, b: int)
    requires between == before - Square(a) + Square(a - 1) && after == between - Square(b) + Square(b + 1)
    ensures after == before + 2 * (b - a + 1)
  {
  }

  lemma MoveOne(n: nat, sum: int, before: int, after: int, a: int, b: int)
    requires after == before + 2 * (b - a + 1)
    ensures Scaled(n, after, sum) == Scaled(n, before, sum) + Gain(n, a, b)
  {
    var gain := b - a + 1;
    assert n * (before + 2 * gain) == n * before + 2 * (n * gain);
  }

  // ----- as floating point numbers -------------------------------------------------------------------

  lemma {:induction false} RealProduct(a: int, b: int)
    ensures (a * b) as real == a as real * b as real
    decreases if a < 0 then -a else a
  {
    if a > 0 {
      RealProduct(a - 1, b);
      assert a * b == (a - 1) * b + b;
    } else if a < 0 {
      RealProduct(a + 1, b);
      assert a * b == (a + 1) * b - b;
    }
  }

  /** n² times a variance. */
  function Unscaled(n: nat, variance: real): real { n as real * (n as real * variance) }

  /** One tag's term of the variance, from the sums of the shifted counts and of their squares. */
  function Term(n: nat, ex2: int, ex: int): real
    requires n > 0
  {
    (ex2 as real - (ex * ex) as real / n as real) / n as real
  }

  lemma VarianceTerm(n: nat, ex2: int, ex: int)
    requires n > 0
    ensures Unscaled(n, Term(n, ex2, ex)) == Scaled(n, ex2, ex) as real
  {
    var m, a, b := n as real, ex2 as real, (ex * ex) as real;
    RealProduct(n, ex2);
    var inner := a - b / m;
    assert m * (inner / m) == inner;
    assert m * (b / m) == b;
    assert m * inner == m * a - m * (b / m);
  }

  lemma UnscaledSum(n: nat, a: real, b: real)
    ensures Unscaled(n, a + b) == Unscaled(n, a) + Unscaled(n, b)
  {
    var m := n as real;
    assert m * (a + b) == m * a + m * b;
    assert m * (m * a + m * b) == m * (m * a) + m * (m * b);
  }

  lemma UnscaledOrder(n: nat, a: real, b: real)
    requires n > 0
    ensures a < b <==> Unscaled(n, a) < Unscaled(n, b)
  {
    var m := n as real;
    TimesOrder(m, a, b);
    TimesOrder(m, m * a, m * b);
  }

  lemma TimesOrder(m: real, a: real, b: real)
    requires m > 0.0
    ensures a < b <==> m * a < m * b
  {
    assert m * b == m * a + m * (b - a);
    assert a < b ==> m * (b - a) > 0.0;
    assert a > b ==> m * (a - b) > 0.0;
  }
}
