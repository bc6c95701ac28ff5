/**
 * Sums, means and variances over sequences of reals, and a square-root-free
 * form of the test `|d| / std > t`.
 */
module Stats {
  import opened Wrappers

  function Abs(x: real): real { if x < 0.0 then -x else x }

  function Min(a: real, b: real): real { if a <= b then a else b }

  function Max(a: real, b: real): real { if a >= b then a else b }

  /** `min(hi, max(lo, x))` as Python writes a clamp. */
  function Clamp(x: real, lo: real, hi: real): real { Min(hi, Max(lo, x)) }

  function Sum(s: seq<real>): real {
    if |s| == 0 then 0.0 else Sum(s[..|s| - 1]) + s[|s| - 1]
  }

  function Mean(s: seq<real>): real
    requires |s| > 0
  {
    Sum(s) / (|s| as real)
  }

  function Sq(x: real): real { x * x }

  /** Sum of squared deviations from `m`. */
  function SumSq(s: seq<real>, m: real): real {
    if |s| == 0 then 0.0 else SumSq(s[..|s| - 1], m) + Sq(s[|s| - 1] - m)
  }

  /** Population variance: the square of numpy's default `np.std` (ddof = 0). */
  function Variance(s: seq<real>): real
    requires |s| > 0
  {
    SumSq(s, Mean(s)) / (|s| as real)
  }

  /** Sample variance: the square of pandas' default `Series.std()` (ddof = 1), NaN below two values. */
  function SampleVariance(s: seq<real>): Option<real>
  {
    if |s| < 2 then None else Some(SumSq(s, Mean(s)) / ((|s| - 1) as real))
  }

  lemma MulPositive(x: real, y: real)
    requires x > 0.0 && y > 0.0
    ensures x * y > 0.0
  {
  }

  lemma MulNonNegative(x: real, y: real)
    requires x >= 0.0 && y >= 0.0
    ensures x * y >= 0.0
  {
    if x > 0.0 && y > 0.0 { MulPositive(x, y); }
  }

  lemma PositiveSquare(d: real)
    ensures Sq(d) >= 0.0
    ensures d != 0.0 ==> Sq(d) > 0.0
  {
    if d > 0.0 {
      calc { Sq(d); == d * d; > 0.0; }
    } else if d < 0.0 {
      calc { Sq(d); == d * d; == (-d) * (-d); > 0.0; }
    }
  }

  lemma {:induction false} SumSqZeroIffConstant(s: seq<real>, m: real)
    ensures SumSq(s, m) >= 0.0
    ensures SumSq(s, m) == 0.0 <==> forall i :: 0 <= i < |s| ==> s[i] == m
  {
    if |s| > 0 {
      var init := s[..|s| - 1];
      SumSqZeroIffConstant(init, m);
      var d := s[|s| - 1] - m;
      PositiveSquare(d);
      if SumSq(s, m) == 0.0 {
        forall i | 0 <= i < |s| ensures s[i] == m {
          if i < |s| - 1 { assert s[i] == init[i]; }
        }
      }
      if forall i :: 0 <= i < |s| ==> s[i] == m {
        forall i | 0 <= i < |init| ensures init[i] == m { assert init[i] == s[i]; }
      }
    }
  }

  /** The standard deviation is zero exactly when every value equals the mean. */
  lemma VarianceZeroIffConstant(s: seq<real>)
    requires |s| > 0
    ensures Variance(s) >= 0.0
    ensures Variance(s) == 0.0 <==> forall i :: 0 <= i < |s| ==> s[i] == Mean(s)
  {
    SumSqZeroIffConstant(s, Mean(s));
  }

  /**
   * `|d| / sqrt(v) > t` for a positive variance `v`, without a square root:
   * a negative threshold is always exceeded, otherwise both sides are squared.
   */
  predicate RatioExceeds(d: real, v: real, t: real) {
    t < 0.0 || Sq(d) > Sq(t) * v
  }

  lemma SquaresOrdered(a: real, b: real)
    requires a >= 0.0 && b >= 0.0
    ensures a > b <==> Sq(a) > Sq(b)
  {
    if a > b {
      SquareGrows(b, a);
    } else {
      SquareKeepsOrder(a, b);
    }
  }

  lemma SquareGrows(a: real, b: real)
    requires 0.0 <= a < b
    ensures Sq(a) < Sq(b)
  {
    var x, y := b - a, b + a;
    MulPositive(x, y);
    assert x * y == Sq(b) - Sq(a);
  }

  lemma SquareKeepsOrder(a: real, b: real)
    requires 0.0 <= a <= b
    ensures Sq(a) <= Sq(b)
  {
    var x, y := b - a, b + a;
    MulNonNegative(x, y);
    assert x * y == Sq(b) - Sq(a);
  }

  lemma ScaleOrdered(x: real, y: real, s: real)
    requires s > 0.0
    ensures x > y <==> x * s > y * s
  {
    calc { x * s - y * s; == (x - y) * s; }
    if x > y {
      MulPositive(x - y, s);
    } else {
      MulNonNegative(y - x, s);
    }
  }

  /** `RatioExceeds` agrees with the test written with any square root `s` of `v`. */
  lemma RatioExceedsMeaning(d: real, v: real, s: real, t: real)
    requires s > 0.0 && Sq(s) == v
    ensures RatioExceeds(d, v, t) <==> Abs(d) / s > t
  {
    var a := Abs(d);
    var q := a / s;
    assert q >= 0.0;
    if t >= 0.0 {
      var b := t * s;
      MulNonNegative(t, s);
      SquaresOrdered(a, b);
      calc { Sq(a); == a * a; == d * d; == Sq(d); }
      calc { Sq(b); == (t * s) * (t * s); == (t * t) * (s * s); == Sq(t) * v; }
      calc { q * s; == (a / s) * s; == a; }
      ScaleOrdered(q, t, s);
    }
  }

  /** Dividing both sides of `x <= y` by a positive `n` keeps the order. */
  lemma DivOrdered(x: real, y: real, n: real)
    requires n > 0.0 && x <= y
    ensures x / n <= y / n
  {
    var a := x / n;
    var b := y / n;
    calc { a * n; == x; }
    calc { b * n; == y; }
    if a > b {
      ScaleOrdered(a, b, n);
    }
  }

  /** The quotient is the only number that multiplied by `n` gives `x`. */
  lemma DivUnique(x: real, n: real, q: real)
    requires n > 0.0 && q * n == x
    ensures q == x / n
  {
    var d := x / n;
    assert d * n == x;
    calc { (q - d) * n; == q * n - d * n; == 0.0; }
    if q != d {
      if q > d { MulPositive(q - d, n); } else { MulPositive(d - q, n); }
    }
  }

  /** Dividing by a positive number keeps the sign. */
  lemma DivSign(x: real, n: real)
    requires n > 0.0
    ensures x / n >= 0.0 <==> x >= 0.0
    ensures x / n == 0.0 <==> x == 0.0
  {
    var q := x / n;
    assert q * n == x;
    if x >= 0.0 { DivOrdered(0.0, x, n); }
    if q >= 0.0 { MulNonNegative(q, n); }
  }

  /** Python's `max` of a non-empty list. */
  function MaxOf(s: seq<real>): (m: real)
    requires |s| > 0
    ensures m in s && forall i :: 0 <= i < |s| ==> s[i] <= m
  {
    if |s| == 1 then s[0] else Max(MaxOf(s[..|s| - 1]), s[|s| - 1])
  }

  /** Every element divided by `t`. */
  function DivAll(s: seq<real>, t: real): (r: seq<real>)
    requires t != 0.0
    ensures |r| == |s| && forall i :: 0 <= i < |s| ==> r[i] == s[i] / t
  {
    seq(|s|, i requires 0 <= i < |s| => s[i] / t)
  }

  /** Dividing every element by `t` divides the sum by `t`. */
  lemma {:induction false} SumDivAll(s: seq<real>, t: real)
    requires t != 0.0
    ensures Sum(DivAll(s, t)) == Sum(s) / t
  {
    if |s| > 0 {
      var init := s[..|s| - 1];
      SumDivAll(init, t);
      assert DivAll(s, t)[..|s| - 1] == DivAll(init, t);
      assert Sum(DivAll(s, t)) == Sum(init) / t + s[|s| - 1] / t;
      DivAdd(Sum(init), s[|s| - 1], t);
    }
  }

  lemma DivAdd(a: real, b: real, t: real)
    requires t != 0.0
    ensures a / t + b / t == (a + b) / t
  {
  }

  /** Number of true flags. */
  function Count(bs: seq<bool>): (n: nat)
    ensures n <= |bs|
  {
    if |bs| == 0 then 0 else Count(bs[..|bs| - 1]) + (if bs[|bs| - 1] then 1 else 0)
  }

  lemma {:induction false} CountExtremes(bs: seq<bool>)
    ensures Count(bs) == |bs| <==> forall i :: 0 <= i < |bs| ==> bs[i]
    ensures Count(bs) == 0 <==> forall i :: 0 <= i < |bs| ==> !bs[i]
  {
    if |bs| > 0 {
      var init := bs[..|bs| - 1];
      CountExtremes(init);
      assert forall i :: 0 <= i < |init| ==> init[i] == bs[i];
    }
  }

  /** pandas' mean of a non-empty boolean column: the fraction of true flags. */
  function FlagMean(bs: seq<bool>): (r: real)
    requires |bs| > 0
    ensures 0.0 <= r <= 1.0
    ensures r == 1.0 <==> forall i :: 0 <= i < |bs| ==> bs[i]
    ensures r == 0.0 <==> forall i :: 0 <= i < |bs| ==> !bs[i]
  {
    CountExtremes(bs);
    FractionFacts(Count(bs) as real, |bs| as real);
    Count(bs) as real / |bs| as real
  }

  /** A part over a positive whole lies in `[0, 1]`, at 0 exactly for none and at 1 exactly for all. */
  lemma FractionFacts(c: real, n: real)
    requires 0.0 <= c <= n && n > 0.0
    ensures 0.0 <= c / n <= 1.0
    ensures c / n == 1.0 <==> c == n
    ensures c / n == 0.0 <==> c == 0.0
  {
    DivSign(c, n);
    DivOrdered(c, n, n);
    DivUnique(n, n, 1.0);
    if c / n == 1.0 {
      DivUnique(c, n, 1.0);
    }
  }

  /** Lower and upper bounds on every element bound the sum. */
  lemma {:induction false} SumBetween(s: seq<real>, lo: real, hi: real)
    requires forall i :: 0 <= i < |s| ==> lo <= s[i] <= hi
    ensures lo * (|s| as real) <= Sum(s) <= hi * (|s| as real)
  {
    if |s| > 0 {
      var init := s[..|s| - 1];
      assert forall i :: 0 <= i < |init| ==> init[i] == s[i];
      SumBetween(init, lo, hi);
      calc { lo * (|s| as real); == lo * (|init| as real) + lo; }
      calc { hi * (|s| as real); == hi * (|init| as real) + hi; }
    }
  }

  /** The mean lies between any lower and upper bound of the values. */
  lemma MeanBetween(s: seq<real>, lo: real, hi: real)
    requires |s| > 0
    requires forall i :: 0 <= i < |s| ==> lo <= s[i] <= hi
    ensures lo <= Mean(s) <= hi
  {
    var n := |s| as real;
    SumBetween(s, lo, hi);
    DivOrdered(lo * n, Sum(s), n);
    DivOrdered(Sum(s), hi * n, n);
    calc { lo * n / n; == lo; }
    calc { hi * n / n; == hi; }
  }

  function AbsAll(s: seq<real>): (r: seq<real>)
    ensures |r| == |s| && forall i :: 0 <= i < |s| ==> r[i] == Abs(s[i])
  {
    seq(|s|, i requires 0 <= i < |s| => Abs(s[i]))
  }

  /** Triangle inequality for sums. */
  lemma {:induction false} SumAbsBound(s: seq<real>)
    ensures Abs(Sum(s)) <= Sum(AbsAll(s))
  {
    if |s| > 0 {
      var init := s[..|s| - 1];
      SumAbsBound(init);
      assert AbsAll(s)[..|s| - 1] == AbsAll(init);
    }
  }

  /** The absolute value of the mean is at most the mean absolute value. */
  lemma MeanAbsBound(s: seq<real>)
    requires |s| > 0
    ensures Abs(Mean(s)) <= Mean(AbsAll(s))
  {
    var n := |s| as real;
    SumAbsBound(s);
    DivOrdered(Sum(s), Sum(AbsAll(s)), n);
    DivOrdered(-Sum(s), Sum(AbsAll(s)), n);
    DivNegate(Sum(s), n);
  }

  /** `max(lo, 1 - e * n)` does not rise as `e` grows, for a non-negative `n`. */
  lemma ScaledComplementAntitone(e1: real, e2: real, n: real, lo: real)
    requires e1 <= e2 && n >= 0.0
    ensures Max(lo, 1.0 - e2 * n) <= Max(lo, 1.0 - e1 * n)
  {
    MulNonNegative(e2 - e1, n);
    assert e2 * n - e1 * n == (e2 - e1) * n;
  }

  lemma DivNegate(a: real, n: real)
    requires n != 0.0
    ensures -a / n == -(a / n)
  {
  }

  /** `int(x)` on a float: truncation toward zero. */
  function Trunc(x: real): (n: int)
    ensures 0.0 <= x ==> 0 <= n && n as real <= x < n as real + 1.0
    ensures x < 0.0 ==> n <= 0 && n as real - 1.0 < x <= n as real
  {
    if x >= 0.0 then x.Floor else -((-x).Floor)
  }

  lemma TruncMonotone(x: real, y: real)
    requires 0.0 <= x <= y
    ensures Trunc(x) <= Trunc(y)
  {
  }
}
