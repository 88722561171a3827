/** Ordinary least squares of a series against its period index, in closed
    form: what `LinearRegression().fit(X, y)` with `X = range(len(y))` computes,
    with `coef_[0]` as the slope and `score(X, y)` as the R² value. */
module Regression {
  import opened Stats

  /** The regressor the tools build: 0, 1, …, n−1. */
  function Periods(n: nat): (x: seq<real>)
    ensures |x| == n
    ensures forall i :: 0 <= i < n ==> x[i] == i as real
  {
    seq(n, i requires 0 <= i < n => i as real)
  }

  /** A fitted line y ≈ intercept + slope·x and its coefficient of determination. */
  datatype LineFit = LineFit(slope: real, intercept: real, rSquared: real)

  /** The spread of the regressor, Σ(x[i] − mean(x))². */
  function Spread(x: seq<real>): real
    requires |x| > 0
  {
    SumSq(Centered(x))
  }

  /** The least-squares slope Σ(x[i] − x̄)(y[i] − ȳ) / Σ(x[i] − x̄)². */
  function Slope(x: seq<real>, y: seq<real>): real
    requires |x| == |y| > 0 && Spread(x) > 0.0
  {
    Dot(Centered(x), Centered(y)) / Spread(x)
  }

  /** The intercept that makes the line pass through (x̄, ȳ). */
  function Intercept(x: seq<real>, y: seq<real>): real
    requires |x| == |y| > 0 && Spread(x) > 0.0
  {
    Mean(y) - Slope(x, y) * Mean(x)
  }

  /** y[i] − (a + b·x[i]): what the line a + b·x leaves unexplained. */
  function Residuals(x: seq<real>, y: seq<real>, a: real, b: real): (e: seq<real>)
    requires |x| == |y|
    ensures |e| == |y|
    ensures forall i :: 0 <= i < |y| ==> e[i] == y[i] - (a + b * x[i])
  {
    seq(|y|, i requires 0 <= i < |y| => y[i] - (a + b * x[i]))
  }

  /** The residual sum of squares of the line a + b·x. */
  function SSRes(x: seq<real>, y: seq<real>, a: real, b: real): real
    requires |x| == |y|
  {
    SumSq(Residuals(x, y, a, b))
  }

  /** The total sum of squares of y about its mean. */
  function SSTot(y: seq<real>): real
    requires |y| > 0
  {
    SumSq(Centered(y))
  }

  /** `score(X, y)`: 1 − SS_res / SS_tot of the least-squares line. A series
      with no variance is fitted exactly, and scores 1. */
  function RSquared(x: seq<real>, y: seq<real>): (r: real)
    requires |x| == |y| > 0 && Spread(x) > 0.0
    ensures 0.0 <= r <= 1.0
  {
    var tot, res := SSTot(y), SSRes(x, y, Intercept(x, y), Slope(x, y));
    ResidualSplit(x, y);
    if tot == 0.0 then
      1.0
    else
      RatioBounds(res, tot);
      1.0 - res / tot
  }

  /** The fit of a non-empty series against its period index. A single point
      has no spread to fit: its slope and R² are 0. */
  function FitLine(y: seq<real>): (f: LineFit)
    requires |y| > 0
    ensures 0.0 <= f.rSquared <= 1.0
    ensures |y| == 1 ==> f.slope == 0.0 && f.rSquared == 0.0
  {
    if |y| == 1 then
      LineFit(0.0, y[0], 0.0)
    else
      var x := Periods(|y|);
      PeriodsSpread(|y|);
      LineFit(Slope(x, y), Intercept(x, y), RSquared(x, y))
  }

  // ---------------------------------------------------------------------
  // Algebra of the least-squares line

  lemma {:induction false} PeriodsAppend(n: nat)
    ensures Periods(n + 1) == Periods(n) + [n as real]
  {
  }

  /** 0 + 1 + … + (n − 1) = n(n − 1)/2, and the same for the squares:
      n(n − 1)(2n − 1)/6. */
  lemma {:induction false} PeriodsSums(n: nat)
    ensures Sum(Periods(n)) == (n as real) * (n as real - 1.0) / 2.0
    ensures SumSq(Periods(n)) == (n as real) * (n as real - 1.0) * (2.0 * (n as real) - 1.0) / 6.0
  {
    if n > 0 {
      var x, v := Periods(n - 1), (n - 1) as real;
      PeriodsSums(n - 1);
      assert Sum(Periods(n)) == Sum(x) + v && SumSq(Periods(n)) == SumSq(x) + v * v by {
        PeriodsAppend(n - 1);
        SumAppend(x, v);
        SumSqAppend(x, v);
      }
      assert n as real == v + 1.0;
      SumsStep(v, Sum(x), SumSq(x), Sum(Periods(n)), SumSq(Periods(n)));
    }
  }

  /** The regressor 0, 1, …, n − 1 has mean (n − 1)/2 and spread
      (n³ − n)/12, so with two or more periods the fit is determined. */
  lemma {:induction false} PeriodsSpread(n: nat)
    requires n >= 1
    ensures Mean(Periods(n)) == (n as real - 1.0) / 2.0
    ensures Spread(Periods(n)) == (n as real) * ((n as real) * (n as real) - 1.0) / 12.0
    ensures n >= 2 ==> Spread(Periods(n)) > 0.0
  {
    var x, ones := Periods(n), Const(n, 1.0);
    var m := Mean(x);
    PeriodsSums(n);
    PeriodsMean(Sum(x), n as real, m);
    assert Centered(x) == Lin(x, -m, ones);
    SumSqLin(x, -m, ones);
    DotSymmetric(x, ones);
    DotConst(1.0, x);
    DotConst(1.0, ones);
    SumConst(n, 1.0);
    PeriodsSpreadValue(n as real, m, Sum(x), SumSq(x), Dot(x, ones), SumSq(ones), Spread(x));
  }

  /** With the least-squares intercept, the residuals are the centred
      series minus slope times the centred regressor. */
  lemma {:induction false} ResidualsCentered(x: seq<real>, y: seq<real>)
    requires |x| == |y| > 0 && Spread(x) > 0.0
    ensures Residuals(x, y, Intercept(x, y), Slope(x, y)) == Lin(Centered(y), -Slope(x, y), Centered(x))
  {
    var a, b := Intercept(x, y), Slope(x, y);
    var e := Residuals(x, y, a, b);
    var d := Lin(Centered(y), -b, Centered(x));
    forall i | 0 <= i < |y|
      ensures e[i] == d[i]
    {
      assert d[i] == Centered(y)[i] + -b * Centered(x)[i];
      assert Centered(y)[i] == y[i] - Mean(y) && Centered(x)[i] == x[i] - Mean(x);
      ResidualPoint(y[i], x[i], Mean(y), Mean(x), a, b);
    }
  }

  /** SS_res = SS_tot − slope²·spread for the least-squares line. */
  lemma {:induction false} ResidualSplit(x: seq<real>, y: seq<real>)
    requires |x| == |y| > 0 && Spread(x) > 0.0
    ensures SSRes(x, y, Intercept(x, y), Slope(x, y)) == SSTot(y) - Slope(x, y) * Slope(x, y) * Spread(x)
    ensures 0.0 <= SSRes(x, y, Intercept(x, y), Slope(x, y)) <= SSTot(y)
  {
    var cx, cy := Centered(x), Centered(y);
    var b := Slope(x, y);
    var res := SSRes(x, y, Intercept(x, y), b);
    var p, s := Dot(cx, cy), Spread(x);
    assert res == SumSq(cy) + 2.0 * -b * p + -b * -b * s by {
      ResidualsCentered(x, y);
      SumSqLin(cy, -b, cx);
      DotSymmetric(cy, cx);
    }
    assert res >= 0.0 by {
      SumSqNonNegative(Residuals(x, y, Intercept(x, y), b));
    }
    assert b == p / s;
    SlopeAlgebra(res, SumSq(cy), p, s, b);
  }

  /** The residuals of the least-squares line sum to zero. */
  lemma {:induction false} ResidualsSumToZero(x: seq<real>, y: seq<real>)
    requires |x| == |y| > 0 && Spread(x) > 0.0
    ensures Sum(Residuals(x, y, Intercept(x, y), Slope(x, y))) == 0.0
  {
    var b := Slope(x, y);
    ResidualsCentered(x, y);
    SumLin(Centered(y), -b, Centered(x));
    SumCentered(x);
    SumCentered(y);
    ZeroCombination(Sum(Centered(y)), Sum(Centered(x)), -b);
  }

  /** The residuals of the least-squares line are orthogonal to the regressor. */
  lemma {:induction false} ResidualsOrthogonal(x: seq<real>, y: seq<real>)
    requires |x| == |y| > 0 && Spread(x) > 0.0
    ensures Dot(x, Residuals(x, y, Intercept(x, y), Slope(x, y))) == 0.0
  {
    var cx, cy := Centered(x), Centered(y);
    var b := Slope(x, y);
    var e := Residuals(x, y, Intercept(x, y), b);
    var ones := Const(|x|, 1.0);
    assert Dot(cx, e) == 0.0 by {
      ResidualsCentered(x, y);
      DotSymmetric(cx, e);
      DotLin(cy, -b, cx, cx);
      DotSymmetric(cy, cx);
      SlopeOrthogonal(Dot(cx, e), Dot(cy, cx), Spread(x), b);
    }
    assert Sum(e) == 0.0 by {
      ResidualsSumToZero(x, y);
    }
    assert Dot(x, e) == Dot(cx, e) + Mean(x) * (1.0 * Sum(e)) by {
      assert x == Lin(cx, Mean(x), ones);
      DotLin(cx, Mean(x), ones, e);
      DotConst(1.0, e);
    }
    ZeroCombination(Dot(cx, e), 1.0 * Sum(e), Mean(x));
  }

  /** No line a + b·x leaves a smaller residual sum of squares than the
      least-squares line: the fit is what its name says. */
  lemma {:induction false} LeastSquares(x: seq<real>, y: seq<real>, a: real, b: real)
    requires |x| == |y| > 0 && Spread(x) > 0.0
    ensures SSRes(x, y, Intercept(x, y), Slope(x, y)) <= SSRes(x, y, a, b)
  {
    var a0, b0 := Intercept(x, y), Slope(x, y);
    var e := Residuals(x, y, a0, b0);
    var w := Lin(Const(|x|, a0 - a), b0 - b, x);
    var e' := Residuals(x, y, a, b);
    forall i | 0 <= i < |y|
      ensures e'[i] == Lin(e, 1.0, w)[i]
    {
      ShiftLine(y[i], x[i], a0, b0, a, b);
    }
    assert e' == Lin(e, 1.0, w);
    assert SumSq(e') == SumSq(e) + 2.0 * 1.0 * Dot(e, w) + 1.0 * 1.0 * SumSq(w) by {
      SumSqLin(e, 1.0, w);
    }
    assert Dot(e, w) == 0.0 by {
      DotSymmetric(e, w);
      DotLin(Const(|x|, a0 - a), b0 - b, x, e);
      DotConst(a0 - a, e);
      ResidualsSumToZero(x, y);
      ResidualsOrthogonal(x, y);
      CrossZero(a0 - a, b0 - b, Sum(e), Dot(x, e));
    }
    SumSqNonNegative(w);
    NoCrossTerm(SumSq(e'), SumSq(e), Dot(e, w), SumSq(w));
  }

  /** A series on an exact line a + b·i (n ≥ 2) is fitted exactly: the fit
      recovers the slope and intercept, and R² is 1. */
  lemma {:induction false} LinearSeriesFit(n: nat, a: real, b: real)
    requires n >= 2
    ensures FitLine(Lin(Const(n, a), b, Periods(n))) == LineFit(b, a, 1.0)
  {
    PeriodsSpread(n);
    LineRecovered(Periods(n), a, b);
  }

  /** Least squares recovers any exact line over a regressor with spread. */
  lemma {:induction false} LineRecovered(x: seq<real>, a: real, b: real)
    requires |x| > 0 && Spread(x) > 0.0
    ensures var y := Lin(Const(|x|, a), b, x);
      Slope(x, y) == b && Intercept(x, y) == a && RSquared(x, y) == 1.0
  {
    var y := Lin(Const(|x|, a), b, x);
    LineMean(x, a, b);
    LineSlope(x, a, b);
    assert Intercept(x, y) == a;
    assert SSRes(x, y, a, b) == 0.0 by {
      SumSqOfZeros(Residuals(x, y, a, b));
    }
  }

  lemma {:induction false} LineMean(x: seq<real>, a: real, b: real)
    requires |x| > 0
    ensures Mean(Lin(Const(|x|, a), b, x)) == a + b * Mean(x)
  {
    var y := Lin(Const(|x|, a), b, x);
    SumLin(Const(|x|, a), b, x);
    SumConst(|x|, a);
    MeanOfLine(Sum(y), Sum(x), |x| as real, a, b);
  }

  lemma {:induction false} LineSlope(x: seq<real>, a: real, b: real)
    requires |x| > 0 && Spread(x) > 0.0
    requires Mean(Lin(Const(|x|, a), b, x)) == a + b * Mean(x)
    ensures Slope(x, Lin(Const(|x|, a), b, x)) == b
  {
    var y := Lin(Const(|x|, a), b, x);
    var cx, cy := Centered(x), Centered(y);
    assert Dot(cx, cy) == b * Spread(x) by {
      CenteredLine(x, a, b);
      DotScaled(cx, b, cy, cx);
      DotSymmetric(cx, cy);
    }
    QuotientOfMultiple(Dot(cx, cy), Spread(x), b);
  }

  /** On an exact line, the centred series is the slope times the centred regressor. */
  lemma {:induction false} CenteredLine(x: seq<real>, a: real, b: real)
    requires |x| > 0
    requires Mean(Lin(Const(|x|, a), b, x)) == a + b * Mean(x)
    ensures var y := Lin(Const(|x|, a), b, x);
      forall i :: 0 <= i < |y| ==> Centered(y)[i] == b * Centered(x)[i]
  {
    var y := Lin(Const(|x|, a), b, x);
    forall i | 0 <= i < |y|
      ensures Centered(y)[i] == b * Centered(x)[i]
    {
      assert y[i] == a + b * x[i];
      CenteredLinePoint(y[i], x[i], Mean(y), Mean(x), a, b);
    }
  }

  // ---------------------------------------------------------------------
  // Arithmetic steps, kept apart from the sequence reasoning

  lemma SumsStep(v: real, s: real, q: real, s': real, q': real)
    requires s == v * (v - 1.0) / 2.0 && q == v * (v - 1.0) * (2.0 * v - 1.0) / 6.0
    requires s' == s + v && q' == q + v * v
    ensures s' == (v + 1.0) * (v + 1.0 - 1.0) / 2.0
    ensures q' == (v + 1.0) * (v + 1.0 - 1.0) * (2.0 * (v + 1.0) - 1.0) / 6.0
  {
  }

  lemma PeriodsMean(s: real, n: real, m: real)
    requires n >= 1.0 && s == n * (n - 1.0) / 2.0 && m == s / n
    ensures m == (n - 1.0) / 2.0
  {
    var h := (n - 1.0) / 2.0;
    assert s == n * h;
    assert m * n == s;
    var d := m - h;
    assert d * n == 0.0;
    assert d == 0.0;
  }

  lemma PeriodsSpreadValue(n: real, m: real, s: real, q: real, d: real, c: real, sp: real)
    requires n >= 1.0 && m == (n - 1.0) / 2.0 && s == n * (n - 1.0) / 2.0
    requires q == n * (n - 1.0) * (2.0 * n - 1.0) / 6.0
    requires d == 1.0 * s && c == 1.0 * (n * 1.0)
    requires sp == q + 2.0 * -m * d + -m * -m * c
    ensures sp == n * (n * n - 1.0) / 12.0
    ensures n >= 2.0 ==> sp > 0.0
  {
  }

  lemma RatioBounds(r: real, t: real)
    requires 0.0 <= r <= t && t != 0.0
    ensures 0.0 <= 1.0 - r / t <= 1.0
  {
  }

  lemma ResidualPoint(yi: real, xi: real, my: real, mx: real, a: real, b: real)
    requires a == my - b * mx
    ensures yi - (a + b * xi) == (yi - my) + -b * (xi - mx)
  {
  }

  lemma SlopeAlgebra(res: real, tot: real, p: real, s: real, b: real)
    requires s > 0.0 && b == p / s && res >= 0.0 && res == tot + 2.0 * -b * p + -b * -b * s
    ensures res == tot - b * b * s && res <= tot
  {
  }

  lemma SlopeOrthogonal(d: real, p: real, s: real, b: real)
    requires s > 0.0 && b == p / s && d == p + -b * s
    ensures d == 0.0
  {
  }

  lemma ZeroCombination(u: real, v: real, c: real)
    requires u == 0.0 && v == 0.0
    ensures u + c * v == 0.0
  {
  }

  lemma ShiftLine(yi: real, xi: real, a0: real, b0: real, a: real, b: real)
    ensures yi - (a + b * xi) == (yi - (a0 + b0 * xi)) + 1.0 * ((a0 - a) * 1.0 + (b0 - b) * xi)
  {
  }

  lemma CrossZero(da: real, db: real, se: real, xe: real)
    requires se == 0.0 && xe == 0.0
    ensures da * se + db * xe == 0.0
  {
  }

  lemma NoCrossTerm(total: real, base: real, cross: real, extra: real)
    requires total == base + 2.0 * 1.0 * cross + 1.0 * 1.0 * extra && cross == 0.0 && extra >= 0.0
    ensures base <= total
  {
  }

  lemma MeanOfLine(sy: real, sx: real, n: real, a: real, b: real)
    requires n > 0.0 && sy == n * a + b * sx
    ensures sy / n == a + b * (sx / n)
  {
  }

  lemma CenteredLinePoint(yi: real, xi: real, my: real, mx: real, a: real, b: real)
    requires yi == a + b * xi && my == a + b * mx
    ensures yi - my == b * (xi - mx)
  {
  }

  lemma QuotientOfMultiple(p: real, s: real, b: real)
    requires s > 0.0 && p == b * s
    ensures p / s == b
  {
  }
}
