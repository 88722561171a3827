/** `TrendAnalysisTool._run`: the least-squares trend of a product's sales in
    date order, its recent twelve-period window, the total change and the
    strength and direction labels. */
module Trend {
  import opened Results
  import opened Stats
  import opened Regression
  import opened Sales

  datatype Strength = Strong | Moderate | Weak

  datatype Direction = Rising | Declining | Stable

  /** The length of the recent window. */
  const RecentWindow: nat := 12

  /** Strength from R²: above 0.7 strong, above 0.4 moderate, otherwise weak. */
  function StrengthOf(rSquared: real): (s: Strength)
    ensures s == Strong <==> rSquared > 0.7
    ensures s == Moderate <==> 0.4 < rSquared <= 0.7
    ensures s == Weak <==> rSquared <= 0.4
  {
    if rSquared > 0.7 then Strong
    else if rSquared > 0.4 then Moderate
    else Weak
  }

  /** Direction from the slope: above 0.5 rising, below −0.5 declining,
      otherwise stable. */
  function DirectionOf(slope: real): (d: Direction)
    ensures d == Rising <==> slope > 0.5
    ensures d == Declining <==> slope < -0.5
    ensures d == Stable <==> -0.5 <= slope <= 0.5
  {
    if slope > 0.5 then Rising
    else if slope < -0.5 then Declining
    else Stable
  }

  /** Weak < Moderate < Strong. */
  function Level(s: Strength): nat
  {
    match s
    case Weak => 0
    case Moderate => 1
    case Strong => 2
  }

  function Opposite(d: Direction): Direction
  {
    match d
    case Rising => Declining
    case Declining => Rising
    case Stable => Stable
  }

  /** A better fit never earns a weaker label. */
  lemma StrengthMonotone(r: real, r': real)
    requires r <= r'
    ensures Level(StrengthOf(r)) <= Level(StrengthOf(r'))
  {
  }

  /** Negating the slope swaps rising and declining and keeps stable. */
  lemma DirectionMirror(slope: real)
    ensures DirectionOf(-slope) == Opposite(DirectionOf(slope))
  {
  }

  lemma PercentAlgebra(first: real, last: real, r: real)
    requires first > 0.0 && r == (last - first) / first * 100.0
    ensures first * (1.0 + r / 100.0) == last
    ensures (r > 0.0 <==> last > first) && (r < 0.0 <==> last < first)
  {
  }

  /** The change from the first to the last value, in percent of the first;
      0 when the first value is not positive. */
  function PercentChange(first: real, last: real): (r: real)
    ensures first > 0.0 ==> first * (1.0 + r / 100.0) == last
    ensures first > 0.0 ==> (r > 0.0 <==> last > first) && (r < 0.0 <==> last < first)
    ensures first <= 0.0 ==> r == 0.0
    ensures first == last ==> r == 0.0
  {
    if first > 0.0 then
      var r := (last - first) / first * 100.0;
      PercentAlgebra(first, last, r);
      r
    else
      0.0
  }

  datatype TrendResult = TrendResult(
    slope: real,
    rSquared: real,
    recentSlope: real,
    recentRSquared: real,
    totalChangePct: real,
    strength: Strength,
    direction: Direction)

  /** The last twelve values, or the whole series when it is shorter. */
  function RecentPart(y: seq<real>): (w: seq<real>)
    ensures |w| == if |y| < RecentWindow then |y| else RecentWindow
    ensures forall i :: 0 <= i < |w| ==> w[i] == y[|y| - |w| + i]
  {
    if |y| < RecentWindow then y else y[|y| - RecentWindow..]
  }

  /** The trend of a non-empty series of sales in date order. */
  function TrendOfSeries(y: seq<real>): (t: TrendResult)
    requires |y| > 0
    ensures 0.0 <= t.rSquared <= 1.0 && 0.0 <= t.recentRSquared <= 1.0
    ensures t.strength == StrengthOf(t.rSquared) && t.direction == DirectionOf(t.slope)
    ensures |y| < RecentWindow ==> t.recentSlope == t.slope && t.recentRSquared == t.rSquared
    ensures t.totalChangePct == PercentChange(y[0], y[|y| - 1])
    ensures |y| == 1 ==> t.slope == 0.0 && t.rSquared == 0.0 && t.totalChangePct == 0.0
  {
    var fit := FitLine(y);
    var change := PercentChange(y[0], y[|y| - 1]);
    var recent := if |y| >= RecentWindow then FitLine(RecentPart(y)) else fit;
    TrendResult(
      fit.slope,
      fit.rSquared,
      recent.slope,
      recent.rSquared,
      change,
      StrengthOf(fit.rSquared),
      DirectionOf(fit.slope))
  }

  /** `TrendAnalysisTool._run` for one product of the table: the product's
      rows sorted by date, their sales fitted against the period index. */
  function TrendAnalysis(table: seq<SalesRecord>, product: string): (r: Result<TrendResult, AnalysisError>)
    ensures r.Err? <==> forall i :: 0 <= i < |table| ==> table[i].product != product
    ensures r.Err? ==> r.error == ProductNotFound
    ensures r.Ok? ==> 0.0 <= r.value.rSquared <= 1.0 && r.value.strength == StrengthOf(r.value.rSquared)
  {
    var rs := ForProduct(table, product);
    ProductFoundIff(table, product);
    var sorted := SortByDate(rs);
    assert |sorted| == |multiset(sorted)| == |rs|;
    if |rs| == 0 then Err(ProductNotFound) else Ok(TrendOfSeries(Units(sorted)))
  }

  /** Sort, then fit: when no two of the product's rows share a date, the
      trend tool's result is the analysis of any date-ordered arrangement
      of those rows. */
  lemma TrendOfDateOrder(table: seq<SalesRecord>, product: string, s: seq<SalesRecord>)
    requires multiset(s) == multiset(ForProduct(table, product)) && |s| > 0
    requires DistinctDates(s)
    requires forall i, j :: 0 <= i < j < |s| ==> s[i].date <= s[j].date
    ensures TrendAnalysis(table, product) == Ok(TrendOfSeries(Units(s)))
  {
    var rs := ForProduct(table, product);
    forall x, y | x in rs && y in rs && x.date == y.date
      ensures x == y
    {
      assert x in multiset(rs) && y in multiset(rs);
      assert x in multiset(s) && y in multiset(s);
    }
    SortByDateUnique(rs, s);
    assert |rs| == |multiset(rs)| == |s|;
  }

  /** The trend tool does not depend on the order of the table's rows, as
      long as no two rows of the product share a date. */
  lemma TrendIgnoresTableOrder(table: seq<SalesRecord>, table': seq<SalesRecord>, product: string)
    requires multiset(table) == multiset(table')
    requires DistinctDates(ForProduct(table, product))
    ensures TrendAnalysis(table, product) == TrendAnalysis(table', product)
  {
    var rs := ForProduct(table, product);
    SameProductRows(table, table', product);
    if |rs| > 0 {
      var s := SortByDate(rs);
      DateSortKeepsDistinct(rs);
      TrendOfDateOrder(table, product, s);
      TrendOfDateOrder(table', product, s);
    } else {
      NoRowsNoTrend(table, product);
      NoRowsNoTrend(table', product);
    }
  }

  lemma DateSortKeepsDistinct(rs: seq<SalesRecord>)
    requires DistinctDates(rs)
    ensures DistinctDates(SortByDate(rs)) && |SortByDate(rs)| == |rs|
  {
    var s := SortByDate(rs);
    assert |s| == |multiset(s)| == |rs|;
    forall x, y | x in s && y in s && x.date == y.date
      ensures x == y
    {
      assert x in multiset(s) && y in multiset(s);
    }
  }

  lemma NoRowsNoTrend(table: seq<SalesRecord>, product: string)
    requires |multiset(ForProduct(table, product))| == 0
    ensures TrendAnalysis(table, product) == Err(ProductNotFound)
  {
    ProductFoundIff(table, product);
  }

  /** With twelve or more values, the recent figures are the overall
      figures of the last twelve values analysed on their own, re-indexed
      from 0. */
  lemma RecentIsLastTwelve(y: seq<real>)
    requires |y| >= RecentWindow
    ensures TrendOfSeries(y).recentSlope == TrendOfSeries(y[|y| - RecentWindow..]).slope
    ensures TrendOfSeries(y).recentRSquared == TrendOfSeries(y[|y| - RecentWindow..]).rSquared
  {
  }

  // ---------------------------------------------------------------------
  // Exact lines

  /** Sales on the exact line a + b·i. */
  function Line(n: nat, a: real, b: real): (y: seq<real>)
    ensures |y| == n
    ensures forall i :: 0 <= i < n ==> y[i] == a + b * (i as real)
  {
    Lin(Const(n, a), b, Periods(n))
  }

  lemma ShiftedPoint(a: real, b: real, p: real, q: real, r: real)
    requires p == q + r
    ensures a + b * p == (a + b * q) + b * r
  {
  }

  /** The recent window of a line is again a line, with the same slope. */
  lemma {:induction false} RecentPartOfLine(n: nat, a: real, b: real)
    requires n >= RecentWindow
    ensures RecentPart(Line(n, a, b)) == Line(RecentWindow, a + b * ((n - RecentWindow) as real), b)
  {
    var y := Line(n, a, b);
    var w := RecentPart(y);
    var l := Line(RecentWindow, a + b * ((n - RecentWindow) as real), b);
    forall i | 0 <= i < RecentWindow
      ensures w[i] == l[i]
    {
      var k := n - RecentWindow;
      assert w[i] == y[k + i];
      ShiftedPoint(a, b, (k + i) as real, k as real, i as real);
    }
  }

  /** A series on an exact line (two or more points) has the line's slope
      both overall and in its recent window, R² of 1, and a strong trend
      in the slope's direction. */
  lemma {:induction false} LinearTrend(n: nat, a: real, b: real)
    requires n >= 2
    ensures var t := TrendOfSeries(Line(n, a, b));
      t.slope == b && t.rSquared == 1.0 && t.recentSlope == b && t.recentRSquared == 1.0 &&
      t.strength == Strong && t.direction == DirectionOf(b)
  {
    LinearSeriesFit(n, a, b);
    if n >= RecentWindow {
      RecentPartOfLine(n, a, b);
      LinearSeriesFit(RecentWindow, a + b * ((n - RecentWindow) as real), b);
    }
  }

  /** Sales 10, 20, 30, 40, 50: slope 10, R² 1, strong and rising, up 400%. */
  lemma SteadyGrowthExample()
    ensures var t := TrendOfSeries([10.0, 20.0, 30.0, 40.0, 50.0]);
      t.slope == 10.0 && t.rSquared == 1.0 && t.strength == Strong &&
      t.direction == Rising && t.totalChangePct == 400.0
  {
    var y := [10.0, 20.0, 30.0, 40.0, 50.0];
    assert Line(5, 10.0, 10.0) == y;
    LinearTrend(5, 10.0, 10.0);
  }

  /** A series starting at zero reports no percentage change. */
  lemma ZeroStartExample()
    ensures TrendOfSeries([0.0, 5.0, 10.0]).totalChangePct == 0.0
  {
  }
}
