/** The three tools side by side: the seasonality and trend reports of a
    product and the classification drawn from them, and the proof that the
    classification tool, which recomputes both signals itself, agrees. */
module Analysis {
  import opened Results
  import opened Sales
  import Sorting
  import opened Seasonality
  import Trend
  import opened Classification

  datatype Report = Report(
    seasonality: SeasonalityResult,
    trend: Trend.TrendResult,
    classification: Classification)

  /** The seasonality report, the trend report, and the classification of
      their signals. */
  function Analyze(table: seq<SalesRecord>, product: string): (r: Result<Report, AnalysisError>)
    ensures r.Ok? ==> r.value.seasonality.WellFormed()
    ensures r.Ok? ==> r.value.classification == Decide(SignalsOf(r.value.seasonality, r.value.trend))
    ensures r == Err(ProductNotFound) <==> forall i :: 0 <= i < |table| ==> table[i].product != product
  {
    var season :- SeasonalityAnalysis(table, product);
    var trend :- Trend.TrendAnalysis(table, product);
    Ok(Report(season, trend, Classify(season, trend)))
  }

  // ---------------------------------------------------------------------
  // Monthly averages do not depend on row order

  /** Inserting a row adds its contribution to its month's total and count. */
  lemma {:induction false} InsertKeepsTallies(x: SalesRecord, s: seq<SalesRecord>, key: SalesRecord -> real, m: Month)
    ensures MonthTotal(Sorting.InsertBy(x, s, key), m) == MonthTotal([x], m) + MonthTotal(s, m)
    ensures MonthCount(Sorting.InsertBy(x, s, key), m) == MonthCount([x], m) + MonthCount(s, m)
  {
    var r := Sorting.InsertBy(x, s, key);
    if |s| == 0 || key(x) <= key(s[0]) {
      assert r[1..] == s;
    } else {
      InsertKeepsTallies(x, s[1..], key, m);
      assert r[1..] == Sorting.InsertBy(x, s[1..], key);
    }
  }

  /** Sorting the rows keeps every month's total and count. */
  lemma {:induction false} SortKeepsTallies(s: seq<SalesRecord>, key: SalesRecord -> real, m: Month)
    ensures MonthTotal(Sorting.SortBy(s, key), m) == MonthTotal(s, m)
    ensures MonthCount(Sorting.SortBy(s, key), m) == MonthCount(s, m)
  {
    if |s| > 0 {
      SortKeepsTallies(s[1..], key, m);
      InsertKeepsTallies(s[0], Sorting.SortBy(s[1..], key), key, m);
    }
  }

  /** Row sets with the same totals and counts in every month have the same
      monthly averages. */
  lemma {:induction false} SameTalliesSameAverages(a: seq<SalesRecord>, b: seq<SalesRecord>, m: int)
    requires 1 <= m <= 13
    requires forall mo: Month :: MonthTotal(a, mo) == MonthTotal(b, mo) && MonthCount(a, mo) == MonthCount(b, mo)
    ensures MonthlyFrom(a, m) == MonthlyFrom(b, m)
    decreases 13 - m
  {
    if m < 13 {
      SameTalliesSameAverages(a, b, m + 1);
    }
  }

  /** Sorting by date leaves the monthly averages unchanged. */
  lemma {:induction false} DateSortKeepsAverages(rs: seq<SalesRecord>)
    ensures MonthlyAverages(SortByDate(rs)) == MonthlyAverages(rs)
  {
    forall mo: Month
      ensures MonthTotal(SortByDate(rs), mo) == MonthTotal(rs, mo)
      ensures MonthCount(SortByDate(rs), mo) == MonthCount(rs, mo)
    {
      SortKeepsTallies(rs, DateKey, mo);
    }
    SameTalliesSameAverages(SortByDate(rs), rs, 1);
  }

  // ---------------------------------------------------------------------
  // The classification tool agrees with the reports

  /** The classification tool's answer is the classification of the
      seasonality and trend reports, and it fails exactly when they do, with
      the same error. */
  lemma {:induction false} ClassificationAgrees(table: seq<SalesRecord>, product: string)
    ensures Analyze(table, product).Ok? ==>
      ProductClassification(table, product) == Ok(Analyze(table, product).value.classification)
    ensures Analyze(table, product).Err? ==>
      ProductClassification(table, product) == Err(Analyze(table, product).error)
  {
    var rs := ForProduct(table, product);
    if |rs| > 0 {
      DateSortKeepsAverages(rs);
    }
  }

  /** With no negative sales, every confidence the classification tool
      reports lies in (0.3, 0.95]. */
  lemma {:induction false} ConfidenceInRange(table: seq<SalesRecord>, product: string)
    requires NoNegativeSales(table)
    ensures ProductClassification(table, product).Ok? ==>
      0.3 < ProductClassification(table, product).value.confidence <= 0.95
  {
    ClassificationAgrees(table, product);
    var r := Analyze(table, product);
    if r.Ok? {
      SeasonalityScoreNonNegative(table, product);
      ConfidenceBounds(SignalsOf(r.value.seasonality, r.value.trend));
    }
  }
}
