/** `SeasonalityAnalysisTool._run`: monthly averages pooled across years, the
    seasonality score, the seasonal flag and the peak and low months. */
module Seasonality {
  import opened Results
  import opened Stats
  import Sorting
  import opened Sales

  /** One entry of `groupby('Month')[sales_col].mean()`. */
  datatype MonthlyMean = MonthlyMean(month: Month, mean: real)

  /** The score above which a product counts as seasonal. */
  const SeasonalThreshold: real := 0.3

  predicate Seasonal(score: real)
  {
    score > SeasonalThreshold
  }

  // ---------------------------------------------------------------------
  // Grouping by calendar month

  /** The sales of all rows in month m, whatever their year. */
  function MonthTotal(rs: seq<SalesRecord>, m: Month): real
  {
    if |rs| == 0 then 0.0
    else (if rs[0].month == m then rs[0].units else 0.0) + MonthTotal(rs[1..], m)
  }

  /** The number of rows in month m, whatever their year. */
  function MonthCount(rs: seq<SalesRecord>, m: Month): nat
  {
    if |rs| == 0 then 0
    else (if rs[0].month == m then 1 else 0) + MonthCount(rs[1..], m)
  }

  predicate Observed(rs: seq<SalesRecord>, m: Month)
  {
    MonthCount(rs, m) > 0
  }

  /** The mean sales of month m over the rows that fall in it. */
  function MonthAverage(rs: seq<SalesRecord>, m: Month): real
    requires Observed(rs, m)
  {
    MonthTotal(rs, m) / MonthCount(rs, m) as real
  }

  lemma {:induction false} ObservedIff(rs: seq<SalesRecord>, m: Month)
    ensures Observed(rs, m) <==> exists i :: 0 <= i < |rs| && rs[i].month == m
  {
    if |rs| > 0 {
      ObservedIff(rs[1..], m);
      if rs[0].month != m && Observed(rs, m) {
        var i :| 0 <= i < |rs[1..]| && rs[1..][i].month == m;
        assert rs[i + 1].month == m;
      }
      if i :| 0 <= i < |rs| && rs[i].month == m {
        if i > 0 {
          assert rs[1..][i - 1].month == m;
        }
      }
    }
  }

  /** The averages of the observed months from m to December, in month order. */
  function MonthlyFrom(rs: seq<SalesRecord>, m: int): (ms: seq<MonthlyMean>)
    requires 1 <= m <= 13
    ensures forall k :: 0 <= k < |ms| ==>
      m <= ms[k].month && Observed(rs, ms[k].month) && ms[k].mean == MonthAverage(rs, ms[k].month)
    ensures forall j, k :: 0 <= j < k < |ms| ==> ms[j].month < ms[k].month
    decreases 13 - m
  {
    if m == 13 then
      []
    else
      var rest := MonthlyFrom(rs, m + 1);
      if Observed(rs, m) then
        var ms := [MonthlyMean(m, MonthAverage(rs, m))] + rest;
        assert ms[0].month == m && ms[0].mean == MonthAverage(rs, m);
        assert forall k :: 0 < k < |ms| ==> ms[k] == rest[k - 1] && m < ms[k].month;
        ms
      else
        rest
  }

  /** Every observed month from m on has its entry. */
  lemma {:induction false} MonthlyFromComplete(rs: seq<SalesRecord>, m: int, mo: Month)
    requires 1 <= m <= mo && Observed(rs, mo)
    ensures exists k :: 0 <= k < |MonthlyFrom(rs, m)| && MonthlyFrom(rs, m)[k].month == mo
    decreases 13 - m
  {
    var ms := MonthlyFrom(rs, m);
    var rest := MonthlyFrom(rs, m + 1);
    if mo == m {
      assert ms[0].month == mo;
    } else {
      MonthlyFromComplete(rs, m + 1, mo);
      var k :| 0 <= k < |rest| && rest[k].month == mo;
      if Observed(rs, m) {
        assert ms[k + 1].month == mo;
      } else {
        assert ms[k].month == mo;
      }
    }
  }

  /** `groupby('Month').mean()`: one entry per observed month, in month order,
      holding that month's average. */
  function MonthlyAverages(rs: seq<SalesRecord>): (ms: seq<MonthlyMean>)
    ensures forall k :: 0 <= k < |ms| ==>
      Observed(rs, ms[k].month) && ms[k].mean == MonthAverage(rs, ms[k].month)
    ensures MonthOrdered(ms)
    ensures forall mo: Month :: Observed(rs, mo) ==> exists k :: 0 <= k < |ms| && ms[k].month == mo
    ensures |rs| > 0 ==> |ms| > 0
  {
    var ms := MonthlyFrom(rs, 1);
    assert forall mo: Month :: Observed(rs, mo) ==> exists k :: 0 <= k < |ms| && ms[k].month == mo
    by {
      forall mo: Month | Observed(rs, mo)
        ensures exists k :: 0 <= k < |ms| && ms[k].month == mo
      {
        MonthlyFromComplete(rs, 1, mo);
      }
    }
    if |rs| > 0 then
      ObservedIff(rs, rs[0].month);
      ms
    else
      ms
  }

  // ---------------------------------------------------------------------
  // The score

  function Means(ms: seq<MonthlyMean>): (v: seq<real>)
    ensures |v| == |ms|
    ensures forall k :: 0 <= k < |ms| ==> v[k] == ms[k].mean
  {
    seq(|ms|, k requires 0 <= k < |ms| => ms[k].mean)
  }

  /** `monthly_avg.max()` */
  function MaxMean(ms: seq<MonthlyMean>): (r: real)
    requires |ms| > 0
    ensures forall k :: 0 <= k < |ms| ==> ms[k].mean <= r
    ensures exists k :: 0 <= k < |ms| && ms[k].mean == r
  {
    if |ms| == 1 then
      ms[0].mean
    else
      var rest := MaxMean(ms[1..]);
      assert forall k :: 1 <= k < |ms| ==> ms[k] == ms[1..][k - 1];
      if ms[0].mean >= rest then ms[0].mean else rest
  }

  /** `monthly_avg.min()` */
  function MinMean(ms: seq<MonthlyMean>): (r: real)
    requires |ms| > 0
    ensures forall k :: 0 <= k < |ms| ==> r <= ms[k].mean
    ensures exists k :: 0 <= k < |ms| && ms[k].mean == r
  {
    if |ms| == 1 then
      ms[0].mean
    else
      var rest := MinMean(ms[1..]);
      assert forall k :: 1 <= k < |ms| ==> ms[k] == ms[1..][k - 1];
      if ms[0].mean <= rest then ms[0].mean else rest
  }

  /** `monthly_avg.mean()`: every observed month weighs the same. */
  function MeanOfMeans(ms: seq<MonthlyMean>): (r: real)
    requires |ms| > 0
    ensures MinMean(ms) <= r <= MaxMean(ms)
  {
    MeanBounds(Means(ms), MinMean(ms), MaxMean(ms));
    Mean(Means(ms))
  }

  /** (max − min) / mean of the monthly averages: zero exactly when the
      averages do not vary, and never negative for a positive mean. */
  function Score(ms: seq<MonthlyMean>): (r: real)
    requires |ms| > 0 && MeanOfMeans(ms) != 0.0
    ensures r == 0.0 <==> MaxMean(ms) == MinMean(ms)
    ensures MeanOfMeans(ms) > 0.0 ==> r >= 0.0
  {
    var spread, mean := MaxMean(ms) - MinMean(ms), MeanOfMeans(ms);
    QuotientZero(spread, mean);
    assert mean > 0.0 ==> spread / mean >= 0.0 by {
      if mean > 0.0 {
        QuotientNonNegative(spread, mean);
      }
    }
    spread / mean
  }

  // ---------------------------------------------------------------------
  // Peak and low months

  /** Ranking keys: the highest average first, or the lowest first. */
  function HighFirst(e: MonthlyMean): real { -e.mean }
  function LowFirst(e: MonthlyMean): real { e.mean }
  function MonthTag(e: MonthlyMean): int { e.month }

  /** a ranks ahead of b: a better key, or the same key and an earlier month. */
  predicate RanksBefore(key: MonthlyMean -> real, a: MonthlyMean, b: MonthlyMean)
  {
    key(a) < key(b) || (key(a) == key(b) && a.month < b.month)
  }

  /** Months strictly increase along ms, as in the index of a groupby. */
  predicate MonthOrdered(ms: seq<MonthlyMean>)
  {
    forall j, k :: 0 <= j < k < |ms| ==> ms[j].month < ms[k].month
  }

  /** The first three entries (or all, if fewer) of the ranking by key: they
      come from ms, in ranking order, and every entry left out ranks behind
      all of them. */
  function Leading(ms: seq<MonthlyMean>, key: MonthlyMean -> real): (top: seq<MonthlyMean>)
    requires MonthOrdered(ms)
    ensures |top| == if |ms| < 3 then |ms| else 3
    ensures forall k :: 0 <= k < |top| ==> top[k] in ms
    ensures forall j, k :: 0 <= j < k < |top| ==> RanksBefore(key, top[j], top[k])
    ensures forall e, k :: e in ms && e !in top && 0 <= k < |top| ==> RanksBefore(key, top[k], e)
    ensures |top| == |ms| ==> forall e :: e in ms ==> e in top
  {
    var ranked := Sorting.SortBy(ms, key);
    assert |ranked| == |multiset(ranked)| == |ms|;
    Sorting.SortWithTies(ms, key, MonthTag);
    var n := if |ranked| < 3 then |ranked| else 3;
    PrefixRanked(ms, ranked, n, key);
    ranked[..n]
  }

  function MonthsOf(es: seq<MonthlyMean>): (months: seq<Month>)
    ensures |months| == |es|
    ensures forall k :: 0 <= k < |es| ==> months[k] == es[k].month
  {
    seq(|es|, k requires 0 <= k < |es| => es[k].month)
  }

  /** `monthly_avg.nlargest(3).index` */
  function PeakMonths(ms: seq<MonthlyMean>): (months: seq<Month>)
    requires MonthOrdered(ms)
    ensures |months| == if |ms| < 3 then |ms| else 3
  {
    MonthsOf(Leading(ms, HighFirst))
  }

  /** `monthly_avg.nsmallest(3).index` */
  function LowMonths(ms: seq<MonthlyMean>): (months: seq<Month>)
    requires MonthOrdered(ms)
    ensures |months| == if |ms| < 3 then |ms| else 3
  {
    MonthsOf(Leading(ms, LowFirst))
  }

  // ---------------------------------------------------------------------
  // The tool

  datatype SeasonalityResult = SeasonalityResult(
    score: real,
    isSeasonal: bool,
    peakMonths: seq<Month>,
    lowMonths: seq<Month>)
  {
    /** The seasonal flag agrees with the score. */
    predicate WellFormed()
    {
      isSeasonal == Seasonal(score)
    }
  }

  /** The result for the monthly averages of one product; a zero mean of
      means leaves the score undefined. */
  function Profile(ms: seq<MonthlyMean>): (r: Result<SeasonalityResult, AnalysisError>)
    requires |ms| > 0 && MonthOrdered(ms)
    ensures r.Err? <==> MeanOfMeans(ms) == 0.0
    ensures r.Err? ==> r.error == ZeroMeanDemand
    ensures r.Ok? ==> r.value.WellFormed() && r.value.score == Score(ms)
    ensures r.Ok? ==> |r.value.peakMonths| <= 3 && |r.value.lowMonths| <= 3
  {
    if MeanOfMeans(ms) == 0.0 then
      Err(ZeroMeanDemand)
    else
      var score := Score(ms);
      Ok(SeasonalityResult(score, Seasonal(score), PeakMonths(ms), LowMonths(ms)))
  }

  /** `SeasonalityAnalysisTool._run` for one product of the table. */
  function SeasonalityAnalysis(table: seq<SalesRecord>, product: string): (r: Result<SeasonalityResult, AnalysisError>)
    ensures r == Err(ProductNotFound) <==> forall i :: 0 <= i < |table| ==> table[i].product != product
    ensures r.Ok? ==> r.value.WellFormed()
  {
    var rs := ForProduct(table, product);
    ProductFoundIff(table, product);
    if |rs| == 0 then Err(ProductNotFound) else Profile(MonthlyAverages(rs))
  }

  // ---------------------------------------------------------------------
  // Properties of the ranking

  /** A prefix of a (key, month)-sorted permutation of ms comes from ms, is in
      ranking order, and every entry left out ranks behind all of it. */
  lemma {:induction false} PrefixRanked(ms: seq<MonthlyMean>, ranked: seq<MonthlyMean>, n: nat, key: MonthlyMean -> real)
    requires multiset(ranked) == multiset(ms)
    requires Sorting.SortedWithTies(ranked, key, MonthTag)
    requires n <= |ranked|
    ensures forall k :: 0 <= k < n ==> ranked[..n][k] in ms
    ensures forall j, k :: 0 <= j < k < n ==> RanksBefore(key, ranked[..n][j], ranked[..n][k])
    ensures forall e, k :: e in ms && e !in ranked[..n] && 0 <= k < n ==> RanksBefore(key, ranked[..n][k], e)
    ensures n == |ranked| ==> forall e :: e in ms ==> e in ranked[..n]
  {
    var top := ranked[..n];
    forall k | 0 <= k < n
      ensures top[k] in ms
    {
      assert ranked[k] in multiset(ranked);
    }
    forall j, k | 0 <= j < k < n
      ensures RanksBefore(key, top[j], top[k])
    {
      assert top[j] == ranked[j] && top[k] == ranked[k];
    }
    forall e, k | e in ms && e !in top && 0 <= k < n
      ensures RanksBefore(key, top[k], e)
    {
      assert e in multiset(ranked);
      var i :| 0 <= i < |ranked| && ranked[i] == e;
      assert top[k] == ranked[k];
    }
    if n == |ranked| {
      forall e | e in ms
        ensures e in top
      {
        assert e in multiset(ranked);
        assert top == ranked;
      }
    }
  }

  /** An entry whose month is not among the leading months ranks behind
      each leading entry. */
  lemma {:induction false} UnlistedRanksBehind(ms: seq<MonthlyMean>, key: MonthlyMean -> real, e: MonthlyMean, j: int)
    requires MonthOrdered(ms)
    requires e in ms && e.month !in MonthsOf(Leading(ms, key))
    requires 0 <= j < |Leading(ms, key)|
    ensures RanksBefore(key, Leading(ms, key)[j], e)
  {
    var top := Leading(ms, key);
    var p := MonthsOf(top);
    forall t | 0 <= t < |top|
      ensures top[t] != e
    {
      assert p[t] in p;
    }
  }

  /** `nlargest(3)` order: an earlier peak month has the higher average, or the same average and the earlier month. */
  lemma {:induction false} PeakMonthsOrdered(rs: seq<SalesRecord>, j: int, k: int)
    requires 0 <= j < k < |PeakMonths(MonthlyAverages(rs))|
    ensures Observed(rs, PeakMonths(MonthlyAverages(rs))[j]) && Observed(rs, PeakMonths(MonthlyAverages(rs))[k])
    ensures var (a, b) := (PeakMonths(MonthlyAverages(rs))[j], PeakMonths(MonthlyAverages(rs))[k]);
      MonthAverage(rs, a) > MonthAverage(rs, b) || (MonthAverage(rs, a) == MonthAverage(rs, b) && a < b)
  {
    var ms := MonthlyAverages(rs);
    var top := Leading(ms, HighFirst);
    var i :| 0 <= i < |ms| && ms[i] == top[j];
    var i' :| 0 <= i' < |ms| && ms[i'] == top[k];
    assert RanksBefore(HighFirst, top[j], top[k]);
  }

  /** `nlargest(3)` selection: every peak month beats each observed month left out, by a higher average or, on a tie, an earlier month. */
  lemma {:induction false} PeakMonthsBeatUnlisted(rs: seq<SalesRecord>, j: int, mo: Month)
    requires 0 <= j < |PeakMonths(MonthlyAverages(rs))|
    requires Observed(rs, mo) && mo !in PeakMonths(MonthlyAverages(rs))
    ensures Observed(rs, PeakMonths(MonthlyAverages(rs))[j])
    ensures var a := PeakMonths(MonthlyAverages(rs))[j];
      MonthAverage(rs, a) > MonthAverage(rs, mo) || (MonthAverage(rs, a) == MonthAverage(rs, mo) && a < mo)
  {
    var ms := MonthlyAverages(rs);
    var top := Leading(ms, HighFirst);
    var i :| 0 <= i < |ms| && ms[i] == top[j];
    var i' :| 0 <= i' < |ms| && ms[i'].month == mo;
    UnlistedRanksBehind(ms, HighFirst, ms[i'], j);
  }

  /** `nsmallest(3)` order: an earlier low month has the lower average, or the same average and the earlier month. */
  lemma {:induction false} LowMonthsOrdered(rs: seq<SalesRecord>, j: int, k: int)
    requires 0 <= j < k < |LowMonths(MonthlyAverages(rs))|
    ensures Observed(rs, LowMonths(MonthlyAverages(rs))[j]) && Observed(rs, LowMonths(MonthlyAverages(rs))[k])
    ensures var (a, b) := (LowMonths(MonthlyAverages(rs))[j], LowMonths(MonthlyAverages(rs))[k]);
      MonthAverage(rs, a) < MonthAverage(rs, b) || (MonthAverage(rs, a) == MonthAverage(rs, b) && a < b)
  {
    var ms := MonthlyAverages(rs);
    var top := Leading(ms, LowFirst);
    var i :| 0 <= i < |ms| && ms[i] == top[j];
    var i' :| 0 <= i' < |ms| && ms[i'] == top[k];
    assert RanksBefore(LowFirst, top[j], top[k]);
  }

  /** `nsmallest(3)` selection: every low month beats each observed month left out, by a lower average or, on a tie, an earlier month. */
  lemma {:induction false} LowMonthsBeatUnlisted(rs: seq<SalesRecord>, j: int, mo: Month)
    requires 0 <= j < |LowMonths(MonthlyAverages(rs))|
    requires Observed(rs, mo) && mo !in LowMonths(MonthlyAverages(rs))
    ensures Observed(rs, LowMonths(MonthlyAverages(rs))[j])
    ensures var a := LowMonths(MonthlyAverages(rs))[j];
      MonthAverage(rs, a) < MonthAverage(rs, mo) || (MonthAverage(rs, a) == MonthAverage(rs, mo) && a < mo)
  {
    var ms := MonthlyAverages(rs);
    var top := Leading(ms, LowFirst);
    var i :| 0 <= i < |ms| && ms[i] == top[j];
    var i' :| 0 <= i' < |ms| && ms[i'].month == mo;
    UnlistedRanksBehind(ms, LowFirst, ms[i'], j);
  }

  /** Fewer than three peak months only when every observed month is one. */
  lemma {:induction false} ShortPeakListIsComplete(rs: seq<SalesRecord>, mo: Month)
    requires Observed(rs, mo)
    ensures |PeakMonths(MonthlyAverages(rs))| < 3 ==> mo in PeakMonths(MonthlyAverages(rs))
  {
    var ms := MonthlyAverages(rs);
    var top := Leading(ms, HighFirst);
    if |top| < 3 {
      var i :| 0 <= i < |ms| && ms[i].month == mo;
      assert ms[i] in top;
      var t :| 0 <= t < |top| && top[t] == ms[i];
      assert PeakMonths(ms)[t] == mo;
    }
  }

  /** Fewer than three low months only when every observed month is one. */
  lemma {:induction false} ShortLowListIsComplete(rs: seq<SalesRecord>, mo: Month)
    requires Observed(rs, mo)
    ensures |LowMonths(MonthlyAverages(rs))| < 3 ==> mo in LowMonths(MonthlyAverages(rs))
  {
    var ms := MonthlyAverages(rs);
    var top := Leading(ms, LowFirst);
    if |top| < 3 {
      var i :| 0 <= i < |ms| && ms[i].month == mo;
      assert ms[i] in top;
      var t :| 0 <= t < |top| && top[t] == ms[i];
      assert LowMonths(ms)[t] == mo;
    }
  }

  // ---------------------------------------------------------------------
  // Properties of the score

  /** No negative sales: every row's units are at least zero. */
  predicate NoNegativeSales(rs: seq<SalesRecord>)
  {
    forall i :: 0 <= i < |rs| ==> rs[i].units >= 0.0
  }

  lemma QuotientNonNegative(a: real, b: real)
    requires a >= 0.0 && b > 0.0
    ensures a / b >= 0.0
  {
  }

  lemma QuotientZero(a: real, b: real)
    requires b != 0.0
    ensures a / b == 0.0 <==> a == 0.0
  {
  }

  /** With no negative sales a month's total is zero exactly when every row
      of that month sold nothing. */
  lemma {:induction false} MonthTotalZero(rs: seq<SalesRecord>, m: Month)
    requires NoNegativeSales(rs)
    ensures MonthTotal(rs, m) >= 0.0
    ensures MonthTotal(rs, m) == 0.0 <==> forall i :: 0 <= i < |rs| && rs[i].month == m ==> rs[i].units == 0.0
  {
    if |rs| > 0 {
      assert forall i :: 0 <= i < |rs[1..]| ==> rs[1..][i] == rs[i + 1];
      MonthTotalZero(rs[1..], m);
      if MonthTotal(rs, m) == 0.0 {
        forall i | 0 <= i < |rs| && rs[i].month == m
          ensures rs[i].units == 0.0
        {
          if i > 0 {
            assert rs[i] == rs[1..][i - 1];
          }
        }
      }
    }
  }

  /** With no negative sales every monthly average is at least zero, and it
      is zero exactly when the month's rows sold nothing. */
  lemma {:induction false} MonthAverageZero(rs: seq<SalesRecord>, m: Month)
    requires NoNegativeSales(rs) && Observed(rs, m)
    ensures MonthAverage(rs, m) >= 0.0
    ensures MonthAverage(rs, m) == 0.0 <==> forall i :: 0 <= i < |rs| && rs[i].month == m ==> rs[i].units == 0.0
  {
    MonthTotalZero(rs, m);
    QuotientNonNegative(MonthTotal(rs, m), MonthCount(rs, m) as real);
    QuotientZero(MonthTotal(rs, m), MonthCount(rs, m) as real);
  }

  /** With no negative monthly averages the score is at least zero. */
  lemma {:induction false} ScoreNonNegative(ms: seq<MonthlyMean>)
    requires |ms| > 0 && MeanOfMeans(ms) != 0.0
    requires forall k :: 0 <= k < |ms| ==> ms[k].mean >= 0.0
    ensures Score(ms) >= 0.0
  {
    var k :| 0 <= k < |ms| && ms[k].mean == MinMean(ms);
    assert MeanOfMeans(ms) >= ms[k].mean >= 0.0;
  }

  /** The score is zero exactly when every month has the same average. */
  lemma {:induction false} ScoreZeroIffFlat(ms: seq<MonthlyMean>)
    requires |ms| > 0 && MeanOfMeans(ms) != 0.0
    ensures Score(ms) == 0.0 <==> forall j, k :: 0 <= j < |ms| && 0 <= k < |ms| ==> ms[j].mean == ms[k].mean
  {
    if forall j, k :: 0 <= j < |ms| && 0 <= k < |ms| ==> ms[j].mean == ms[k].mean {
      var j :| 0 <= j < |ms| && ms[j].mean == MaxMean(ms);
      var k :| 0 <= k < |ms| && ms[k].mean == MinMean(ms);
      assert ms[j].mean == ms[k].mean;
    }
  }

  /** With no negative sales the mean of the monthly averages is zero
      exactly when the rows sold nothing at all. */
  lemma {:induction false} ZeroMeanIffNoSales(rs: seq<SalesRecord>)
    requires |rs| > 0 && NoNegativeSales(rs)
    ensures MeanOfMeans(MonthlyAverages(rs)) == 0.0 <==> forall i :: 0 <= i < |rs| ==> rs[i].units == 0.0
  {
    var ms := MonthlyAverages(rs);
    var v := Means(ms);
    forall k | 0 <= k < |ms|
      ensures v[k] >= 0.0
      ensures v[k] == 0.0 <==> forall i :: 0 <= i < |rs| && rs[i].month == ms[k].month ==> rs[i].units == 0.0
    {
      MonthAverageZero(rs, ms[k].month);
    }
    SumZeroOfNonNegative(v);
    QuotientZero(Sum(v), |v| as real);
    if MeanOfMeans(ms) == 0.0 {
      forall i | 0 <= i < |rs|
        ensures rs[i].units == 0.0
      {
        ObservedIff(rs, rs[i].month);
        var k :| 0 <= k < |ms| && ms[k].month == rs[i].month;
        assert v[k] == 0.0;
      }
    }
  }

  /** With no negative sales the score is at least zero. */
  lemma {:induction false} SeasonalityScoreNonNegative(table: seq<SalesRecord>, product: string)
    requires NoNegativeSales(table)
    ensures SeasonalityAnalysis(table, product).Ok? ==> SeasonalityAnalysis(table, product).value.score >= 0.0
  {
    var rs := ForProduct(table, product);
    ProductRowsFromTable(table, product);
    if |rs| > 0 && SeasonalityAnalysis(table, product).Ok? {
      var ms := MonthlyAverages(rs);
      forall k | 0 <= k < |ms|
        ensures ms[k].mean >= 0.0
      {
        MonthAverageZero(rs, ms[k].month);
      }
      ScoreNonNegative(ms);
    }
  }

  /** With no negative sales the score is undefined exactly for a product
      that has rows but sold nothing in any of them. */
  lemma {:induction false} ZeroMeanDemandIff(table: seq<SalesRecord>, product: string)
    requires NoNegativeSales(table)
    ensures SeasonalityAnalysis(table, product) == Err(ZeroMeanDemand) <==>
      (exists i :: 0 <= i < |table| && table[i].product == product) &&
      (forall i :: 0 <= i < |table| && table[i].product == product ==> table[i].units == 0.0)
  {
    var rs := ForProduct(table, product);
    ProductFoundIff(table, product);
    ProductRowsFromTable(table, product);
    if |rs| > 0 {
      ZeroMeanIffNoSales(rs);
      ProductRowsCover(table, product);
    }
  }
}
