# Product sales analytics: seasonality, trend and classification

This project models the three analytics tools of a product-sales analyser in
Dafny. It also proves what they promise. The tools are
`SeasonalityAnalysisTool`, `TrendAnalysisTool` and
`ProductClassificationTool`, all in `tools.py`. Each works on one product's
sales rows:

- **Seasonality** groups the sales by calendar month, pooling years, and takes each month's average.
  - Its score is (max − min) / mean of those averages.
  - The product is seasonal when the score is above 0.3.
  - The three highest months are the peaks, and the three lowest are the lows.
- **Trend** sorts the rows by date and fits ordinary least squares of sales against the period index 0 … n−1.
  - It fits the last twelve periods again, or reuses the overall fit when there are fewer.
  - It reports the percentage change from the first value to the last.
  - It labels the trend's strength from R² and its direction from the slope.
- **Classification** recomputes the slope, R² and seasonality score itself. It then runs a seven-rule decision tree where the first rule that matches wins. The result is a category, a confidence and an insight text.

Numbers are Dafny `real`s, i.e. exact rationals. The sklearn regression is
replaced by its closed form:

- slope = Σ(x−x̄)(y−ȳ) / Σ(x−x̄)²
- intercept = ȳ − slope·x̄
- R² = 1 − SS_res / SS_tot

The tools' catch-all "error as return string" handlers become a typed
`Result` with two errors:

- `ProductNotFound`: no row names the product.
- `ZeroMeanDemand`: the mean of the monthly averages is zero.

Modules, one per file:

| file | module | content |
|---|---|---|
| `results.dfy` | `Results` | the `Result` type |
| `stats.dfy` | `Stats` | sums, means, inner products and their algebra |
| `sorting.dfy` | `Sorting` | stable insertion sort by a real key; order with tie-breaking |
| `sales.dfy` | `Sales` | sales rows, the product filter, the date sort |
| `regression.dfy` | `Regression` | least squares against the period index |
| `seasonality.dfy` | `Seasonality` | monthly averages, score, peak and low months |
| `trend.dfy` | `Trend` | overall and recent fit, percentage change, labels |
| `classification.dfy` | `Classification` | the decision tree and the classification tool |
| `analysis.dfy` | `Analysis` | the tools side by side; the classification tool agrees with the other two |

Modelling choices:

- A sales row is `SalesRecord(product, date, month, units)`.
  - `date` is an integer ordering key.
  - `month` is the calendar month, 1 … 12, already taken from the date.
- The date sort is a stable insertion sort. pandas' default sort is not stable, so rows with equal dates may come out in a different order in the source.
- `nlargest(3)` and `nsmallest(3)` are modelled by ranking the monthly averages with that same sort. Because the averages are in month order, a tie goes to the earlier month. That is pandas' `keep='first'`.
- For one row, the fit is slope 0 and R² 0. sklearn gives R² NaN there.
- A constant series of two or more rows is fitted exactly, with R² 1. That is sklearn's convention for a perfect fit of a series with no variance.
- The source computes the seasonality score by dividing by the mean of the monthly averages (tools.py:43). The model returns `ZeroMeanDemand` whenever that mean is zero.
  - With no negative sales, a zero mean means every monthly average is zero. The source then gets 0/0, which is NaN, and no error. The seasonality tool reports "not seasonal", and the classification tool goes on with `is_seasonal` false.
  - `Seasonality.ZeroMeanDemandIff` shows that, with no negative sales, this happens exactly for a product that has rows and sold nothing in any of them.
  - With negative sales the mean can be zero while the averages differ. That case is listed under "Left out".
- The evergreen confidence is `0.8 − score` with no clamp (tools.py:219). `Classification.ConfidenceBounds` shows it never drops below 0.5: when the seasonal flag agrees with a non-negative score, the evergreen confidence lies in [0.5, 0.8].

## Model

| member | source | states |
|---|---|---|
| Sales.ForProduct | tools.py:32 | the product's rows are exactly the table's rows naming it, each as often as in the table |
| Sales.ProductFoundIff | tools.py:32 | the filter is non-empty iff some table row names the product |
| Sales.ProductRowsFromTable | tools.py:91 | every filtered row is a table row naming the product |
| Sales.ProductRowsCover | tools.py:184 | every table row naming the product is among the filtered rows |
| Sales.SameProductRows | tools.py:91 | tables holding the same rows, in any order, give a product the same rows |
| Sales.SortByDateUnique | tools.py:93 | when no two rows share a date, every arrangement of the rows in ascending date order is the date sort |
| Sales.SortByDate | tools.py:93 | the sort is a permutation of the rows with dates non-decreasing |
| Sorting.SortBy | tools.py:186 | the sort by key is a permutation ordered by key |
| Sorting.SortedUnique | tools.py:93 | two key-ordered arrangements of the same elements are equal when different elements never share a key |
| Sorting.SortWithTies | tools.py:46-47 | when the input is in strictly increasing tag order, the sort orders by key and then by tag, so ties keep the earlier tag |
| Seasonality.ObservedIff | tools.py:37 | a month has a group iff some row falls in it |
| Seasonality.MonthlyAverages | tools.py:37 | one entry per observed month, in month order, each holding that month's average; every observed month appears; non-empty for non-empty rows |
| Seasonality.MonthlyFromComplete | tools.py:37 | every observed month from m on has an entry |
| Seasonality.MonthAverage | tools.py:37 | a month's total over its number of rows; `MonthAverageZero` and `MonthlyAverages` state its properties |
| Seasonality.MaxMean | tools.py:41 | the maximum bounds every monthly average and is one of them |
| Seasonality.MinMean | tools.py:42 | the minimum is below every monthly average and is one of them |
| Seasonality.MeanOfMeans | tools.py:43 | the mean of the monthly averages lies between the least and the greatest of them |
| Seasonality.Score | tools.py:43 | the score is 0 iff the greatest and the least monthly average are equal, and it is ≥ 0 when the mean is positive; `ScoreNonNegative` and `ScoreZeroIffFlat` state it for the averages themselves |
| Seasonality.Leading | tools.py:46-47 | up to three entries of the averages, in ranking order with ties to the earlier month; every entry left out ranks behind all of them; all entries are kept when there are fewer than three |
| Seasonality.PeakMonths | tools.py:46 | three peak months, or every observed month when there are fewer; `PeakMonthsOrdered`, `PeakMonthsBeatUnlisted` and `ShortPeakListIsComplete` state which months they are |
| Seasonality.LowMonths | tools.py:47 | three low months, or every observed month when there are fewer; `LowMonthsOrdered`, `LowMonthsBeatUnlisted` and `ShortLowListIsComplete` state which months they are |
| Seasonality.Profile | tools.py:41-50 | the result is an error iff the mean of the averages is zero; otherwise is_seasonal == score > 0.3, and the peak and low lists each have at most three months |
| Seasonality.SeasonalityAnalysis | tools.py:32-50 | ProductNotFound iff no row names the product; a successful result has is_seasonal == score > 0.3 |
| Seasonality.PeakMonthsOrdered | tools.py:46 | peak months are observed and listed by descending average, with ties in ascending month order |
| Seasonality.PeakMonthsBeatUnlisted | tools.py:46 | every peak month's average is at least that of each observed month not listed, and wins a tie by being earlier |
| Seasonality.LowMonthsOrdered | tools.py:47 | low months are observed and listed by ascending average, with ties in ascending month order |
| Seasonality.LowMonthsBeatUnlisted | tools.py:47 | every low month's average is at most that of each observed month not listed, and wins a tie by being earlier |
| Seasonality.ShortPeakListIsComplete | tools.py:46 | fewer than three peak months only when every observed month is listed |
| Seasonality.ShortLowListIsComplete | tools.py:47 | fewer than three low months only when every observed month is listed |
| Seasonality.MonthTotalZero | tools.py:37 | with no negative sales, a month's total is ≥ 0, and it is 0 iff every row of that month sold nothing |
| Seasonality.MonthAverageZero | tools.py:37 | with no negative sales, a month's average is ≥ 0, and it is 0 iff every row of that month sold nothing |
| Seasonality.ScoreNonNegative | tools.py:43 | when no monthly average is negative, the score is ≥ 0 |
| Seasonality.ScoreZeroIffFlat | tools.py:43 | the score is 0 iff all monthly averages are equal |
| Seasonality.ZeroMeanIffNoSales | tools.py:43 | with no negative sales, the mean of the monthly averages is 0 iff every row sold nothing |
| Seasonality.SeasonalityScoreNonNegative | tools.py:37-43 | with no negative sales in the table, a reported score is ≥ 0 |
| Seasonality.ZeroMeanDemandIff | tools.py:43 | with no negative sales, ZeroMeanDemand iff the product has rows and all of them sold nothing |
| Regression.PeriodsSpread | tools.py:96 | the regressor 0, 1, …, n−1 (`Periods`) has mean (n−1)/2 and spread (n³−n)/12, so two or more periods have positive spread and the fit is determined |
| Regression.Slope | tools.py:101-103 | Σ(x−x̄)(y−ȳ) / Σ(x−x̄)²; that it is the least-squares slope is stated by `ResidualsOrthogonal` and `LeastSquares` |
| Regression.Intercept | tools.py:101 | ȳ − slope·x̄; that it is the least-squares intercept is stated by `ResidualsSumToZero` and `LeastSquares` |
| Regression.RSquared | tools.py:104 | R² of the least-squares line lies in [0, 1] |
| Regression.FitLine | tools.py:100-104 | R² lies in [0, 1]; a single point has slope 0 and R² 0 |
| Regression.ResidualSplit | tools.py:104 | SS_res = SS_tot − slope²·spread, and 0 ≤ SS_res ≤ SS_tot |
| Regression.ResidualsSumToZero | tools.py:100-101 | the least-squares residuals sum to zero |
| Regression.ResidualsOrthogonal | tools.py:100-101 | the least-squares residuals are orthogonal to the regressor |
| Regression.LeastSquares | tools.py:100-103 | no line a + b·x has a smaller residual sum of squares than the fitted one |
| Regression.LinearSeriesFit | tools.py:96-104 | a series on the line a + b·i with n ≥ 2 is fitted with slope b, intercept a and R² 1 |
| Regression.LineRecovered | tools.py:100-104 | least squares recovers any exact line over a regressor with positive spread |
| Trend.StrengthOf | tools.py:126-131 | strong iff R² > 0.7, moderate iff 0.4 < R² ≤ 0.7, weak iff R² ≤ 0.4 |
| Trend.DirectionOf | tools.py:134-139 | rising iff slope > 0.5, declining iff slope < −0.5, stable iff −0.5 ≤ slope ≤ 0.5 |
| Trend.StrengthMonotone | tools.py:126-131 | a larger R² never gets a weaker strength label |
| Trend.DirectionMirror | tools.py:134-139 | negating the slope swaps rising and declining and keeps stable |
| Trend.PercentChange | tools.py:107-109 | for a positive first value, first·(1 + pct/100) = last and pct has the sign of last − first; otherwise pct is 0 |
| Trend.RecentPart | tools.py:112-113 | the last twelve values in order, or all of them when there are fewer |
| Trend.TrendOfSeries | tools.py:96-139 | both R² values lie in [0, 1]; the labels follow the thresholds; with fewer than twelve values the recent figures equal the overall ones; one value gives slope 0, R² 0 and no change |
| Trend.TrendOfDateOrder | tools.py:91-109 | when no two of the product's rows share a date, the tool's result is the analysis of any date-ordered arrangement of those rows |
| Trend.TrendIgnoresTableOrder | tools.py:91-109 | when no two of the product's rows share a date, reordering the table does not change the tool's result |
| Trend.RecentIsLastTwelve | tools.py:112-120 | with twelve or more values, the recent figures are the overall figures of the last twelve values, re-indexed from 0 |
| Trend.RecentPartOfLine | tools.py:113-115 | the last twelve values of a line form a line with the same slope |
| Trend.LinearTrend | tools.py:96-139 | an exact line with n ≥ 2 has its slope overall and recently, R² 1, strong strength, and the direction of its slope |
| Trend.SteadyGrowthExample | tools.py:96-109 | 10, 20, 30, 40, 50 gives slope 10, R² 1, strong, rising, +400% |
| Trend.ZeroStartExample | tools.py:109 | 0, 5, 10 gives a change of 0 |
| Trend.TrendAnalysis | tools.py:91-104 | an error iff no row names the product, and then ProductNotFound; otherwise R² lies in [0, 1] and the strength follows it |
| Classification.Decide | tools.py:205-232 | the chosen category's rule matches, and no earlier rule does |
| Classification.FirstMatch | tools.py:205-232 | the rule found is in the list and matches; none is found iff no rule of the list matches |
| Classification.FirstMatchAt | tools.py:205-232 | a rule that matches, when no earlier rule does, is the one found |
| Classification.DecideIsTable | tools.py:205-232 | the chain of conditionals equals the ordered rule table, and the confidence is the chosen rule's formula |
| Classification.DecideIsFirstMatch | tools.py:205-232 | a category is chosen iff its rule matches and no earlier rule does |
| Classification.SignalsOf | tools.py:201-202 | the signals' flag agrees with their score iff the seasonality result's flag agrees with its score |
| Classification.Classify | tools.py:205-232 | when the flag agrees with a score ≥ 0, the confidence lies in (0.3, 0.95]; `Analysis.ClassificationAgrees` shows the tool computes it |
| Classification.Insight | tools.py:208-232 | the advice text of each category, word for word; no property is stated about it |
| Classification.FlatSeasonalIsHero | tools.py:213-216 | seasonal with abs(slope) < 0.3 is always a seasonal hero, whatever R² is |
| Classification.FlatSteadyIsEvergreen | tools.py:217-220 | not seasonal with abs(slope) < 0.3 is always evergreen, whatever R² is |
| Classification.LateCategoriesNeedSlope | tools.py:221-232 | random/erratic, declining seasonal and stable need abs(slope) ≥ 0.3; declining seasonal needs slope ≤ −0.3 and a trend that is not a fading one |
| Classification.AgreesWithTrendLabels | tools.py:205-220 | a rising star has a rising direction and at least moderate strength; fading out is declining and at least moderate; heroes and evergreens have a stable direction |
| Classification.ConfidenceBounds | tools.py:205-232 | when the flag agrees with a score ≥ 0, every confidence lies in (0.3, 0.95], and an evergreen's lies in [0.5, 0.8] |
| Classification.EveryCategoryReachable | tools.py:205-232 | every one of the seven categories is chosen for some consistent signals |
| Classification.RisingStarExample | tools.py:205-208 | slope 4.2 with R² 0.78 is a rising star with confidence 0.95 |
| Classification.ProductClassification | tools.py:184-232 | ProductNotFound iff no row names the product |
| Analysis.Analyze | tools.py:184-202 | the reports' classification is the decision on their signals; the seasonality report is well formed; ProductNotFound iff no row names the product |
| Analysis.InsertKeepsTallies | tools.py:186 | inserting a row adds its contribution to its month's total and count |
| Analysis.SortKeepsTallies | tools.py:186 | sorting keeps every month's total and count |
| Analysis.SameTalliesSameAverages | tools.py:198 | rows with the same monthly totals and counts have the same monthly averages |
| Analysis.DateSortKeepsAverages | tools.py:186-198 | the monthly averages of the date-sorted rows equal those of the rows in table order |
| Analysis.ClassificationAgrees | tools.py:184-232 | the classification tool returns the classification of the seasonality and trend reports, and fails exactly when they fail, with the same error |
| Analysis.ConfidenceInRange | tools.py:205-232 | with no negative sales in the table, every confidence the classification tool reports lies in (0.3, 0.95] |

## Left out

- CSV loading (`pd.read_csv`) and date parsing. Rows arrive with a date key and a month already extracted.
- Column-name aliases (tools.py:28-29, 87-88, 180-181). These are a choice of input column, made before any of the modelled logic.
- Report text (tools.py:52-66, 141-159, 234-252): the f-string formatting, emoji labels and the trend tool's closing sentence. The classification insights are kept, as `Classification.Insight`. No lemma states that the seven insights differ.
- `seasonal_strength`, the standard deviation over the mean (tools.py:40). It needs a square root and appears only in the report text.
- Floating point. All arithmetic is exact over the rationals, so rounding and NaN are not modelled.
- The NaN results of the source become typed errors:
  - an empty product gets `ProductNotFound`, where the source produces a NaN seasonality report and a regression exception;
  - a zero mean of monthly averages gets `ZeroMeanDemand`. Where every average is zero, the source produces a NaN score.
- A zero mean of monthly averages with averages that differ, which needs negative sales. numpy then divides a non-zero spread by zero and gets +inf (tools.py:43). The source's seasonality tool reports it as seasonal (tools.py:50). Its classification tool takes the seasonal rules, where `min(0.9, inf)` gives a seasonal hero a confidence of 0.9. The model returns `ZeroMeanDemand` for every zero mean, since exact rationals have no infinity.
- Regression.FitLine: one point is given slope 0 and R² 0, where sklearn leaves R² undefined (NaN). A series with no variance is given R² 1.
- Sales.SortByDate: rows with equal dates keep their table order. pandas' default quicksort does not promise that. Only the trend tool's figures depend on this order: the fit and the first and last values of the percentage change. The monthly averages do not, as `Analysis.DateSortKeepsAverages` shows. When no two rows of the product share a date the order is fully determined, as `Trend.TrendIgnoresTableOrder` shows.
- The other files of the repository are not part of this model: the Streamlit interface, the CrewAI agent, task and crew set-up, the demo script and the duplicate entry point. They are user interface, orchestration of a language-model framework, and random sample data.
