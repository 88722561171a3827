/** The decision tree of `ProductClassificationTool._run`: seven categories
    chosen by the first rule that matches the trend and seasonality signals,
    each with its confidence and insight. */
module Classification {
  import opened Results
  import opened Sales
  import Seasonality
  import Trend
  import Regression

  datatype Category =
    | RisingStar
    | FadingOut
    | SeasonalHero
    | Evergreen
    | RandomErratic
    | DecliningSeasonal
    | Stable

  /** The category and its confidence; the insight shown is `Insight(category)`. */
  datatype Classification = Classification(category: Category, confidence: real)

  /** The inputs of the decision: the seasonal flag and score of the monthly
      averages, and the slope and R² of the trend. */
  datatype Signals = Signals(isSeasonal: bool, score: real, slope: real, rSquared: real)
  {
    /** The seasonal flag agrees with the score, as both come from one
        computation. */
    predicate Consistent()
    {
      isSeasonal == Seasonality.Seasonal(score)
    }
  }

  function Abs(x: real): real
  {
    if x < 0.0 then -x else x
  }

  function Min(a: real, b: real): real
  {
    if a <= b then a else b
  }

  /** The order in which the rules are tried. */
  function Rank(c: Category): nat
  {
    match c
    case RisingStar => 0
    case FadingOut => 1
    case SeasonalHero => 2
    case Evergreen => 3
    case RandomErratic => 4
    case DecliningSeasonal => 5
    case Stable => 6
  }

  /** The condition of each rule, on its own. */
  predicate Matches(c: Category, s: Signals)
  {
    match c
    case RisingStar => s.slope > 0.5 && s.rSquared > 0.5
    case FadingOut => s.slope < -0.5 && s.rSquared > 0.5
    case SeasonalHero => s.isSeasonal && Abs(s.slope) < 0.3
    case Evergreen => !s.isSeasonal && Abs(s.slope) < 0.3
    case RandomErratic => s.rSquared < 0.3 && !s.isSeasonal
    case DecliningSeasonal => s.isSeasonal && s.slope < -0.2
    case Stable => true
  }

  /** The advice shown with each category. */
  function Insight(c: Category): string
  {
    match c
    case RisingStar => "Strong upward trend! Consider increasing marketing investment and inventory."
    case FadingOut => "Declining trend detected. Consider product refresh or discontinuation."
    case SeasonalHero => "Strong seasonal patterns! Plan inventory around peak months."
    case Evergreen => "Reliable, consistent performer. Great for steady revenue."
    case RandomErratic => "Unpredictable patterns. Investigate external factors affecting sales."
    case DecliningSeasonal => "Seasonal product losing steam. May need repositioning."
    case Stable => "Steady performance with no major trends."
  }

  /** The classification: the first rule whose condition holds picks the
      category, and its confidence formula comes with it. */
  function Decide(s: Signals): (r: Classification)
    ensures Matches(r.category, s)
    ensures forall c :: Rank(c) < Rank(r.category) ==> !Matches(c, s)
  {
    if s.slope > 0.5 && s.rSquared > 0.5 then
      Classification(RisingStar, Min(0.95, s.rSquared + s.slope / 2.0))
    else if s.slope < -0.5 && s.rSquared > 0.5 then
      Classification(FadingOut, Min(0.95, s.rSquared + Abs(s.slope) / 2.0))
    else if s.isSeasonal && Abs(s.slope) < 0.3 then
      Classification(SeasonalHero, Min(0.9, s.score))
    else if !s.isSeasonal && Abs(s.slope) < 0.3 then
      Classification(Evergreen, 0.8 - s.score)
    else if s.rSquared < 0.3 && !s.isSeasonal then
      Classification(RandomErratic, 0.6)
    else if s.isSeasonal && s.slope < -0.2 then
      Classification(DecliningSeasonal, Min(0.85, s.score + Abs(s.slope) / 3.0))
    else
      Classification(Stable, 0.5)
  }

  /** The signals the tool derives from a seasonality and a trend result. */
  function SignalsOf(season: Seasonality.SeasonalityResult, trend: Trend.TrendResult): (s: Signals)
    ensures s.Consistent() <==> season.WellFormed()
  {
    Signals(season.isSeasonal, season.score, trend.slope, trend.rSquared)
  }

  /** The classification of a seasonality and a trend result. A result whose
      flag agrees with a non-negative score gets a confidence in (0.3, 0.95]. */
  function Classify(season: Seasonality.SeasonalityResult, trend: Trend.TrendResult): (r: Classification)
    ensures season.WellFormed() && season.score >= 0.0 ==> 0.3 < r.confidence <= 0.95
  {
    var s := SignalsOf(season, trend);
    assert season.WellFormed() && season.score >= 0.0 ==> 0.3 < Decide(s).confidence <= 0.95 by {
      if season.WellFormed() && season.score >= 0.0 {
        ConfidenceBounds(s);
      }
    }
    Decide(s)
  }

  // ---------------------------------------------------------------------
  // The decision tree as a rule table

  /** The rules in the order they are tried. */
  const Rules: seq<Category> :=
    [RisingStar, FadingOut, SeasonalHero, Evergreen, RandomErratic, DecliningSeasonal, Stable]

  /** Each category's confidence formula. */
  function ConfidenceOf(c: Category, s: Signals): real
  {
    match c
    case RisingStar => Min(0.95, s.rSquared + s.slope / 2.0)
    case FadingOut => Min(0.95, s.rSquared + Abs(s.slope) / 2.0)
    case SeasonalHero => Min(0.9, s.score)
    case Evergreen => 0.8 - s.score
    case RandomErratic => 0.6
    case DecliningSeasonal => Min(0.85, s.score + Abs(s.slope) / 3.0)
    case Stable => 0.5
  }

  /** The first rule of the list whose condition holds, or none. */
  function FirstMatch(rules: seq<Category>, s: Signals): (r: Result<Category, Signals>)
    ensures r.Ok? ==> r.value in rules && Matches(r.value, s)
    ensures r.Err? <==> forall k :: 0 <= k < |rules| ==> !Matches(rules[k], s)
  {
    if |rules| == 0 then Err(s)
    else if Matches(rules[0], s) then Ok(rules[0])
    else
      var r := FirstMatch(rules[1..], s);
      assert forall k :: 1 <= k < |rules| ==> rules[k] == rules[1..][k - 1];
      r
  }

  /** The decision tree read off the rule table. */
  function TableDecision(s: Signals): Classification
  {
    match FirstMatch(Rules, s)
    case Ok(c) => Classification(c, ConfidenceOf(c, s))
    case Err(_) => Classification(Stable, ConfidenceOf(Stable, s))
  }

  /** A rule that matches after no earlier one did is the one found. */
  lemma {:induction false} FirstMatchAt(rules: seq<Category>, s: Signals, i: int)
    requires 0 <= i < |rules| && Matches(rules[i], s)
    requires forall k :: 0 <= k < i ==> !Matches(rules[k], s)
    ensures FirstMatch(rules, s) == Ok(rules[i])
  {
    if i > 0 {
      FirstMatchAt(rules[1..], s, i - 1);
    }
  }

  /** The chain of conditionals is the rule table read in order, with each
      rule's confidence formula. */
  lemma {:induction false} DecideIsTable(s: Signals)
    ensures Decide(s) == TableDecision(s)
    ensures Decide(s).confidence == ConfidenceOf(Decide(s).category, s)
  {
    var c := Decide(s).category;
    assert forall k :: 0 <= k < |Rules| ==> Rank(Rules[k]) == k;
    FirstMatchAt(Rules, s, Rank(c));
  }

  // ---------------------------------------------------------------------
  // Properties of the decision tree

  /** Each category is chosen exactly when its rule matches and no earlier
      rule does. */
  lemma DecideIsFirstMatch(s: Signals, c: Category)
    ensures Decide(s).category == c <==> Matches(c, s) && forall c' :: Rank(c') < Rank(c) ==> !Matches(c', s)
  {
    var d := Decide(s).category;
    if d != c && Matches(c, s) {
      assert Rank(c) != Rank(d);
    }
  }

  /** A flat seasonal product is a seasonal hero, whatever its R². */
  lemma FlatSeasonalIsHero(s: Signals)
    requires s.isSeasonal && Abs(s.slope) < 0.3
    ensures Decide(s).category == SeasonalHero
  {
  }

  /** A flat product that is not seasonal is evergreen, whatever its R². */
  lemma FlatSteadyIsEvergreen(s: Signals)
    requires !s.isSeasonal && Abs(s.slope) < 0.3
    ensures Decide(s).category == Evergreen
  {
  }

  /** The last three categories are reached only with a slope of magnitude
      at least 0.3; the declining-seasonal one only with a slope of at most
      −0.3 that was not steep and well fitted enough to be fading out. */
  lemma LateCategoriesNeedSlope(s: Signals)
    ensures Rank(Decide(s).category) >= Rank(RandomErratic) ==> Abs(s.slope) >= 0.3
    ensures Decide(s).category == DecliningSeasonal ==>
      s.isSeasonal && s.slope <= -0.3 && (s.slope >= -0.5 || s.rSquared <= 0.5)
  {
  }

  /** Rising stars and fading products carry the trend's direction and at
      least a moderate trend strength; seasonal heroes and evergreens have a
      stable trend direction. */
  lemma AgreesWithTrendLabels(s: Signals)
    ensures Decide(s).category == RisingStar ==>
      Trend.DirectionOf(s.slope) == Trend.Rising && Trend.StrengthOf(s.rSquared) != Trend.Weak
    ensures Decide(s).category == FadingOut ==>
      Trend.DirectionOf(s.slope) == Trend.Declining && Trend.StrengthOf(s.rSquared) != Trend.Weak
    ensures Decide(s).category in {SeasonalHero, Evergreen} ==> Trend.DirectionOf(s.slope) == Trend.Stable
  {
  }

  /** With a consistent seasonal flag and a score of at least zero, every
      confidence lies in (0.3, 0.95]; in particular the evergreen confidence
      0.8 − score is at least 0.5 without clamping. */
  lemma ConfidenceBounds(s: Signals)
    requires s.Consistent() && s.score >= 0.0
    ensures 0.3 < Decide(s).confidence <= 0.95
    ensures Decide(s).category == Evergreen ==> 0.5 <= Decide(s).confidence <= 0.8
  {
  }

  /** Every category is chosen for some consistent signals. */
  lemma EveryCategoryReachable(c: Category)
    ensures exists s: Signals :: s.Consistent() && Decide(s).category == c
  {
    var s := match c
      case RisingStar => Signals(false, 0.0, 1.0, 0.9)
      case FadingOut => Signals(false, 0.0, -1.0, 0.9)
      case SeasonalHero => Signals(true, 0.5, 0.0, 0.0)
      case Evergreen => Signals(false, 0.1, 0.0, 0.0)
      case RandomErratic => Signals(false, 0.1, 1.0, 0.1)
      case DecliningSeasonal => Signals(true, 0.5, -0.4, 0.0)
      case Stable => Signals(false, 0.1, 1.0, 0.4);
    assert s.Consistent() && Decide(s).category == c;
  }

  /** A slope of 4.2 with R² 0.78 is a rising star at the 0.95 cap. */
  lemma RisingStarExample()
    ensures Decide(Signals(false, 0.1, 4.2, 0.78)) == Classification(RisingStar, 0.95)
  {
  }

  // ---------------------------------------------------------------------
  // The tool

  /** `ProductClassificationTool._run` for one product of the table, as the
      tool computes it: its own date sort, least-squares fit and monthly
      averages, then the decision tree. */
  function ProductClassification(table: seq<SalesRecord>, product: string): (r: Result<Classification, AnalysisError>)
    ensures r == Err(ProductNotFound) <==> forall i :: 0 <= i < |table| ==> table[i].product != product
  {
    var rs := ForProduct(table, product);
    ProductFoundIff(table, product);
    if |rs| == 0 then
      Err(ProductNotFound)
    else
      var sorted := SortByDate(rs);
      assert |sorted| == |multiset(sorted)| == |rs|;
      var fit := Regression.FitLine(Units(sorted));
      var months := Seasonality.MonthlyAverages(sorted);
      if Seasonality.MeanOfMeans(months) == 0.0 then
        Err(ZeroMeanDemand)
      else
        var score := Seasonality.Score(months);
        Ok(Decide(Signals(Seasonality.Seasonal(score), score, fit.slope, fit.rSquared)))
  }
}
