/** The sales table as the tools see it after loading: one record per
    reporting period, with the calendar month and a date ordering key
    already extracted from the `Date` column. */
module Sales {
  import Sorting

  /** A calendar month, as pandas' `dt.month` yields it. */
  type Month = m: int | 1 <= m <= 12 witness 1

  /** One row of the table. `date` orders rows in time (for example, days
      since an epoch); `month` is the calendar month of that date. */
  datatype SalesRecord = SalesRecord(product: string, date: int, month: Month, units: real)

  /** The typed failures that replace the tools' "Error in ..." strings. */
  datatype AnalysisError =
    | ProductNotFound   // no row names the product
    | ZeroMeanDemand    // the mean of the monthly means is zero

  /** The rows of one product, in table order: `data[data[product_col] == product_name]`. */
  function ForProduct(table: seq<SalesRecord>, product: string): (rs: seq<SalesRecord>)
    ensures forall r :: multiset(rs)[r] == if r.product == product then multiset(table)[r] else 0
    ensures |rs| <= |table|
  {
    if |table| == 0 then
      []
    else
      assert table == [table[0]] + table[1..];
      (if table[0].product == product then [table[0]] else []) + ForProduct(table[1..], product)
  }

  /** A product is found exactly when some row of the table names it. */
  lemma ProductFoundIff(table: seq<SalesRecord>, product: string)
    ensures |ForProduct(table, product)| > 0 <==> exists i :: 0 <= i < |table| && table[i].product == product
  {
    var rs := ForProduct(table, product);
    if |rs| > 0 {
      assert rs[0] in multiset(rs);
      assert rs[0] in multiset(table);
    }
    if i :| 0 <= i < |table| && table[i].product == product {
      assert table[i] in multiset(table);
      assert table[i] in multiset(rs);
    }
  }

  /** Every row of the product comes from the table and names the product. */
  lemma ProductRowsFromTable(table: seq<SalesRecord>, product: string)
    ensures forall i :: 0 <= i < |ForProduct(table, product)| ==>
      ForProduct(table, product)[i] in table && ForProduct(table, product)[i].product == product
  {
    var rs := ForProduct(table, product);
    forall i | 0 <= i < |rs|
      ensures rs[i] in table && rs[i].product == product
    {
      assert rs[i] in multiset(rs);
      assert rs[i] in multiset(table);
    }
  }

  /** Every row of the table that names the product is among its rows. */
  lemma ProductRowsCover(table: seq<SalesRecord>, product: string)
    ensures forall i :: 0 <= i < |table| && table[i].product == product ==>
      table[i] in ForProduct(table, product)
  {
    var rs := ForProduct(table, product);
    forall i | 0 <= i < |table| && table[i].product == product
      ensures table[i] in rs
    {
      assert table[i] in multiset(table);
      assert table[i] in multiset(rs);
    }
  }

  /** Tables holding the same rows give a product the same rows. */
  lemma SameProductRows(table: seq<SalesRecord>, table': seq<SalesRecord>, product: string)
    requires multiset(table) == multiset(table')
    ensures multiset(ForProduct(table, product)) == multiset(ForProduct(table', product))
  {
    var rs, rs' := ForProduct(table, product), ForProduct(table', product);
    forall r
      ensures multiset(rs)[r] == multiset(rs')[r]
    {
    }
  }

  /** The sales column of the rows, in order. */
  function Units(rs: seq<SalesRecord>): (y: seq<real>)
    ensures |y| == |rs|
    ensures forall i :: 0 <= i < |rs| ==> y[i] == rs[i].units
  {
    seq(|rs|, i requires 0 <= i < |rs| => rs[i].units)
  }

  function DateKey(r: SalesRecord): real
  {
    r.date as real
  }

  /** `sort_values('Date')`: the same rows, in ascending date order. */
  function SortByDate(rs: seq<SalesRecord>): (sorted: seq<SalesRecord>)
    ensures multiset(sorted) == multiset(rs)
    ensures forall i, j :: 0 <= i < j < |sorted| ==> sorted[i].date <= sorted[j].date
  {
    var sorted := Sorting.SortBy(rs, DateKey);
    assert forall i, j :: 0 <= i < j < |sorted| ==> DateKey(sorted[i]) <= DateKey(sorted[j]);
    sorted
  }

  /** No two different rows share a date (identical rows may repeat). */
  predicate DistinctDates(rs: seq<SalesRecord>)
  {
    forall x, y :: x in rs && y in rs && x.date == y.date ==> x == y
  }

  /** When no two rows share a date, the date order is determined: every
      arrangement of the rows in ascending date order is the date sort. */
  lemma SortByDateUnique(rs: seq<SalesRecord>, s: seq<SalesRecord>)
    requires multiset(s) == multiset(rs) && DistinctDates(rs)
    requires forall i, j :: 0 <= i < j < |s| ==> s[i].date <= s[j].date
    ensures SortByDate(rs) == s
  {
    var sorted := SortByDate(rs);
    forall x, y | x in sorted && y in sorted && DateKey(x) == DateKey(y)
      ensures x == y
    {
      assert x in multiset(sorted) && y in multiset(sorted);
    }
    assert Sorting.SortedBy(s, DateKey);
    Sorting.SortedUnique(sorted, s, DateKey);
  }
}
