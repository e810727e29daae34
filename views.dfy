/**
 * The aggregation views: the body of every chart endpoint once the request
 * has been turned into a filtered view. Each returns the rows of the
 * grouped frame as (key, value) pairs; values are integer cents for sales
 * and plain counts for distributions.
 */
module Views {
  import opened Wrappers
  import opened SalesData
  import opened Text
  import opened Sorting
  import opened Grouping
  import Filter

  /** How many customers the ranking keeps (`head(10)`). */
  const TOP_CUSTOMERS: nat := 10

  function Min(a: int, b: int): int
  {
    if a < b then a else b
  }

  // ---------------------------------------------------------------------
  // Key columns: each record contributes one (key, value) pair.

  function MonthPairs(view: seq<SaleRecord>): seq<((int, int), int)>
  {
    seq(|view|, i requires 0 <= i < |view| => ((view[i].year, view[i].month), view[i].sales))
  }

  function ProductLinePairs(view: seq<SaleRecord>): seq<(string, int)>
  {
    seq(|view|, i requires 0 <= i < |view| => (view[i].productLine, view[i].sales))
  }

  function CountryPairs(view: seq<SaleRecord>): seq<(string, int)>
  {
    seq(|view|, i requires 0 <= i < |view| => (view[i].country, view[i].sales))
  }

  function CustomerPairs(view: seq<SaleRecord>): seq<(string, int)>
  {
    seq(|view|, i requires 0 <= i < |view| => (view[i].customerName, view[i].sales))
  }

  function StatusCounts(view: seq<SaleRecord>): seq<(string, int)>
  {
    seq(|view|, i requires 0 <= i < |view| => (view[i].status, 1))
  }

  function DealSizeCounts(view: seq<SaleRecord>): seq<(string, int)>
  {
    seq(|view|, i requires 0 <= i < |view| => (view[i].dealSize, 1))
  }

  /** The calendar dates that occur in the view. */
  function DateSet(view: seq<SaleRecord>): set<Day>
  {
    set x | x in view && x.orderDate.Some? :: x.orderDate.value
  }

  /** The sales of the records dated `d`. */
  function DaySales(view: seq<SaleRecord>, d: Day): int
  {
    if view == [] then 0
    else
      var last := view[|view| - 1];
      DaySales(view[..|view| - 1], d) + (if last.orderDate == Some(d) then last.sales else 0)
  }

  /** Sales keyed by order date; records without a date have no key and are dropped. */
  function DatedPairs(view: seq<SaleRecord>): (ps: seq<(Day, int)>)
    ensures KeySet(ps) == DateSet(view)
    ensures forall d :: SumFor(ps, d) == DaySales(view, d)
  {
    if view == [] then []
    else
      var pre, last := view[..|view| - 1], view[|view| - 1];
      assert view == pre + [last];
      var ps := DatedPairs(pre);
      if last.orderDate.Some? then
        KeySetSnoc(ps + [(last.orderDate.value, last.sales)]);
        assert (ps + [(last.orderDate.value, last.sales)])[..|ps|] == ps;
        ps + [(last.orderDate.value, last.sales)]
      else ps
  }

  /** `nunique` of the product lines is the number of product-line groups. */
  lemma ProductLineCount(view: seq<SaleRecord>)
    ensures |set x | x in view :: x.productLine| == |Keys(ProductLinePairs(view))|
  {
    var ps := ProductLinePairs(view);
    var names := set x | x in view :: x.productLine;
    KeysCount(ps);
    forall l | l in KeySet(ps)
      ensures l in names
    {
      var p :| p in ps && p.0 == l;
      var i :| 0 <= i < |ps| && ps[i] == p;
      assert view[i] in view;
    }
    forall l | l in names
      ensures l in KeySet(ps)
    {
      var x :| x in view && x.productLine == l;
      var i :| 0 <= i < |view| && view[i] == x;
      assert ps[i] in ps;
    }
    assert KeySet(ps) == names;
  }

  /** A column whose values are the SALES of the view totals the view's sales. */
  lemma {:induction false} SalesColumnTotal<K>(view: seq<SaleRecord>, ps: seq<(K, int)>)
    requires |ps| == |view|
    requires forall i :: 0 <= i < |view| ==> ps[i].1 == view[i].sales
    ensures Total(ps) == TotalSales(view)
  {
    if view != [] {
      SalesColumnTotal(view[..|view| - 1], ps[..|ps| - 1]);
    }
  }

  /** When every record carries a date, the dated sales are all the sales. */
  lemma {:induction false} DatedPairsTotal(view: seq<SaleRecord>)
    requires forall x :: x in view ==> x.orderDate.Some?
    ensures Total(DatedPairs(view)) == TotalSales(view)
  {
    if view != [] {
      var pre := view[..|view| - 1];
      assert view == pre + [view[|view| - 1]];
      DatedPairsTotal(pre);
      var ps := DatedPairs(pre);
      var x := view[|view| - 1];
      assert (ps + [(x.orderDate.value, x.sales)])[..|ps|] == ps;
    }
  }

  // ---------------------------------------------------------------------
  // The orders the views sort by.

  /** Larger value first (`sort_values(..., ascending=False)`). */
  function ByValueDesc<K>(a: (K, int), b: (K, int)): bool
  {
    a.1 >= b.1
  }

  /** (year, month) in calendar order. */
  predicate MonthBefore(x: (int, int), y: (int, int))
  {
    x.0 < y.0 || (x.0 == y.0 && x.1 < y.1)
  }

  function ByMonth(a: ((int, int), int), b: ((int, int), int)): bool
  {
    a.0 == b.0 || MonthBefore(a.0, b.0)
  }

  function ByDay(a: (Day, int), b: (Day, int)): bool
  {
    a.0 <= b.0
  }

  function ByName(a: (string, int), b: (string, int)): bool
  {
    a.0 == b.0 || StrLess(a.0, b.0)
  }

  lemma ByNameIsTotalPreorder()
    ensures TotalPreorder(ByName)
  {
    forall a: (string, int), b: (string, int)
      ensures ByName(a, b) || ByName(b, a)
    {
      if a.0 != b.0 {
        StrLessTotal(a.0, b.0);
      }
    }
    forall a: (string, int), b: (string, int), c: (string, int) | ByName(a, b) && ByName(b, c)
      ensures ByName(a, c)
    {
      if a.0 != b.0 && b.0 != c.0 {
        StrLessTransitive(a.0, b.0, c.0);
      }
    }
  }

  // ---------------------------------------------------------------------
  // The views.

  /** `sales_by_month` before labelling: one row per (year, month), ascending. */
  function MonthlyTotals(view: seq<SaleRecord>): (r: seq<((int, int), int)>)
    ensures IsGrouping(MonthPairs(view), r)
    ensures forall i, j :: 0 <= i < j < |r| ==> MonthBefore(r[i].0, r[j].0)
    ensures Total(r) == TotalSales(view)
  {
    var ps := MonthPairs(view);
    var g := GroupSum(ps);
    var r := Sort(g, ByMonth);
    PermutedGrouping(ps, g, r);
    GroupingConservesTotal(ps, r);
    SalesColumnTotal(view, ps);
    r
  }

  /** `sales_by_month`: the monthly totals labelled `"month/year"`. */
  function SalesByMonth(view: seq<SaleRecord>): (r: seq<(string, int)>)
    ensures var months := MonthlyTotals(view);
      && |r| == |months|
      && forall i :: 0 <= i < |r| ==>
           r[i].0 == MonthLabel(months[i].0.0, months[i].0.1) &&
           r[i].1 == SumFor(MonthPairs(view), months[i].0)
    ensures DistinctKeys(r)
    ensures Total(r) == TotalSales(view)
  {
    var months := MonthlyTotals(view);
    var r := seq(|months|, i requires 0 <= i < |months| =>
                 (MonthLabel(months[i].0.0, months[i].0.1), months[i].1));
    assert DistinctKeys(r) by {
      forall i, j | 0 <= i < j < |r|
        ensures r[i].0 != r[j].0
      {
        if r[i].0 == r[j].0 {
          MonthLabelInjective(months[i].0.0, months[i].0.1, months[j].0.0, months[j].0.1);
        }
      }
    }
    SameValuesSameTotal(r, months);
    r
  }

  lemma {:induction false} SameValuesSameTotal<K, L>(a: seq<(K, int)>, b: seq<(L, int)>)
    requires |a| == |b| && forall i :: 0 <= i < |a| ==> a[i].1 == b[i].1
    ensures Total(a) == Total(b)
  {
    if a != [] {
      SameValuesSameTotal(a[..|a| - 1], b[..|b| - 1]);
    }
  }

  /** `sales_by_productline`: one row per product line, largest sales first. */
  function SalesByProductLine(view: seq<SaleRecord>): (r: seq<(string, int)>)
    ensures IsGrouping(ProductLinePairs(view), r)
    ensures forall i, j :: 0 <= i < j < |r| ==> r[i].1 >= r[j].1
    ensures Total(r) == TotalSales(view)
  {
    var ps := ProductLinePairs(view);
    var g := GroupSum(ps);
    var r := Sort(g, ByValueDesc);
    PermutedGrouping(ps, g, r);
    GroupingConservesTotal(ps, r);
    SalesColumnTotal(view, ps);
    r
  }

  /** `sales_by_country`: one row per country, in the group-by's ascending key order. */
  function SalesByCountry(view: seq<SaleRecord>): (r: seq<(string, int)>)
    ensures IsGrouping(CountryPairs(view), r)
    ensures forall i, j :: 0 <= i < j < |r| ==> StrLess(r[i].0, r[j].0)
    ensures Total(r) == TotalSales(view)
  {
    var ps := CountryPairs(view);
    var g := GroupSum(ps);
    ByNameIsTotalPreorder();
    var r := Sort(g, ByName);
    PermutedGrouping(ps, g, r);
    GroupingConservesTotal(ps, r);
    SalesColumnTotal(view, ps);
    r
  }

  /** `status_distribution`: records per status, most frequent first. */
  function StatusDistribution(view: seq<SaleRecord>): (r: seq<(string, int)>)
    ensures IsGrouping(StatusCounts(view), r)
    ensures forall i, j :: 0 <= i < j < |r| ==> r[i].1 >= r[j].1
    ensures forall i :: 0 <= i < |r| ==> r[i].1 >= 1
    ensures Total(r) == |view|
  {
    ValueCounts(StatusCounts(view))
  }

  /** `deal_size_distribution`: records per deal size, most frequent first. */
  function DealSizeDistribution(view: seq<SaleRecord>): (r: seq<(string, int)>)
    ensures IsGrouping(DealSizeCounts(view), r)
    ensures forall i, j :: 0 <= i < j < |r| ==> r[i].1 >= r[j].1
    ensures forall i :: 0 <= i < |r| ==> r[i].1 >= 1
    ensures Total(r) == |view|
  {
    ValueCounts(DealSizeCounts(view))
  }

  /** `value_counts()` over a column of ones. */
  function ValueCounts(ps: seq<(string, int)>): (r: seq<(string, int)>)
    requires forall i :: 0 <= i < |ps| ==> ps[i].1 == 1
    ensures IsGrouping(ps, r)
    ensures forall i, j :: 0 <= i < j < |r| ==> r[i].1 >= r[j].1
    ensures forall i :: 0 <= i < |r| ==> r[i].1 >= 1
    ensures Total(r) == |ps|
  {
    var g := GroupSum(ps);
    var r := Sort(g, ByValueDesc);
    PermutedGrouping(ps, g, r);
    GroupingConservesTotal(ps, r);
    UnitTotal(ps);
    assert forall i :: 0 <= i < |r| ==> r[i].1 >= 1 by {
      forall i | 0 <= i < |r|
        ensures r[i].1 >= 1
      {
        assert r[i] in r;
        CountPositive(ps, r[i].0);
      }
    }
    r
  }

  /**
   * `top_customers`: the ten customers with the largest sales, largest
   * first; every customer left out sold no more than any listed one.
   */
  function TopCustomers(view: seq<SaleRecord>): (r: seq<(string, int)>)
    ensures var ps := CustomerPairs(view);
      && |r| == Min(TOP_CUSTOMERS, |KeySet(ps)|)
      && DistinctKeys(r)
      && (forall i :: 0 <= i < |r| ==> r[i].0 in KeySet(ps) && r[i].1 == SumFor(ps, r[i].0))
      && (forall i, j :: 0 <= i < j < |r| ==> r[i].1 >= r[j].1)
      && (forall name, i :: name in KeySet(ps) && name !in KeySet(r) && 0 <= i < |r| ==>
            SumFor(ps, name) <= r[i].1)
  {
    var ps := CustomerPairs(view);
    var g := GroupSum(ps);
    var sorted := Sort(g, ByValueDesc);
    PermutedGrouping(ps, g, sorted);
    KeysCount(ps);
    assert |sorted| == |multiset(sorted)| == |multiset(g)| == |g|;
    var n := Min(TOP_CUSTOMERS, |sorted|);
    RankedPrefix(ps, sorted, n);
    sorted[..n]
  }

  /** A prefix of a grouping sorted by descending value keeps the largest groups. */
  lemma RankedPrefix(ps: seq<(string, int)>, sorted: seq<(string, int)>, n: nat)
    requires IsGrouping(ps, sorted)
    requires forall i, j :: 0 <= i < j < |sorted| ==> sorted[i].1 >= sorted[j].1
    requires n <= |sorted|
    ensures var r := sorted[..n];
      && DistinctKeys(r)
      && (forall i :: 0 <= i < |r| ==> r[i].0 in KeySet(ps) && r[i].1 == SumFor(ps, r[i].0))
      && (forall i, j :: 0 <= i < j < |r| ==> r[i].1 >= r[j].1)
      && (forall name, i :: name in KeySet(ps) && name !in KeySet(r) && 0 <= i < |r| ==>
            SumFor(ps, name) <= r[i].1)
  {
    var r := sorted[..n];
    assert forall i :: 0 <= i < |r| ==> r[i] in sorted;
    forall name, i | name in KeySet(ps) && name !in KeySet(r) && 0 <= i < |r|
      ensures SumFor(ps, name) <= r[i].1
    {
      OmittedRanksLower(ps, sorted, n, name, i);
    }
  }

  /** A key missing from a prefix of a value-descending grouping has no larger sum than any entry of the prefix. */
  lemma OmittedRanksLower(ps: seq<(string, int)>, sorted: seq<(string, int)>, n: nat, name: string, i: nat)
    requires IsGrouping(ps, sorted)
    requires forall i, j :: 0 <= i < j < |sorted| ==> sorted[i].1 >= sorted[j].1
    requires n <= |sorted| && i < n
    requires name in KeySet(ps) && name !in KeySet(sorted[..n])
    ensures SumFor(ps, name) <= sorted[i].1
  {
    var p :| p in sorted && p.0 == name;
    var j :| 0 <= j < |sorted| && sorted[j] == p;
    assert n <= j;
  }

  /** `sales_trend`: one row per calendar date that occurs, ascending by date. */
  function SalesTrend(view: seq<SaleRecord>): (r: seq<(Day, int)>)
    ensures IsGrouping(DatedPairs(view), r)
    ensures KeySet(r) == DateSet(view)
    ensures forall i :: 0 <= i < |r| ==> r[i].1 == DaySales(view, r[i].0)
    ensures forall i, j :: 0 <= i < j < |r| ==> r[i].0 < r[j].0
    ensures Total(r) == Total(DatedPairs(view))
  {
    var ps := DatedPairs(view);
    var g := GroupSum(ps);
    var r := Sort(g, ByDay);
    PermutedGrouping(ps, g, r);
    GroupingConservesTotal(ps, r);
    r
  }

  /** Under a date bound every filtered record is dated, so the daily trend accounts for all filtered sales. */
  lemma TrendCoversBoundedView(data: seq<SaleRecord>, c: FilterCriteria)
    requires c.startDate.Some? || c.endDate.Some?
    ensures Total(SalesTrend(Filter.FilterData(data, c))) == TotalSales(Filter.FilterData(data, c))
  {
    DatedPairsTotal(Filter.FilterData(data, c));
  }
}
