/**
 * `monthly_product_sales`: a pivot of sales by (year, month) rows and
 * product-line columns, missing cells filled with 0, returned as month
 * labels plus one aligned series per product line.
 */
module Pivot {
  import opened SalesData
  import opened Text
  import opened Grouping
  import opened Views

  datatype NamedSeries = NamedSeries(name: string, data: seq<int>)

  /** The months in which `line` has at least one record. */
  function LineMonths(view: seq<SaleRecord>, line: string): set<(int, int)>
  {
    set x | x in view && x.productLine == line :: (x.year, x.month)
  }

  /** The sales of the records of product line `line` in `month`. */
  function LineMonthSales(view: seq<SaleRecord>, line: string, month: (int, int)): int
  {
    if view == [] then 0
    else
      var last := view[|view| - 1];
      LineMonthSales(view[..|view| - 1], line, month)
        + (if last.productLine == line && (last.year, last.month) == month then last.sales else 0)
  }

  /** The sales of one product line keyed by (year, month). */
  function LineMonthPairs(view: seq<SaleRecord>, line: string): (ps: seq<((int, int), int)>)
    ensures KeySet(ps) == LineMonths(view, line)
    ensures forall m :: SumFor(ps, m) == LineMonthSales(view, line, m)
    ensures Total(ps) == SumFor(ProductLinePairs(view), line)
  {
    if view == [] then []
    else
      var pre, last := view[..|view| - 1], view[|view| - 1];
      assert view == pre + [last];
      assert ProductLinePairs(view)[..|view| - 1] == ProductLinePairs(pre);
      var ps := LineMonthPairs(pre, line);
      if last.productLine == line then
        var entry := ((last.year, last.month), last.sales);
        KeySetSnoc(ps + [entry]);
        assert (ps + [entry])[..|ps|] == ps;
        ps + [entry]
      else ps
  }

  /** One cell of the pivot: the sales of `line` in `month`. */
  function Cell(view: seq<SaleRecord>, month: (int, int), line: string): (c: int)
    ensures c == LineMonthSales(view, line, month)
  {
    SumFor(LineMonthPairs(view, line), month)
  }

  /** The pivot's row index: every month present, in calendar order. */
  function PivotMonths(view: seq<SaleRecord>): (months: seq<(int, int)>)
    ensures forall i, j :: 0 <= i < j < |months| ==> MonthBefore(months[i], months[j])
    ensures forall m :: m in months <==> m in KeySet(MonthPairs(view))
  {
    var totals := MonthlyTotals(view);
    var months := seq(|totals|, i requires 0 <= i < |totals| => totals[i].0);
    assert forall m :: m in months <==> m in KeySet(totals) by {
      forall m
        ensures m in months <==> m in KeySet(totals)
      {
        if m in KeySet(totals) {
          var p :| p in totals && p.0 == m;
          var i :| 0 <= i < |totals| && totals[i] == p;
          assert months[i] == m;
        }
      }
    }
    months
  }

  /**
   * The pivot as the chart receives it: `categories` labels the months
   * in calendar order, and each product line of the view, in order of
   * first appearance, gets one series with one value per month.
   */
  method MonthlyProductSales(view: seq<SaleRecord>) returns (categories: seq<string>, series: seq<NamedSeries>)
    ensures var months := PivotMonths(view);
      && |categories| == |months|
      && forall j :: 0 <= j < |months| ==> categories[j] == MonthLabel(months[j].0, months[j].1)
    ensures var months, lines := PivotMonths(view), Keys(ProductLinePairs(view));
      && |series| == |lines|
      && forall i :: 0 <= i < |series| ==>
           && series[i].name == lines[i]
           && |series[i].data| == |months|
           && forall j :: 0 <= j < |months| ==> series[i].data[j] == Cell(view, months[j], lines[i])
    ensures |series| == |set x | x in view :: x.productLine|
  {
    ProductLineCount(view);
    var months := PivotMonths(view);
    categories := seq(|months|, j requires 0 <= j < |months| => MonthLabel(months[j].0, months[j].1));
    var columns := KeySet(ProductLinePairs(view));
    var productLines := Keys(ProductLinePairs(view));
    series := [];
    for k := 0 to |productLines|
      invariant |series| == k
      invariant forall i :: 0 <= i < k ==>
        && series[i].name == productLines[i]
        && |series[i].data| == |months|
        && forall j :: 0 <= j < |months| ==> series[i].data[j] == Cell(view, months[j], productLines[i])
    {
      var line := productLines[k];
      if line in columns {
        series := series + [NamedSeries(line, seq(|months|, j requires 0 <= j < |months| => Cell(view, months[j], line)))];
      }
    }
  }

  // ---------------------------------------------------------------------
  // What the pivot's cells mean.

  function Sum(xs: seq<int>): int
  {
    if xs == [] then 0 else Sum(xs[..|xs| - 1]) + xs[|xs| - 1]
  }

  /** A month in which a product line sold nothing is filled with 0. */
  lemma PivotZeroFill(view: seq<SaleRecord>, month: (int, int), line: string)
    requires forall x :: x in view && x.productLine == line ==> (x.year, x.month) != month
    ensures Cell(view, month, line) == 0
  {
    SumForAbsent(LineMonthPairs(view, line), month);
  }

  /** A product line's series adds up to that line's total sales. */
  lemma PivotRowTotal(view: seq<SaleRecord>, line: string, data: seq<int>)
    requires var months := PivotMonths(view);
      |data| == |months| && forall j :: 0 <= j < |months| ==> data[j] == Cell(view, months[j], line)
    ensures Sum(data) == SumFor(ProductLinePairs(view), line)
  {
    var months := PivotMonths(view);
    var ps := LineMonthPairs(view, line);
    var row := seq(|months|, j requires 0 <= j < |months| => (months[j], data[j]));
    assert KeySet(ps) <= KeySet(row) by {
      forall m | m in KeySet(ps)
        ensures m in KeySet(row)
      {
        LineMonthInPivot(view, line, m);
        var j :| 0 <= j < |months| && months[j] == m;
        assert row[j] in row;
      }
    }
    CoveringSum(ps, row);
    RowSum(data, row);
  }

  /** Every month a product line sold in is a row of the pivot. */
  lemma LineMonthInPivot(view: seq<SaleRecord>, line: string, m: (int, int))
    requires m in LineMonths(view, line)
    ensures m in PivotMonths(view)
  {
    var x :| x in view && x.productLine == line && (x.year, x.month) == m;
    var i :| 0 <= i < |view| && view[i] == x;
    assert MonthPairs(view)[i] in MonthPairs(view);
  }

  lemma {:induction false} RowSum<K>(data: seq<int>, row: seq<(K, int)>)
    requires |row| == |data| && forall j :: 0 <= j < |data| ==> row[j].1 == data[j]
    ensures Sum(data) == Total(row)
  {
    if data != [] {
      RowSum(data[..|data| - 1], row[..|row| - 1]);
    }
  }
}
