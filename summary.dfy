/**
 * `summary_metrics`: headline numbers of the filtered view and, when both
 * ends of a date range are given, their percentage change against the
 * window of the same length that ends the day before the range starts.
 */
module Summary {
  import opened Wrappers
  import opened SalesData
  import opened Grouping
  import opened Views
  import opened Filter

  datatype Metrics = Metrics(totalSales: int, totalOrders: nat, avgOrderValue: real, productLinesCount: nat)

  datatype Summary = Summary(current: Metrics, salesTrend: real, ordersTrend: real, aovTrend: real)

  /** The distinct order numbers of the view (one order spans several lines). */
  function OrderNumbers(view: seq<SaleRecord>): set<int>
  {
    set x | x in view :: x.orderNumber
  }

  lemma {:induction false} OrderNumbersBounds(view: seq<SaleRecord>)
    ensures |OrderNumbers(view)| <= |view|
    ensures view != [] ==> |OrderNumbers(view)| >= 1
  {
    if view != [] {
      var pre := view[..|view| - 1];
      assert view == pre + [view[|view| - 1]];
      assert OrderNumbers(view) == OrderNumbers(pre) + {view[|view| - 1].orderNumber};
      OrderNumbersBounds(pre);
    }
  }

  /** Total divided by the number of orders, or 0 when there are no orders. */
  function AverageOrderValue(total: int, orders: nat): (a: real)
    ensures orders > 0 ==> a * orders as real == total as real
    ensures orders == 0 ==> a == 0.0
  {
    if orders > 0 then total as real / orders as real else 0.0
  }

  /**
   * Percentage change from `previous` to `current`; 0 when there is no
   * positive previous value to compare against.
   */
  function Trend(current: real, previous: real): (t: real)
    ensures previous > 0.0 ==> current == previous * (1.0 + t / 100.0)
    ensures previous > 0.0 ==> (t > 0.0 <==> current > previous) && (t < 0.0 <==> current < previous)
    ensures previous <= 0.0 ==> t == 0.0
  {
    if previous > 0.0 then
      var t := (current - previous) / previous * 100.0;
      assert previous * (t / 100.0) == current - previous;
      t
    else 0.0
  }

  /** The four headline numbers of a view. */
  function ComputeMetrics(view: seq<SaleRecord>): (m: Metrics)
    ensures m.totalSales == Total(ProductLinePairs(view))
    ensures m.totalOrders == |OrderNumbers(view)|
    ensures m.totalOrders <= |view| && (m.totalOrders == 0 <==> view == [])
    ensures m.totalOrders > 0 ==> m.avgOrderValue * m.totalOrders as real == m.totalSales as real
    ensures m.totalOrders == 0 ==> m.avgOrderValue == 0.0
    ensures m.productLinesCount == |Keys(ProductLinePairs(view))|
  {
    var totalSales := TotalSales(view);
    var totalOrders := |OrderNumbers(view)|;
    OrderNumbersBounds(view);
    SalesColumnTotal(view, ProductLinePairs(view));
    var productLines := set x | x in view :: x.productLine;
    ProductLineCount(view);
    Metrics(totalSales, totalOrders, AverageOrderValue(totalSales, totalOrders), |productLines|)
  }

  /** All lines of one order count as a single order, whose value is then the whole total. */
  lemma SingleOrder(view: seq<SaleRecord>)
    requires view != []
    requires forall i :: 0 <= i < |view| ==> view[i].orderNumber == view[0].orderNumber
    ensures ComputeMetrics(view).totalOrders == 1
    ensures ComputeMetrics(view).avgOrderValue == ComputeMetrics(view).totalSales as real
  {
    assert OrderNumbers(view) == {view[0].orderNumber} by {
      forall n | n in OrderNumbers(view)
        ensures n == view[0].orderNumber
      {
        var x :| x in view && x.orderNumber == n;
        var i :| 0 <= i < |view| && view[i] == x;
      }
    }
  }

  /** The comparison window of [start, end]: just as long, ending the day before `start`. */
  function PreviousPeriod(start: Day, end: Day): (w: (Day, Day))
    ensures w.1 + 1 == start
    ensures w.1 - w.0 == end - start
  {
    var rangeDays := end - start;
    var prevEnd := start - 1;
    (prevEnd - rangeDays, prevEnd)
  }

  /** The query for the comparison window: only the dates change. */
  function PreviousCriteria(c: FilterCriteria): (p: FilterCriteria)
    requires c.startDate.Some? && c.endDate.Some?
    ensures p.startDate.Some? && p.endDate.Some?
    ensures p.endDate.value + 1 == c.startDate.value
    ensures p.endDate.value - p.startDate.value == c.endDate.value - c.startDate.value
    ensures p.country == c.country && p.status == c.status && p.customer == c.customer
  {
    var w := PreviousPeriod(c.startDate.value, c.endDate.value);
    FilterCriteria(Some(w.0), Some(w.1), c.country, c.status, c.customer)
  }

  /**
   * `summary_metrics`: the metrics of the filtered view, with the three
   * trends against the previous window when both dates are given and 0
   * otherwise.
   */
  function SummaryMetrics(data: seq<SaleRecord>, c: FilterCriteria): (s: Summary)
    ensures s.current == ComputeMetrics(FilterData(data, c))
    ensures !(c.startDate.Some? && c.endDate.Some?) ==>
      s.salesTrend == 0.0 && s.ordersTrend == 0.0 && s.aovTrend == 0.0
    ensures c.startDate.Some? && c.endDate.Some? ==>
      var cur, prev := s.current, ComputeMetrics(FilterData(data, PreviousCriteria(c)));
      && s.salesTrend == Trend(cur.totalSales as real, prev.totalSales as real)
      && s.ordersTrend == Trend(cur.totalOrders as real, prev.totalOrders as real)
      && s.aovTrend == Trend(cur.avgOrderValue, prev.avgOrderValue)
  {
    var cur := ComputeMetrics(FilterData(data, c));
    if c.startDate.Some? && c.endDate.Some? then
      var prev := ComputeMetrics(FilterData(data, PreviousCriteria(c)));
      Summary(cur,
              Trend(cur.totalSales as real, prev.totalSales as real),
              Trend(cur.totalOrders as real, prev.totalOrders as real),
              Trend(cur.avgOrderValue, prev.avgOrderValue))
    else
      Summary(cur, 0.0, 0.0, 0.0)
  }

  /** No record is counted in both the current and the previous window. */
  lemma PeriodsDisjoint(data: seq<SaleRecord>, c: FilterCriteria, x: SaleRecord)
    requires c.startDate.Some? && c.endDate.Some?
    requires x in FilterData(data, c)
    ensures x !in FilterData(data, PreviousCriteria(c))
  {
  }

  /** Every chart of one view accounts for the same sales as the headline total. */
  lemma ViewTotalsAgree(view: seq<SaleRecord>)
    ensures var total := ComputeMetrics(view).totalSales;
      && Total(SalesByMonth(view)) == total
      && Total(SalesByProductLine(view)) == total
      && Total(SalesByCountry(view)) == total
  {
    SalesColumnTotal(view, ProductLinePairs(view));
  }

  /** With nothing to compare against, every trend is 0. */
  lemma NoHistoryNoTrend(data: seq<SaleRecord>, c: FilterCriteria)
    requires c.startDate.Some? && c.endDate.Some?
    requires FilterData(data, PreviousCriteria(c)) == []
    ensures var s := SummaryMetrics(data, c);
      s.salesTrend == 0.0 && s.ordersTrend == 0.0 && s.aovTrend == 0.0
  {
    var prev := ComputeMetrics([]);
    assert prev.totalSales == 0;
  }
}
