/**
 * `price_quantity_analysis`: at most 100 records of the view, each drawn
 * as one scatter point. The random draw is supplied by the caller.
 */
module Scatter {
  import opened SalesData
  import opened Text

  /** The largest number of points the scatter plot shows. */
  const SAMPLE_CAP: nat := 100

  datatype Point = Point(x: int, y: int, z: int, name: string, productLine: string, productCode: string)

  /** The point a record is drawn as: quantity, unit price, line total, `"Order N"`, product line and code. */
  function PointOf(r: SaleRecord): Point
  {
    Point(r.quantityOrdered, r.priceEach, r.sales, "Order " + DecimalString(r.orderNumber),
          r.productLine, r.productCode)
  }

  /** `picks` is a draw without replacement of `size` positions below `n`. */
  ghost predicate IsDraw(picks: seq<nat>, n: nat, size: nat)
  {
    && |picks| == size
    && (forall i :: 0 <= i < |picks| ==> picks[i] < n)
    && (forall i, j :: 0 <= i < j < |picks| ==> picks[i] != picks[j])
  }

  /**
   * A view of at most 100 records is drawn whole, in order; a larger one
   * is sampled at the positions `picks` (the library's random draw), in
   * the order drawn. Every point is built from the fields of one record.
   */
  method PriceQuantityAnalysis(view: seq<SaleRecord>, picks: seq<nat>) returns (points: seq<Point>)
    requires SAMPLE_CAP < |view| ==> IsDraw(picks, |view|, SAMPLE_CAP)
    ensures |points| == if SAMPLE_CAP < |view| then SAMPLE_CAP else |view|
    ensures |view| <= SAMPLE_CAP ==> forall i :: 0 <= i < |view| ==> points[i] == PointOf(view[i])
    ensures SAMPLE_CAP < |view| ==> forall i :: 0 <= i < SAMPLE_CAP ==> points[i] == PointOf(view[picks[i]])
  {
    var sampleSize := if SAMPLE_CAP < |view| then SAMPLE_CAP else |view|;
    var sampled: seq<SaleRecord>;
    if sampleSize < |view| {
      sampled := seq(sampleSize, i requires 0 <= i < sampleSize => view[picks[i]]);
    } else {
      sampled := view;
    }
    points := [];
    for i := 0 to |sampled|
      invariant |points| == i
      invariant forall j :: 0 <= j < i ==> points[j] == PointOf(sampled[j])
    {
      var row := sampled[i];
      points := points + [Point(row.quantityOrdered, row.priceEach, row.sales,
                                "Order " + DecimalString(row.orderNumber),
                                row.productLine, row.productCode)];
    }
  }
}
