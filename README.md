# Sales dashboard query engine

This project models the query engine behind a small sales dashboard server
(`server.py`). Each chart endpoint of the server does the same two things.
First it narrows the sales table to the records matching a query: optional
inclusive start and end dates, an exact country, an exact status, and a
case-insensitive customer-name substring. Then it aggregates that view.
The aggregations are:

- sales summed by (year, month), labelled `"month/year"`, in calendar order;
- sales summed by product line, largest first;
- sales summed by country, in ascending country order;
- record counts by status and by deal size, most frequent first;
- the ten customers with the largest sales;
- a scatter sample of at most 100 records;
- sales summed by calendar day, in date order;
- a (year, month) × product-line pivot with zero-filled cells;
- headline metrics. These are total sales, distinct orders, average order
  value and distinct product lines. When both dates are given, they also
  include percentage trends against the window of the same length that ends
  the day before the query starts.

Modules:

- `Wrappers`: `Option`.
- `SalesData`: the record and query datatypes.
- `Text`: lower-casing, substring search, code-point string order, and
  decimal rendering for the `"month/year"` labels.
- `Sorting`: an insertion sort under a total preorder.
- `Grouping`: group-by-sum over (key, value) pairs, and what it means to be
  a grouping.
- `Filter`: `filter_data`.
- `Views`: the group-by views.
- `Scatter`: the sample. It is a method with a loop, as in the source.
- `Pivot`: the pivot. It is a method with a loop, as in the source.
- `Summary`: metrics and trends.
- `WorkedExample`: three concrete records, with their view results checked against the general contracts.

Sales are integer cents and dates are day numbers. Averages and trends are
exact reals.

## Model

| member | source | states |
|---|---|---|
| Filter.FilterData | server.py:20-41 | The five stages, each applied only when its parameter is given (dates present, strings present and non-empty), select exactly the records that match every given predicate, in input order; a record is in the result iff it is in the input and matches |
| Filter.FilterIsSubsequence | server.py:22-41 | The filtered view is an order-preserving subsequence of the data (an explicit strictly increasing index embedding) and is never longer |
| Filter.FilterIdempotent | server.py:20-41 | Filtering the filtered view again with the same query returns it unchanged |
| Filter.FilterWithoutPredicates | server.py:22-41 | A query with no parameters returns the whole table |
| Filter.MissingDateRecords | server.py:24-30 | A record whose date is missing is kept iff no date bound is given and its other predicates hold |
| Filter.FilterCompose | server.py:20-41 | Filtering by one query and then another equals filtering once by a query that matches exactly when both do |
| Filter.WhereWhere | server.py:26-39 | Two successive row selections equal one selection by the conjunction, the fact that makes the staged filter a single selection |
| Text.MatchIgnoresNameCase | server.py:39 | The customer test ignores the ASCII case of both the name and the search text |
| Text.EmptyNeedleMatches | server.py:38 | The empty search text occurs in every name, so skipping an empty customer parameter does not change the result |
| Text.DecimalRoundTrip | server.py:65 | The decimal text of an integer parses back to that integer |
| Text.MonthLabelInjective | server.py:65 | Distinct (year, month) pairs get distinct `"month/year"` labels |
| Sorting.Sort | server.py:89 | The result is ordered by the given total preorder and is a permutation (multiset equality) of the input |
| Grouping.Keys | server.py:264 | The distinct keys, each once, exactly those present, and each occurring in the input before the first occurrence of every later key (order of first appearance) |
| Grouping.GroupSum | server.py:88 | One entry per distinct key, in order of first appearance, each the sum of that key's values |
| Grouping.GroupingConservesTotal | server.py:88 | The group sums of any grouping add up to the total of the ungrouped values |
| Grouping.PermutedGrouping | server.py:89 | Reordering a grouping (any permutation) leaves it a grouping of the same pairs |
| Views.ByNameIsTotalPreorder | server.py:109 | The code-point order on names used for the group-by key order is a total preorder |
| Views.MonthlyTotals | server.py:64-68 | One entry per (year, month) present, each that month's sales sum, in strictly ascending calendar order, summing to the view's total sales |
| Views.SalesByMonth | server.py:64-68 | Entry i is labelled `"month/year"` of the i-th month in calendar order and carries that month's sum; labels are distinct; values add up to the view's total sales |
| Views.SalesByProductLine | server.py:88-89 | A grouping of sales by product line, values non-increasing, adding up to the view's total sales |
| Views.SalesByCountry | server.py:109 | A grouping of sales by country, countries strictly ascending, adding up to the view's total sales |
| Views.StatusDistribution | server.py:129 | A grouping of record counts by status, non-increasing, every count at least 1, counts summing to the number of records |
| Views.DealSizeDistribution | server.py:172 | A grouping of record counts by deal size, non-increasing, every count at least 1, counts summing to the number of records |
| Views.TopCustomers | server.py:149-152 | min(10, number of customers) distinct customers, each with its true sales sum, non-increasing, and every customer left out sold no more than any listed one |
| Views.RankedPrefix | server.py:152 | A prefix of a value-descending grouping keeps the largest groups: nothing left out exceeds anything kept |
| Views.SalesTrend | server.py:226-230 | One entry per calendar date present, each carrying the sales of the records dated that day, dates strictly ascending, covering exactly the dated records' dates |
| Views.TrendCoversBoundedView | server.py:226-227 | When a date bound is given, every filtered record is dated, so the daily series adds up to the view's total sales |
| Views.DatedPairs | server.py:226-227 | The day keys of the records with a date are exactly the set of dates in the view, and the sum under each day is the sales of the records dated that day |
| Scatter.PriceQuantityAnalysis | server.py:193-209 | Exactly min(100, n) points. For n ≤ 100, point i is built from record i. Otherwise point i is built from the record at the i-th position of the distinct random draw. Every field of a point (quantity, unit price, line total, `"Order N"`, product line and code) comes from that one record |
| Pivot.PivotMonths | server.py:250-261 | The pivot's rows are exactly the months present, strictly ascending in calendar order |
| Pivot.LineMonthPairs | server.py:250-255 | A product line's (month, sales) pairs cover exactly the months that line sold in, sum under each month to that line's sales in that month, and add up to that line's sales sum |
| Pivot.Cell | server.py:250-255 | A pivot cell is the sales of the records of that product line in that month |
| Pivot.MonthlyProductSales | server.py:250-273 | Categories are the `"month/year"` labels of the pivot rows in order. There is one series per distinct product line of the view, in order of first appearance, named after the line. Each series holds exactly one value per category, that line's sales in that month. The number of series is the number of distinct product lines |
| Pivot.PivotZeroFill | server.py:255 | A cell for a month in which the product line sold nothing is 0 |
| Pivot.PivotRowTotal | server.py:250-255 | A product line's series adds up to that line's sales sum |
| Summary.OrderNumbersBounds | server.py:294 | The number of distinct order numbers is at most the number of records, and at least 1 when there are records |
| Summary.SingleOrder | server.py:294-295 | Several lines of one order count as one order, whose average value is the whole total |
| Summary.AverageOrderValue | server.py:295 | With orders, the average times the order count is the total; with no orders it is 0 |
| Views.ProductLineCount | server.py:296 | The number of distinct product lines equals the number of product-line groups (and so of pivot series) |
| Summary.ComputeMetrics | server.py:293-296 | Total sales equals the sum of the product-line column. Orders are the number of distinct order numbers, at most the records, and are 0 exactly when the view is empty. The average times the orders is the total, or 0 without orders. The product-line count is the number of product-line groups |
| Summary.ViewTotalsAgree | server.py:293 | The month, product-line and country charts of one view each add up to the headline total sales |
| Summary.Trend | server.py:316-318 | With a positive previous value, current = previous × (1 + t/100), so t is positive iff the value grew and negative iff it shrank; otherwise t is 0 |
| Summary.PreviousPeriod | server.py:302-304 | The previous window ends the day before the current start and spans the same number of days |
| Summary.PreviousCriteria | server.py:306-310 | The comparison query has both dates set to the previous window, and country, status and customer unchanged |
| Summary.SummaryMetrics | server.py:290-323 | The current metrics are those of the filtered view. All three trends are 0 unless both dates are given; otherwise each is the trend of the current value against the same metric of the comparison query's view |
| Summary.PeriodsDisjoint | server.py:299-310 | No record is in both the current view and the comparison view |
| Summary.NoHistoryNoTrend | server.py:312-318 | When the comparison view is empty, all three trends are 0 |
| WorkedExample.CountryExample | server.py:32-33 | A country query on three records keeps exactly the two of that country, in order |
| WorkedExample.MonthExample | server.py:64-68 | Two records of January and February 2003 give `[("1/2003", 10000), ("2/2003", 5000)]` |
| WorkedExample.TwoMonthGrouping | server.py:64-68 | The month-order and grouping contract alone pins down the monthly totals of two pairs of distinct months |
| WorkedExample.SummaryExample | server.py:293-296 | Two records of two orders and two product lines give total 15000, 2 orders, average 7500 and 2 product lines |

## Left out

- The web layer (server.py:1-8, 43-49, the request parsing and `jsonify` of every route) is transport. The split of rows into `labels`/`values` lists is left out, so each view returns (key, value) rows.
- CSV loading (server.py:11-12) and the unused `YEAR_MONTH` column (server.py:18) are left out. The table is a parameter of every operation, not a global.
- Date parsing and formatting are left out. Dates are day numbers, and query dates arrive already parsed: the query-side `pd.to_datetime` at server.py:25 and 29 has no coercion. A table date that failed to parse is `None`. `Views.SalesTrend` returns day numbers, not `%Y-%m-%d` strings.
- Order dates are whole days. The source compares full timestamps against midnight bounds, so a record stamped later on the end day is excluded there; the model drops the time of day and includes the end day whole. Grouping by `.dt.date` at server.py:226 drops the time as the model does.
- Floating point is left out. Sales are integer cents, and `round(2)` is not modelled. Averages and trends are exact reals.
- Missing values in the text columns are not modelled, and neither is `groupby`/`value_counts` dropping them. Only the order date can be missing. So `Views.StatusDistribution` and `Views.DealSizeDistribution` count every record.
- Filter.CustomerOk: uses a plain substring test with ASCII lower-casing. It does not model `str.contains` regex semantics, Unicode case folding, or missing names.
- Views.SalesByProductLine, Views.StatusDistribution, Views.DealSizeDistribution, Views.TopCustomers: no order is stated among equal values. The library's default sort is not stable.
- Views.SalesByCountry: the key order is code-point order. The library compares strings the same way for the text used here, but locale collation is not modelled.
- Scatter.PriceQuantityAnalysis: the random draw is a caller-supplied sequence of distinct positions (`picks`), so the distribution of the draw is not modelled. Point coordinates are integer cents rather than floats.
- The in-place addition of a `DATE` column to the filtered frame (server.py:226) is modelled as a derived (day, sales) pair per dated record. It touches only the handler's own copy.
- An empty view gives an empty pivot and no series. Column labels of an empty pivot are not modelled.
- The debug output at server.py:130 and 173 has no logic and is left out.
- The comment at server.py:298 speaks of half the date range. The code uses the full range, and the model follows the code (`Summary.PreviousPeriod`).
