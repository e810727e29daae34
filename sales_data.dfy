/**
 * The typed in-memory dataset: one `SaleRecord` per line of the sales table,
 * and the five optional query parameters every view is filtered by.
 */
module SalesData {
  import opened Wrappers

  /** A calendar date as a day number (days since a fixed epoch). */
  type Day = int

  /**
   * One line of the sales table. Monetary columns are integer cents.
   * `orderDate` is `None` where the date text could not be parsed
   * (the table is loaded with coercion of bad dates to a missing value).
   */
  datatype SaleRecord = SaleRecord(
    orderNumber: int,
    quantityOrdered: int,
    priceEach: int,
    sales: int,
    orderDate: Option<Day>,
    status: string,
    year: int,
    month: int,
    productLine: string,
    productCode: string,
    customerName: string,
    country: string,
    dealSize: string)

  /**
   * The query parameters. Dates arrive already parsed; a string parameter
   * that is `None` or `Some("")` imposes no constraint.
   */
  datatype FilterCriteria = FilterCriteria(
    startDate: Option<Day>,
    endDate: Option<Day>,
    country: Option<string>,
    status: Option<string>,
    customer: Option<string>)

  /** The sum of the SALES column. */
  function TotalSales(view: seq<SaleRecord>): int
  {
    if view == [] then 0 else TotalSales(view[..|view| - 1]) + view[|view| - 1].sales
  }
}
