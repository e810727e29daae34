/** Small worked cases: three order lines of two customers, checked against the general contracts. */
module WorkedExample {
  import opened Wrappers
  import opened SalesData
  import opened Filter
  import opened Views
  import opened Summary
  import opened Grouping
  import opened Text

  function Acme1(): SaleRecord { SaleRecord(10100, 10, 1000, 10000, Some(14), "Shipped", 2003, 1, "Classic Cars", "S10_1", "Acme", "USA", "Small") }
  function Acme2(): SaleRecord { SaleRecord(10101, 5, 1000, 5000, Some(50), "Cancelled", 2003, 2, "Motorcycles", "S10_2", "Acme", "USA", "Small") }
  function Globex(): SaleRecord { SaleRecord(10102, 20, 1000, 20000, Some(9), "Shipped", 2003, 1, "Classic Cars", "S10_1", "Globex", "France", "Medium") }

  lemma CountryExample()
    ensures FilterData([Acme1(), Acme2(), Globex()], FilterCriteria(None, None, Some("USA"), None, None)) == [Acme1(), Acme2()]
  {
    var c := FilterCriteria(None, None, Some("USA"), None, None);
    var m := x => Matches(x, c);
    WhereSnoc([], Acme1(), m);
    WhereSnoc([Acme1()], Acme2(), m);
    WhereSnoc([Acme1(), Acme2()], Globex(), m);
    assert [Acme1()] == [] + [Acme1()];
    WhereExt([Acme1(), Acme2(), Globex()], m, x => Matches(x, c));
  }

  /** Any month-ordered grouping of these two pairs is the same sequence. */
  lemma TwoMonthGrouping(ps: seq<((int, int), int)>, r: seq<((int, int), int)>)
    requires ps == [((2003, 1), 10000), ((2003, 2), 5000)]
    requires IsGrouping(ps, r)
    requires forall i, j :: 0 <= i < j < |r| ==> MonthBefore(r[i].0, r[j].0)
    ensures r == ps
  {
    assert KeySet(ps) == {(2003, 1), (2003, 2)};
    DistinctKeysCard(r);
    assert |r| == 2;
    assert r[0].0 in KeySet(r) && r[1].0 in KeySet(r);
    assert MonthBefore(r[0].0, r[1].0);
    assert r[0].0 == (2003, 1) && r[1].0 == (2003, 2);
    var one: seq<((int, int), int)> := [((2003, 1), 10000)];
    assert ps[..|ps| - 1] == one;
    assert one[..|one| - 1] == [];
    assert SumFor(one, (2003, 1)) == 10000 && SumFor(one, (2003, 2)) == 0;
  }

  lemma MonthTotals()
    ensures MonthlyTotals([Acme1(), Acme2()]) == [((2003, 1), 10000), ((2003, 2), 5000)]
  {
    var view := [Acme1(), Acme2()];
    assert MonthPairs(view) == [((2003, 1), 10000), ((2003, 2), 5000)];
    TwoMonthGrouping(MonthPairs(view), MonthlyTotals(view));
  }

  lemma MonthLabels()
    ensures MonthLabel(2003, 1) == "1/2003" && MonthLabel(2003, 2) == "2/2003"
  {
    assert Digits(2003) == "2003" by {
      assert Digits(2) == "2";
      assert Digits(20) == "20";
      assert Digits(200) == "200";
    }
  }

  lemma MonthExample()
    ensures SalesByMonth([Acme1(), Acme2()]) == [("1/2003", 10000), ("2/2003", 5000)]
  {
    MonthTotals();
    MonthLabels();
    var r := SalesByMonth([Acme1(), Acme2()]);
    assert r[0] == ("1/2003", 10000);
    assert r[1] == ("2/2003", 5000);
  }

  lemma SummaryExample()
    ensures ComputeMetrics([Acme1(), Acme2()]) == Metrics(15000, 2, 7500.0, 2)
  {
    var view := [Acme1(), Acme2()];
    assert view[..1] == [Acme1()];
    assert view[..1][..0] == [];
    assert TotalSales(view) == 15000;
    assert OrderNumbers(view) == {10100, 10101};
    assert |OrderNumbers(view)| == 2;
    assert AverageOrderValue(15000, 2) == 7500.0;
    assert (set x | x in view :: x.productLine) == {"Classic Cars", "Motorcycles"};
    assert |{"Classic Cars", "Motorcycles"}| == 2;
  }
}
