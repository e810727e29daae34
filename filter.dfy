/**
 * The filter engine (`filter_data`): five optional predicates applied one
 * after another, each narrowing the view left by the previous one.
 */
module Filter {
  import opened Wrappers
  import opened SalesData
  import opened Text

  // ---------------------------------------------------------------------
  // Selecting the elements of a sequence that satisfy a predicate.

  /** The elements of `s` that satisfy `keep`, in their original order. */
  function Where<T(!new)>(s: seq<T>, keep: T -> bool): (r: seq<T>)
    ensures |r| <= |s|
    ensures forall x :: x in r <==> x in s && keep(x)
  {
    if s == [] then []
    else
      assert s == s[..|s| - 1] + [s[|s| - 1]];
      Where(s[..|s| - 1], keep) + (if keep(s[|s| - 1]) then [s[|s| - 1]] else [])
  }

  /** `idx` lists, in increasing order, the positions in `b` at which the elements of `a` stand. */
  ghost predicate Embeds<T>(idx: seq<nat>, a: seq<T>, b: seq<T>)
  {
    && |idx| == |a|
    && (forall i :: 0 <= i < |idx| ==> idx[i] < |b| && b[idx[i]] == a[i])
    && (forall i, j :: 0 <= i < j < |idx| ==> idx[i] < idx[j])
  }

  /** `a` is an order-preserving subsequence of `b`. */
  ghost predicate IsSubsequence<T>(a: seq<T>, b: seq<T>)
  {
    exists idx :: Embeds(idx, a, b)
  }

  lemma {:induction false} WhereEmbeds<T(!new)>(s: seq<T>, keep: T -> bool) returns (idx: seq<nat>)
    ensures Embeds(idx, Where(s, keep), s)
    ensures forall i :: 0 <= i < |idx| ==> idx[i] < |s|
  {
    if s == [] {
      idx := [];
    } else {
      var pre := s[..|s| - 1];
      idx := WhereEmbeds(pre, keep);
      if keep(s[|s| - 1]) {
        idx := idx + [|s| - 1];
      }
    }
  }

  /** Predicates that agree on every element select the same elements. */
  lemma {:induction false} WhereExt<T(!new)>(s: seq<T>, p: T -> bool, q: T -> bool)
    requires forall x :: x in s ==> p(x) == q(x)
    ensures Where(s, p) == Where(s, q)
  {
    if s != [] {
      WhereExt(s[..|s| - 1], p, q);
    }
  }

  lemma WhereSnoc<T(!new)>(a: seq<T>, x: T, keep: T -> bool)
    ensures Where(a + [x], keep) == Where(a, keep) + (if keep(x) then [x] else [])
  {
    assert (a + [x])[..|a + [x]| - 1] == a;
  }

  /** Two selections in a row are one selection by the conjunction. */
  lemma {:induction false} WhereWhere<T(!new)>(s: seq<T>, p: T -> bool, q: T -> bool, both: T -> bool)
    requires forall x :: x in s ==> both(x) == (p(x) && q(x))
    ensures Where(Where(s, p), q) == Where(s, both)
  {
    if s != [] {
      var pre, last := s[..|s| - 1], s[|s| - 1];
      assert s == pre + [last];
      WhereWhere(pre, p, q, both);
      WhereSnoc(pre, last, p);
      WhereSnoc(pre, last, both);
      assert both(last) == (p(last) && q(last));
      if p(last) {
        WhereSnoc(Where(pre, p), last, q);
        assert Where(Where(s, p), q) == Where(Where(pre, p), q) + (if q(last) then [last] else []);
      } else {
        assert Where(s, p) == Where(pre, p);
        assert Where(s, both) == Where(pre, both);
      }
    }
  }

  /** Selecting by a predicate every element satisfies keeps everything. */
  lemma {:induction false} WhereAll<T(!new)>(s: seq<T>, keep: T -> bool)
    requires forall x :: x in s ==> keep(x)
    ensures Where(s, keep) == s
  {
    if s != [] {
      assert s == s[..|s| - 1] + [s[|s| - 1]];
      WhereAll(s[..|s| - 1], keep);
    }
  }

  // ---------------------------------------------------------------------
  // The five predicates of a query.

  /** A string parameter constrains only when it is present and non-empty. */
  predicate Given(p: Option<string>)
  {
    p.Some? && p.value != ""
  }

  /** Inclusive lower date bound; a record without a date fails any bound. */
  predicate StartOk(r: SaleRecord, c: FilterCriteria)
  {
    c.startDate.Some? ==> r.orderDate.Some? && r.orderDate.value >= c.startDate.value
  }

  /** Inclusive upper date bound. */
  predicate EndOk(r: SaleRecord, c: FilterCriteria)
  {
    c.endDate.Some? ==> r.orderDate.Some? && r.orderDate.value <= c.endDate.value
  }

  /** Exact, case-sensitive country match. */
  predicate CountryOk(r: SaleRecord, c: FilterCriteria)
  {
    Given(c.country) ==> r.country == c.country.value
  }

  /** Exact, case-sensitive status match. */
  predicate StatusOk(r: SaleRecord, c: FilterCriteria)
  {
    Given(c.status) ==> r.status == c.status.value
  }

  /** Case-insensitive substring match on the customer name. */
  predicate CustomerOk(r: SaleRecord, c: FilterCriteria)
  {
    Given(c.customer) ==> ContainsIgnoreCase(r.customerName, c.customer.value)
  }

  /** A record matches a query when it satisfies every predicate the query gives. */
  predicate Matches(r: SaleRecord, c: FilterCriteria)
  {
    StartOk(r, c) && EndOk(r, c) && CountryOk(r, c) && StatusOk(r, c) && CustomerOk(r, c)
  }

  /**
   * `filter_data`: the predicates are applied in turn, each only when its
   * parameter is given. The result is the single-pass selection of the
   * matching records: the stages never interact.
   */
  function FilterData(data: seq<SaleRecord>, c: FilterCriteria): (r: seq<SaleRecord>)
    ensures r == Where(data, x => Matches(x, c))
    ensures forall x :: x in r <==> x in data && Matches(x, c)
  {
    var s1 := if c.startDate.Some? then Where(data, x => StartOk(x, c)) else data;
    var s2 := if c.endDate.Some? then Where(s1, x => EndOk(x, c)) else s1;
    var s3 := if Given(c.country) then Where(s2, x => CountryOk(x, c)) else s2;
    var s4 := if Given(c.status) then Where(s3, x => StatusOk(x, c)) else s3;
    var s5 := if Given(c.customer) then Where(s4, x => CustomerOk(x, c)) else s4;
    assert s5 == Where(data, x => Matches(x, c)) by {
      StagesAreOneSelection(data, c, s1, s2, s3, s4, s5);
    }
    s5
  }

  lemma StagesAreOneSelection(data: seq<SaleRecord>, c: FilterCriteria,
                              s1: seq<SaleRecord>, s2: seq<SaleRecord>, s3: seq<SaleRecord>,
                              s4: seq<SaleRecord>, s5: seq<SaleRecord>)
    requires s1 == if c.startDate.Some? then Where(data, x => StartOk(x, c)) else data
    requires s2 == if c.endDate.Some? then Where(s1, x => EndOk(x, c)) else s1
    requires s3 == if Given(c.country) then Where(s2, x => CountryOk(x, c)) else s2
    requires s4 == if Given(c.status) then Where(s3, x => StatusOk(x, c)) else s3
    requires s5 == if Given(c.customer) then Where(s4, x => CustomerOk(x, c)) else s4
    ensures s5 == Where(data, x => Matches(x, c))
  {
    var m1 := x => StartOk(x, c);
    var m2 := x => StartOk(x, c) && EndOk(x, c);
    var m3 := x => StartOk(x, c) && EndOk(x, c) && CountryOk(x, c);
    var m4 := x => StartOk(x, c) && EndOk(x, c) && CountryOk(x, c) && StatusOk(x, c);
    var m5 := x => Matches(x, c);
    if c.startDate.Some? {
      WhereExt(data, x => StartOk(x, c), m1);
    } else {
      WhereAll(data, m1);
    }
    assert s1 == Where(data, m1);
    if c.endDate.Some? {
      WhereWhere(data, m1, x => EndOk(x, c), m2);
    } else {
      WhereExt(data, m1, m2);
    }
    assert s2 == Where(data, m2);
    if Given(c.country) {
      WhereWhere(data, m2, x => CountryOk(x, c), m3);
    } else {
      WhereExt(data, m2, m3);
    }
    assert s3 == Where(data, m3);
    if Given(c.status) {
      WhereWhere(data, m3, x => StatusOk(x, c), m4);
    } else {
      WhereExt(data, m3, m4);
    }
    assert s4 == Where(data, m4);
    if Given(c.customer) {
      WhereWhere(data, m4, x => CustomerOk(x, c), m5);
    } else {
      WhereExt(data, m4, m5);
    }
    WhereExt(data, m5, x => Matches(x, c));
  }

  // ---------------------------------------------------------------------
  // Properties of the filtered view.

  /** The view keeps the input's order and never grows. */
  lemma FilterIsSubsequence(data: seq<SaleRecord>, c: FilterCriteria)
    ensures IsSubsequence(FilterData(data, c), data)
    ensures |FilterData(data, c)| <= |data|
  {
    var idx := WhereEmbeds(data, x => Matches(x, c));
    WhereExt(data, x => Matches(x, c), x => Matches(x, c));
  }

  /** Filtering an already filtered view by the same query changes nothing. */
  lemma FilterIdempotent(data: seq<SaleRecord>, c: FilterCriteria)
    ensures FilterData(FilterData(data, c), c) == FilterData(data, c)
  {
    var view := FilterData(data, c);
    WhereAll(view, x => Matches(x, c));
  }

  /** A query without predicates returns the whole dataset. */
  lemma FilterWithoutPredicates(data: seq<SaleRecord>)
    ensures FilterData(data, FilterCriteria(None, None, None, None, None)) == data
  {
    WhereAll(data, x => Matches(x, FilterCriteria(None, None, None, None, None)));
  }

  /** A record whose date could not be parsed is dropped by any date bound, and otherwise filtered like any other. */
  lemma MissingDateRecords(data: seq<SaleRecord>, c: FilterCriteria, x: SaleRecord)
    requires x in data && x.orderDate.None?
    ensures x in FilterData(data, c) <==>
      c.startDate.None? && c.endDate.None? && CountryOk(x, c) && StatusOk(x, c) && CustomerOk(x, c)
  {
  }

  /** Filtering by two queries in turn is filtering by both at once. */
  lemma FilterCompose(data: seq<SaleRecord>, c: FilterCriteria, d: FilterCriteria, both: FilterCriteria)
    requires forall x :: x in data ==> (Matches(x, both) <==> Matches(x, c) && Matches(x, d))
    ensures FilterData(FilterData(data, c), d) == FilterData(data, both)
  {
    WhereWhere(data, x => Matches(x, c), x => Matches(x, d), x => Matches(x, both));
  }
}
