/**
 * Sorting by a caller-chosen total preorder. The tabular library sorts a
 * grouped frame either by its keys (the default order of a group-by) or by
 * its values (an explicit descending sort); both are instances of `Sort`.
 * Only the order relation is promised: nothing is claimed about how
 * entries that compare equal are arranged.
 */
module Sorting {

  /** `le` is total and transitive. */
  ghost predicate TotalPreorder<T(!new)>(le: (T, T) -> bool)
  {
    && (forall a, b :: le(a, b) || le(b, a))
    && (forall a, b, c :: le(a, b) && le(b, c) ==> le(a, c))
  }

  ghost predicate SortedBy<T>(s: seq<T>, le: (T, T) -> bool)
  {
    forall i, j :: 0 <= i < j < |s| ==> le(s[i], s[j])
  }

  function Insert<T(!new)>(x: T, s: seq<T>, le: (T, T) -> bool): (r: seq<T>)
    requires TotalPreorder(le) && SortedBy(s, le)
    ensures SortedBy(r, le)
    ensures multiset(r) == multiset(s) + multiset{x}
  {
    if s == [] then [x]
    else if le(x, s[0]) then [x] + s
    else
      var rest := Insert(x, s[1..], le);
      assert s == [s[0]] + s[1..];
      assert forall y :: y in rest ==> le(s[0], y) by {
        forall y | y in rest
          ensures le(s[0], y)
        {
          assert y in multiset(rest);
          if y != x {
            assert y in multiset(s[1..]);
          }
        }
      }
      [s[0]] + rest
  }

  /** An ordering of `s` by `le`: sorted, and a permutation of `s`. */
  function Sort<T(!new)>(s: seq<T>, le: (T, T) -> bool): (r: seq<T>)
    requires TotalPreorder(le)
    ensures SortedBy(r, le)
    ensures multiset(r) == multiset(s)
  {
    if s == [] then []
    else
      assert s == [s[0]] + s[1..];
      Insert(s[0], Sort(s[1..], le), le)
  }
}
