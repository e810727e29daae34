/**
 * Group-by-sum over a column of (key, value) pairs: what
 * `groupby(key)[value].sum()` computes, and `value_counts()` when every
 * value is 1. A grouping has one entry per distinct key present, each
 * carrying the sum of that key's values; groups are never empty.
 */
module Grouping {

  /** The sum of all values. */
  function Total<K>(ps: seq<(K, int)>): int
  {
    if ps == [] then 0 else Total(ps[..|ps| - 1]) + ps[|ps| - 1].1
  }

  /** The sum of the values whose key is `k` (0 when `k` does not occur). */
  function SumFor<K(==)>(ps: seq<(K, int)>, k: K): int
  {
    if ps == [] then 0
    else SumFor(ps[..|ps| - 1], k) + (if ps[|ps| - 1].0 == k then ps[|ps| - 1].1 else 0)
  }

  /** The keys that occur. */
  function KeySet<K>(ps: seq<(K, int)>): set<K>
  {
    set p | p in ps :: p.0
  }

  ghost predicate DistinctKeys<K>(r: seq<(K, int)>)
  {
    forall i, j :: 0 <= i < j < |r| ==> r[i].0 != r[j].0
  }

  lemma KeySetSnoc<K>(ps: seq<(K, int)>)
    requires ps != []
    ensures KeySet(ps) == KeySet(ps[..|ps| - 1]) + {ps[|ps| - 1].0}
  {
    assert ps == ps[..|ps| - 1] + [ps[|ps| - 1]];
  }

  /** Key `a` occurs in `ps` before the first occurrence of key `b`. */
  ghost predicate OccursBefore<K>(ps: seq<(K, int)>, a: K, b: K)
  {
    exists p :: 0 <= p < |ps| && ps[p].0 == a && b !in KeySet(ps[..p])
  }

  /** The distinct keys in order of first appearance (`unique()`). */
  function Keys<K(==, !new)>(ps: seq<(K, int)>): (ks: seq<K>)
    ensures forall i, j :: 0 <= i < j < |ks| ==> ks[i] != ks[j]
    ensures forall k :: k in ks <==> k in KeySet(ps)
    ensures forall i, j :: 0 <= i < j < |ks| ==> OccursBefore(ps, ks[i], ks[j])
    ensures |ks| <= |ps|
  {
    if ps == [] then []
    else
      KeySetSnoc(ps);
      var ks := Keys(ps[..|ps| - 1]);
      var last := ps[|ps| - 1].0;
      assert forall i, j :: 0 <= i < j < |ks| ==> OccursBefore(ps, ks[i], ks[j]) by {
        forall i, j | 0 <= i < j < |ks|
          ensures OccursBefore(ps, ks[i], ks[j])
        {
          OccursBeforeSnoc(ps, ks[i], ks[j]);
        }
      }
      if last in ks then ks
      else
        assert forall i :: 0 <= i < |ks| ==> OccursBefore(ps, ks[i], last) by {
          forall i | 0 <= i < |ks|
            ensures OccursBefore(ps, ks[i], last)
          {
            OccursBeforeNew(ps, ks[i]);
          }
        }
        ks + [last]
  }

  /** An order of first appearance in a prefix survives appending a pair. */
  lemma OccursBeforeSnoc<K>(ps: seq<(K, int)>, a: K, b: K)
    requires ps != [] && OccursBefore(ps[..|ps| - 1], a, b)
    ensures OccursBefore(ps, a, b)
  {
    var pre := ps[..|ps| - 1];
    var p :| 0 <= p < |pre| && pre[p].0 == a && b !in KeySet(pre[..p]);
    assert ps[..p] == pre[..p];
    assert ps[p] == pre[p];
  }

  /** Every key of the prefix occurs before a key that appears only in the last pair. */
  lemma OccursBeforeNew<K>(ps: seq<(K, int)>, a: K)
    requires ps != [] && a in KeySet(ps[..|ps| - 1])
    requires ps[|ps| - 1].0 !in KeySet(ps[..|ps| - 1])
    ensures OccursBefore(ps, a, ps[|ps| - 1].0)
  {
    var pre := ps[..|ps| - 1];
    var q :| q in pre && q.0 == a;
    var p :| 0 <= p < |pre| && pre[p] == q;
    assert ps[p] == pre[p];
    assert ps[..p] == pre[..p];
    assert KeySet(pre[..p]) <= KeySet(pre) by {
      forall k | k in KeySet(pre[..p])
        ensures k in KeySet(pre)
      {
        var r :| r in pre[..p] && r.0 == k;
        assert r in pre;
      }
    }
  }

  /** `r` is the grouped-and-summed form of `ps`, in some order. */
  ghost predicate IsGrouping<K>(ps: seq<(K, int)>, r: seq<(K, int)>)
  {
    && DistinctKeys(r)
    && KeySet(r) == KeySet(ps)
    && forall i :: 0 <= i < |r| ==> r[i].1 == SumFor(ps, r[i].0)
  }

  /** The groups in order of first appearance. */
  function GroupSum<K(==, !new)>(ps: seq<(K, int)>): (g: seq<(K, int)>)
    ensures IsGrouping(ps, g)
    ensures |g| == |Keys(ps)|
    ensures forall i, j :: 0 <= i < j < |g| ==> OccursBefore(ps, g[i].0, g[j].0)
  {
    var ks := Keys(ps);
    var g := seq(|ks|, i requires 0 <= i < |ks| => (ks[i], SumFor(ps, ks[i])));
    assert forall k :: k in KeySet(g) <==> k in ks by {
      forall k
        ensures k in KeySet(g) <==> k in ks
      {
        if k in ks {
          var i :| 0 <= i < |ks| && ks[i] == k;
          assert g[i] in g;
        }
      }
    }
    g
  }

  // ---------------------------------------------------------------------
  // Conservation: the group sums add up to the total.

  /** The sum, over the keys of `g` in order, of each key's sum in `ps`. */
  function SumOverKeys<K(==)>(ps: seq<(K, int)>, g: seq<(K, int)>): int
  {
    if g == [] then 0 else SumOverKeys(ps, g[..|g| - 1]) + SumFor(ps, g[|g| - 1].0)
  }

  lemma {:induction false} SumOverKeysValues<K>(ps: seq<(K, int)>, g: seq<(K, int)>)
    requires forall i :: 0 <= i < |g| ==> g[i].1 == SumFor(ps, g[i].0)
    ensures Total(g) == SumOverKeys(ps, g)
  {
    if g != [] {
      SumOverKeysValues(ps, g[..|g| - 1]);
    }
  }

  /** Dropping the last pair of `ps` changes the sum over distinct keys by that pair's value, if its key is covered. */
  lemma {:induction false} SumOverKeysStep<K>(ps: seq<(K, int)>, g: seq<(K, int)>)
    requires ps != [] && DistinctKeys(g)
    ensures SumOverKeys(ps, g) ==
      SumOverKeys(ps[..|ps| - 1], g) + (if ps[|ps| - 1].0 in KeySet(g) then ps[|ps| - 1].1 else 0)
  {
    if g != [] {
      var h := g[..|g| - 1];
      SumOverKeysStep(ps, h);
      KeySetSnoc(g);
      assert g[|g| - 1].0 !in KeySet(h);
    }
  }

  /** Summing each key's sum over a duplicate-free list that covers every key gives the total. */
  lemma {:induction false} CoveringSum<K>(ps: seq<(K, int)>, g: seq<(K, int)>)
    requires DistinctKeys(g) && KeySet(ps) <= KeySet(g)
    requires forall i :: 0 <= i < |g| ==> g[i].1 == SumFor(ps, g[i].0)
    ensures Total(g) == Total(ps)
  {
    SumOverKeysValues(ps, g);
    SumOverKeysTotal(ps, g);
  }

  lemma {:induction false} SumOverKeysTotal<K>(ps: seq<(K, int)>, g: seq<(K, int)>)
    requires DistinctKeys(g) && KeySet(ps) <= KeySet(g)
    ensures SumOverKeys(ps, g) == Total(ps)
  {
    if ps == [] {
      ZeroSums(g);
    } else {
      KeySetSnoc(ps);
      SumOverKeysStep(ps, g);
      SumOverKeysTotal(ps[..|ps| - 1], g);
    }
  }

  lemma {:induction false} ZeroSums<K>(g: seq<(K, int)>)
    ensures SumOverKeys([], g) == 0
  {
    if g != [] {
      ZeroSums(g[..|g| - 1]);
    }
  }

  /** The group sums of any grouping add up to the total of the column. */
  lemma GroupingConservesTotal<K>(ps: seq<(K, int)>, r: seq<(K, int)>)
    requires IsGrouping(ps, r)
    ensures Total(r) == Total(ps)
  {
    CoveringSum(ps, r);
  }

  // ---------------------------------------------------------------------
  // Reordering a grouping keeps it a grouping.

  lemma {:induction false} DistinctKeysCountOnce<K>(g: seq<(K, int)>, x: (K, int))
    requires DistinctKeys(g)
    ensures multiset(g)[x] <= 1
  {
    if g != [] {
      var h := g[..|g| - 1];
      assert g == h + [g[|g| - 1]];
      DistinctKeysCountOnce(h, x);
      if g[|g| - 1] == x {
        assert x !in h;
      }
    }
  }

  lemma PermutedGrouping<K>(ps: seq<(K, int)>, g: seq<(K, int)>, r: seq<(K, int)>)
    requires IsGrouping(ps, g) && multiset(r) == multiset(g)
    ensures IsGrouping(ps, r)
  {
    forall p
      ensures p in r <==> p in g
    {
      assert p in r <==> p in multiset(r);
      assert p in g <==> p in multiset(g);
    }
    forall i | 0 <= i < |r|
      ensures r[i].1 == SumFor(ps, r[i].0)
    {
      assert r[i] in g;
    }
    forall i, j | 0 <= i < j < |r|
      ensures r[i].0 != r[j].0
    {
      if r[i] == r[j] {
        assert r == r[..j] + r[j..];
        assert r[i] in r[..j] && r[j] in r[j..];
        assert multiset(r)[r[i]] >= 2;
        DistinctKeysCountOnce(g, r[i]);
      } else {
        assert r[i] in g && r[j] in g;
      }
    }
  }

  // ---------------------------------------------------------------------
  // Further facts about sums and key sets.

  /** A key that does not occur sums to 0. */
  lemma {:induction false} SumForAbsent<K>(ps: seq<(K, int)>, k: K)
    requires k !in KeySet(ps)
    ensures SumFor(ps, k) == 0
  {
    if ps != [] {
      KeySetSnoc(ps);
      SumForAbsent(ps[..|ps| - 1], k);
    }
  }

  /** In a column of ones (`value_counts`), every key that occurs counts at least 1. */
  lemma {:induction false} CountPositive<K>(ps: seq<(K, int)>, k: K)
    requires forall i :: 0 <= i < |ps| ==> ps[i].1 == 1
    requires k in KeySet(ps)
    ensures SumFor(ps, k) >= 1
  {
    KeySetSnoc(ps);
    var pre := ps[..|ps| - 1];
    if ps[|ps| - 1].0 != k {
      CountPositive(pre, k);
    } else {
      CountNonNegative(pre, k);
    }
  }

  lemma {:induction false} CountNonNegative<K>(ps: seq<(K, int)>, k: K)
    requires forall i :: 0 <= i < |ps| ==> ps[i].1 == 1
    ensures SumFor(ps, k) >= 0
  {
    if ps != [] {
      CountNonNegative(ps[..|ps| - 1], k);
    }
  }

  /** A column of ones totals its length. */
  lemma {:induction false} UnitTotal<K>(ps: seq<(K, int)>)
    requires forall i :: 0 <= i < |ps| ==> ps[i].1 == 1
    ensures Total(ps) == |ps|
  {
    if ps != [] {
      UnitTotal(ps[..|ps| - 1]);
    }
  }

  /** The number of distinct keys (`nunique`) is the length of `Keys`. */
  lemma KeysCount<K(!new)>(ps: seq<(K, int)>)
    ensures |KeySet(ps)| == |Keys(ps)|
  {
    var ks := Keys(ps);
    assert KeySet(ps) == set k | k in ks;
    DistinctCard(ks);
  }

  /** A grouping has exactly one entry per key. */
  lemma DistinctKeysCard<K>(r: seq<(K, int)>)
    requires DistinctKeys(r)
    ensures |KeySet(r)| == |r|
  {
    var ks := seq(|r|, i requires 0 <= i < |r| => r[i].0);
    forall k | k in KeySet(r)
      ensures k in ks
    {
      var p :| p in r && p.0 == k;
      var i :| 0 <= i < |r| && r[i] == p;
      assert ks[i] == k;
    }
    assert (set k | k in ks) == KeySet(r);
    DistinctCard(ks);
  }

  lemma {:induction false} DistinctCard<K>(ks: seq<K>)
    requires forall i, j :: 0 <= i < j < |ks| ==> ks[i] != ks[j]
    ensures |set k | k in ks| == |ks|
  {
    if ks != [] {
      var h := ks[..|ks| - 1];
      DistinctCard(h);
      assert ks == h + [ks[|ks| - 1]];
      assert (set k | k in ks) == (set k | k in h) + {ks[|ks| - 1]};
    }
  }
}
