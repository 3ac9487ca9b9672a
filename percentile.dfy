/**
 * Latency statistics over the successful samples of a run: Python's `sorted`,
 * the nearest-rank 95th percentile `p95` and `int(statistics.median(...))`.
 * Latencies are Python integers, modelled as unbounded `int`.
 */
module Percentile {

  ghost predicate IsSorted(s: seq<int>) {
    forall i, j :: 0 <= i < j < |s| ==> s[i] <= s[j]
  }

  /** Number of elements of `s` that are at most `v`. */
  function CountAtMost(s: seq<int>, v: int): (c: nat)
    ensures c <= |s|
  {
    if s == [] then 0 else (if s[0] <= v then 1 else 0) + CountAtMost(s[1..], v)
  }

  /** Number of elements of `s` that are strictly below `v`. */
  function CountBelow(s: seq<int>, v: int): (c: nat)
    ensures c <= |s|
  {
    if s == [] then 0 else (if s[0] < v then 1 else 0) + CountBelow(s[1..], v)
  }

  /**
   * `v` is the `k`-th smallest element of `s` (1-based): fewer than `k`
   * elements lie below it and at least `k` lie at or below it.
   */
  ghost predicate IsOrderStatistic(s: seq<int>, k: nat, v: int) {
    CountBelow(s, v) < k <= CountAtMost(s, v)
  }

  function Insert(x: int, s: seq<int>): (r: seq<int>)
    ensures multiset(r) == multiset(s) + multiset{x}
  {
    if s == [] then [x]
    else if x <= s[0] then [x] + s
    else
      assert s == [s[0]] + s[1..];
      [s[0]] + Insert(x, s[1..])
  }

  lemma {:induction false} InsertKeepsSorted(x: int, s: seq<int>)
    requires IsSorted(s)
    ensures IsSorted(Insert(x, s))
  {
    if s != [] && x > s[0] {
      var t := Insert(x, s[1..]);
      InsertKeepsSorted(x, s[1..]);
      forall j | 0 <= j < |t| ensures s[0] <= t[j] {
        assert t[j] in multiset(s[1..]) + multiset{x};
        if t[j] != x {
          assert t[j] in s[1..];
        }
      }
    }
  }

  /** Python's `sorted` on a list of integers: the ascending permutation. */
  function Sort(s: seq<int>): (r: seq<int>)
    ensures IsSorted(r)
    ensures multiset(r) == multiset(s)
    ensures |r| == |s|
  {
    if s == [] then []
    else
      assert s == [s[0]] + s[1..];
      InsertKeepsSorted(s[0], Sort(s[1..]));
      Insert(s[0], Sort(s[1..]))
  }

  /**
   * The 1-based nearest rank `max(1, int(0.95 * n))`; for an integer count
   * the truncated product is `(95 * n) / 100`.
   */
  function P95Rank(n: nat): (k: nat)
    requires n > 0
    ensures 1 <= k <= n
  {
    var r := (95 * n) / 100;
    if r < 1 then 1 else r
  }

  /** `p95(values)` for a non-empty list: the sorted element at index `P95Rank(n) - 1`. */
  function P95(values: seq<int>): (r: int)
    requires |values| > 0
    ensures r in values
    ensures IsOrderStatistic(values, P95Rank(|values|), r)
  {
    var s := Sort(values);
    var k := P95Rank(|values|);
    SortedRank(s, k - 1);
    SortKeepsCounts(values, s[k - 1]);
    assert s[k - 1] in multiset(s);
    s[k - 1]
  }

  /** `int(x / 2)` in Python: true division followed by truncation toward zero. */
  function TruncHalf(x: int): (r: int)
    ensures x >= 0 ==> 2 * r <= x < 2 * r + 2
    ensures x < 0 ==> x <= 2 * r < x + 2
  {
    if x >= 0 then x / 2 else -((-x) / 2)
  }

  /**
   * `int(statistics.median(values))`: the middle element of the sorted list
   * when its length is odd, otherwise the mean of the two middle elements
   * truncated toward zero. It lies between the least and the greatest value:
   * some value is at most it and not every value is below it.
   */
  function Median(values: seq<int>): (r: int)
    requires |values| > 0
    ensures CountAtMost(values, r) >= 1
    ensures CountBelow(values, r) < |values|
    ensures |values| % 2 == 1 ==> r in values && IsOrderStatistic(values, |values| / 2 + 1, r)
  {
    var s := Sort(values);
    var n := |s|;
    var m := n / 2;
    if n % 2 == 1 then
      SortedRank(s, m);
      SortKeepsCounts(values, s[m]);
      assert s[m] in multiset(values);
      s[m]
    else
      var r := TruncHalf(s[m - 1] + s[m]);
      SortedRank(s, m - 1);
      SortedRank(s, m);
      CountsMonotone(s, s[m - 1], r);
      CountsMonotone(s, r, s[m]);
      SortKeepsCounts(values, r);
      r
  }

  // ---------------------------------------------------------------------
  // Rank counting

  lemma {:induction false} InsertCounts(x: int, s: seq<int>, v: int)
    ensures CountAtMost(Insert(x, s), v) == CountAtMost(s, v) + (if x <= v then 1 else 0)
    ensures CountBelow(Insert(x, s), v) == CountBelow(s, v) + (if x < v then 1 else 0)
  {
    if s == [] {
      assert Insert(x, s) == [x];
      assert [x][1..] == [];
    } else if x <= s[0] {
      assert ([x] + s)[1..] == s;
    } else {
      InsertCounts(x, s[1..], v);
      assert ([s[0]] + Insert(x, s[1..]))[1..] == Insert(x, s[1..]);
    }
  }

  /** Sorting does not change how many elements lie at or below, or below, any value. */
  lemma {:induction false} SortKeepsCounts(s: seq<int>, v: int)
    ensures CountAtMost(Sort(s), v) == CountAtMost(s, v)
    ensures CountBelow(Sort(s), v) == CountBelow(s, v)
  {
    if s != [] {
      SortKeepsCounts(s[1..], v);
      InsertCounts(s[0], Sort(s[1..]), v);
    }
  }

  lemma {:induction false} NoneBelowMinimum(s: seq<int>, v: int)
    requires forall i :: 0 <= i < |s| ==> v <= s[i]
    ensures CountBelow(s, v) == 0
  {
    if s != [] {
      NoneBelowMinimum(s[1..], v);
    }
  }

  /** In a sorted list the element at index `i` is an order statistic of rank `i + 1`. */
  lemma {:induction false} SortedRank(s: seq<int>, i: nat)
    requires IsSorted(s) && i < |s|
    ensures IsOrderStatistic(s, i + 1, s[i])
  {
    if i == 0 {
      NoneBelowMinimum(s, s[0]);
    } else {
      SortedRank(s[1..], i - 1);
    }
  }

  lemma {:induction false} CountsMonotone(s: seq<int>, a: int, b: int)
    requires a <= b
    ensures CountAtMost(s, a) <= CountAtMost(s, b)
    ensures CountBelow(s, a) <= CountBelow(s, b)
  {
    if s != [] {
      CountsMonotone(s[1..], a, b);
    }
  }

  lemma {:induction false} CountsSeparate(s: seq<int>, a: int, b: int)
    requires a < b
    ensures CountAtMost(s, a) <= CountBelow(s, b)
  {
    if s != [] {
      CountsSeparate(s[1..], a, b);
    }
  }

  /** An order statistic of a given rank is unique, so it pins `P95` and `Median`. */
  lemma OrderStatisticUnique(s: seq<int>, k: nat, a: int, b: int)
    requires IsOrderStatistic(s, k, a) && IsOrderStatistic(s, k, b)
    ensures a == b
  {
    if a < b {
      CountsSeparate(s, a, b);
    } else if b < a {
      CountsSeparate(s, b, a);
    }
  }

  // ---------------------------------------------------------------------
  // Properties of p95 and p50

  /**
   * For even length p50 is the mean, truncated toward zero, of the order
   * statistics of ranks n/2 and n/2 + 1.
   */
  lemma MedianEven(values: seq<int>, a: int, b: int)
    requires |values| > 0 && |values| % 2 == 0
    requires IsOrderStatistic(values, |values| / 2, a)
    requires IsOrderStatistic(values, |values| / 2 + 1, b)
    ensures Median(values) == TruncHalf(a + b)
  {
    var s := Sort(values);
    var m := |s| / 2;
    SortedRank(s, m - 1);
    SortedRank(s, m);
    SortKeepsCounts(values, s[m - 1]);
    SortKeepsCounts(values, s[m]);
    OrderStatisticUnique(values, m, a, s[m - 1]);
    OrderStatisticUnique(values, m + 1, b, s[m]);
  }

  /** A sorted list is its own sorted permutation. */
  lemma {:induction false} SortOfSorted(s: seq<int>)
    requires IsSorted(s)
    ensures Sort(s) == s
  {
    if s != [] {
      SortOfSorted(s[1..]);
      assert s == [s[0]] + s[1..];
    }
  }

  /** With a single value the rank index is 0 and p95 is that value. */
  lemma P95OfSingleton(x: int)
    ensures P95Rank(1) - 1 == 0
    ensures P95([x]) == x
  {
  }

  /** `p95` of an already sorted list needs no sorting: it is the element at index `P95Rank(n) - 1`. */
  lemma P95OfSorted(s: seq<int>)
    requires IsSorted(s) && |s| > 0
    ensures P95(s) == s[P95Rank(|s|) - 1]
  {
    SortOfSorted(s);
  }

  /** Ten latencies 10, 20, ..., 100 give a p95 of 90 (rank 9). */
  lemma P95OfTenLatencies()
    ensures P95([10, 20, 30, 40, 50, 60, 70, 80, 90, 100]) == 90
  {
    var s := [10, 20, 30, 40, 50, 60, 70, 80, 90, 100];
    assert IsSorted(s) by {
      assert forall i :: 0 <= i < |s| ==> s[i] == 10 * (i + 1);
    }
    assert P95Rank(|s|) == 9;
    P95OfSorted(s);
  }

  lemma P95RankAboveMiddle(n: nat)
    requires n > 0 && n != 2
    ensures P95Rank(n) - 1 >= n / 2
  {
  }

  /** With any number of successful latencies other than two, p95 is at least p50. */
  lemma P95AtLeastMedian(values: seq<int>)
    requires |values| > 0 && |values| != 2
    ensures Median(values) <= P95(values)
  {
    var s := Sort(values);
    var n := |s|;
    var k := P95Rank(n);
    P95RankAboveMiddle(n);
    assert s[n / 2] <= s[k - 1];
    if n % 2 == 0 {
      assert s[n / 2 - 1] <= s[n / 2];
    }
  }

  /** With exactly two latencies p95 picks the smaller one while p50 is their mean. */
  lemma P95BelowMedianForTwo()
    ensures P95([0, 10]) == 0 && Median([0, 10]) == 5
  {
    assert [10][1..] == [];
    assert Sort([10]) == [10];
    assert Sort([0, 10]) == [0, 10];
  }
}
