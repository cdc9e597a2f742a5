/**
 * The stable sort of `opcoes.sort(...)` over keyed options: a functional
 * insertion sort with its properties (ordered, a permutation, stable), and
 * `SortInPlace`, an in-place insertion sort on an array proved equal to it.
 */
module Sorting {
  import opened Ranking

  predicate Sorted(s: seq<Keyed>) {
    forall i, j :: 0 <= i < j < |s| ==> RankLe(s[i].rank, s[j].rank)
  }

  predicate AllLe(s: seq<Keyed>, b: Rank) {
    forall k :: 0 <= k < |s| ==> RankLe(s[k].rank, b)
  }

  /** The entries of s whose key is k, in their order in s. */
  function WithRank(s: seq<Keyed>, k: Rank): seq<Keyed> {
    if s == [] then []
    else WithRank(s[..|s| - 1], k) + (if s[|s| - 1].rank == k then [s[|s| - 1]] else [])
  }

  /** Places x after every entry whose key is not greater than x's. */
  function Insert(s: seq<Keyed>, x: Keyed): (r: seq<Keyed>)
    ensures |r| == |s| + 1
  {
    if s == [] || RankLe(s[|s| - 1].rank, x.rank) then s + [x]
    else Insert(s[..|s| - 1], x) + [s[|s| - 1]]
  }

  /** The stable sort by key: each entry in turn is inserted into the sorted prefix. */
  function InsertionSort(s: seq<Keyed>): (r: seq<Keyed>)
    ensures |r| == |s|
  {
    if s == [] then []
    else
      Insert(InsertionSort(s[..|s| - 1]), s[|s| - 1])
  }

  /** Inserting adds x and loses nothing. */
  lemma {:induction false} InsertPermutes(s: seq<Keyed>, x: Keyed)
    ensures multiset(Insert(s, x)) == multiset(s) + multiset{x}
  {
    if s != [] && !RankLe(s[|s| - 1].rank, x.rank) {
      var init, last := s[..|s| - 1], s[|s| - 1];
      InsertPermutes(init, x);
      assert s == init + [last];
    }
  }

  /** The sort is a permutation of its input. */
  lemma {:induction false} SortPermutes(s: seq<Keyed>)
    ensures multiset(InsertionSort(s)) == multiset(s)
  {
    if s != [] {
      var init, last := s[..|s| - 1], s[|s| - 1];
      SortPermutes(init);
      InsertPermutes(InsertionSort(init), last);
      assert s == init + [last];
    }
  }

  lemma {:induction false} InsertBounded(s: seq<Keyed>, x: Keyed, b: Rank)
    requires AllLe(s, b) && RankLe(x.rank, b)
    ensures AllLe(Insert(s, x), b)
  {
    if s != [] && !RankLe(s[|s| - 1].rank, x.rank) {
      InsertBounded(s[..|s| - 1], x, b);
    }
  }

  lemma {:induction false} InsertSorted(s: seq<Keyed>, x: Keyed)
    requires Sorted(s)
    ensures Sorted(Insert(s, x))
  {
    if s != [] && !RankLe(s[|s| - 1].rank, x.rank) {
      var init, last := s[..|s| - 1], s[|s| - 1];
      InsertSorted(init, x);
      InsertBounded(init, x, last.rank);
    }
  }

  /** The sort orders the entries by key. */
  lemma {:induction false} SortSorted(s: seq<Keyed>)
    ensures Sorted(InsertionSort(s))
  {
    if s != [] {
      SortSorted(s[..|s| - 1]);
      InsertSorted(InsertionSort(s[..|s| - 1]), s[|s| - 1]);
    }
  }

  lemma {:induction false} WithRankAppend(a: seq<Keyed>, b: seq<Keyed>, k: Rank)
    ensures WithRank(a + b, k) == WithRank(a, k) + WithRank(b, k)
  {
    if b == [] {
      assert a + b == a;
    } else {
      assert (a + b)[..|a + b| - 1] == a + b[..|b| - 1];
      WithRankAppend(a, b[..|b| - 1], k);
    }
  }

  lemma {:induction false} InsertWithRank(s: seq<Keyed>, x: Keyed, k: Rank)
    ensures WithRank(Insert(s, x), k) == WithRank(s, k) + WithRank([x], k)
  {
    if s == [] || RankLe(s[|s| - 1].rank, x.rank) {
      WithRankAppend(s, [x], k);
    } else {
      var init, last := s[..|s| - 1], s[|s| - 1];
      InsertWithRank(init, x, k);
      WithRankAppend(Insert(init, x), [last], k);
      assert s == init + [last];
      WithRankAppend(init, [last], k);
      assert WithRank([x], k) == [] || WithRank([last], k) == [] by {
        assert [x][..0] == [] && [last][..0] == [];
      }
    }
  }

  /** Stability: the entries sharing any one key keep their relative order. */
  lemma {:induction false} SortStable(s: seq<Keyed>, k: Rank)
    ensures WithRank(InsertionSort(s), k) == WithRank(s, k)
  {
    if s != [] {
      var init, last := s[..|s| - 1], s[|s| - 1];
      SortStable(init, k);
      InsertWithRank(InsertionSort(init), last, k);
      assert s == init + [last];
      WithRankAppend(init, [last], k);
      assert [last][..0] == [];
    }
  }

  /** Where x fits after the prefix s[..j], inserting it splits s at j. */
  lemma {:induction false} InsertAt(s: seq<Keyed>, x: Keyed, j: nat)
    requires j <= |s|
    requires forall k :: j <= k < |s| ==> !RankLe(s[k].rank, x.rank)
    requires j == 0 || RankLe(s[j - 1].rank, x.rank)
    ensures Insert(s, x) == s[..j] + [x] + s[j..]
  {
    if j == |s| {
      assert s[..j] == s && s[j..] == [];
    } else {
      var init, last := s[..|s| - 1], s[|s| - 1];
      assert s == init + [last];
      assert Insert(s, x) == Insert(init, x) + [last];
      InsertAt(init, x, j);
      Regroup(init, last, x, j);
    }
  }

  lemma Regroup<T>(init: seq<T>, last: T, x: T, j: nat)
    requires j <= |init|
    ensures init[..j] + [x] + init[j..] + [last] == (init + [last])[..j] + [x] + (init + [last])[j..]
  {
    assert (init + [last])[..j] == init[..j];
    assert (init + [last])[j..] == init[j..] + [last];
  }

  lemma SortStep(s: seq<Keyed>, i: nat)
    requires i < |s|
    ensures InsertionSort(s[..i + 1]) == Insert(InsertionSort(s[..i]), s[i])
  {
    assert s[..i + 1][..i] == s[..i];
  }

  /** One pass of the insertion sort: a[i] moves left past every greater key. */
  method InsertLast(a: array<Keyed>, i: nat)
    requires i < a.Length
    modifies a
    ensures a[..i + 1] == Insert(old(a[..i]), old(a[i]))
    ensures a[i + 1..] == old(a[i + 1..])
  {
    ghost var sorted := a[..i];
    var x := a[i];
    var j := i;
    while j > 0 && !RankLe(a[j - 1].rank, x.rank)
      invariant 0 <= j <= i
      invariant forall k :: 0 <= k < j ==> a[k] == sorted[k]
      invariant forall k :: j < k <= i ==> a[k] == sorted[k - 1]
      invariant forall k :: i < k < a.Length ==> a[k] == old(a[k])
      invariant forall k :: j <= k < i ==> !RankLe(sorted[k].rank, x.rank)
    {
      a[j] := a[j - 1];
      j := j - 1;
    }
    a[j] := x;
    InsertAt(sorted, x, j);
    assert a[..i + 1] == sorted[..j] + [x] + sorted[j..];
  }

  /** `list.sort` on an array: a stable insertion sort by key, in place. */
  method SortInPlace(a: array<Keyed>)
    modifies a
    ensures a[..] == InsertionSort(old(a[..]))
  {
    ghost var input := a[..];
    var i := 0;
    while i < a.Length
      invariant 0 <= i <= a.Length
      invariant a[..i] == InsertionSort(input[..i])
      invariant a[i..] == input[i..]
    {
      ghost var before := a[..];
      assert before[i] == input[i] && before[..i] == InsertionSort(input[..i]);
      InsertLast(a, i);
      SortStep(input, i);
      assert a[i + 1..] == before[i + 1..];
      i := i + 1;
    }
    assert input[..a.Length] == input;
  }
}
