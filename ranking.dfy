/** Picking numbers from a frequency table: the items of the table are
    sorted in place by a (count, number) key, the first k are kept and those
    are put in ascending numeric order. Both strategies do this, once per
    column for the hot columns and once overall for the least frequent. */
module Ranking {
  import opened Sequences
  import opened Tables

  /** The two sort keys of the strategies. */
  datatype Order =
    | MostFrequent   // key (-count, number): highest count first, ties by smaller number
    | LeastFrequent  // key (count, number): lowest count first, ties by smaller number

  /** The sort key of n: its count, negated when the most frequent come first
      (every number the strategies rank is a key of the table). */
  function Key(t: map<int, nat>, order: Order, n: int): int {
    var count: int := if n in t then t[n] else 0;
    match order
    case MostFrequent => -count
    case LeastFrequent => count
  }

  /** x sorts strictly before y: a smaller key, or the same key and a smaller number.
      On the numbers 1..25 this is a strict total order, because the number breaks every tie. */
  predicate RanksBefore(t: map<int, nat>, order: Order, x: int, y: int) {
    Key(t, order, x) < Key(t, order, y) || (Key(t, order, x) == Key(t, order, y) && x < y)
  }

  /** On the keys of a table, MostFrequent puts a higher count first and
      LeastFrequent a lower count: the first component of the sort keys
      `(-count, number)` and `(count, number)`. */
  lemma KeyOrder(t: map<int, nat>, order: Order, x: int, y: int)
    requires x in t && y in t
    ensures order == MostFrequent ==> (Key(t, order, x) < Key(t, order, y) <==> t[x] > t[y])
    ensures order == LeastFrequent ==> (Key(t, order, x) < Key(t, order, y) <==> t[x] < t[y])
    ensures Key(t, order, x) == Key(t, order, y) <==> t[x] == t[y]
  {
  }

  /** RanksBefore is a strict total order on distinct numbers: exactly one of
      two different numbers sorts first, and it is transitive. */
  lemma RanksBeforeOrder(t: map<int, nat>, order: Order, x: int, y: int, z: int)
    ensures !RanksBefore(t, order, x, x)
    ensures x != y ==> (RanksBefore(t, order, x, y) <==> !RanksBefore(t, order, y, x))
    ensures RanksBefore(t, order, x, y) && RanksBefore(t, order, y, z) ==> RanksBefore(t, order, x, z)
  {
  }

  /** top is the answer for k: k distinct numbers of 1..25 in ascending order,
      each of them ranking before every number left out. */
  ghost predicate IsSelection(top: seq<int>, t: map<int, nat>, k: nat, order: Order)
    requires IsTable(t)
  {
    |top| == k && Ascending(top) &&
    (forall x :: x in top ==> 1 <= x <= 25) &&
    (forall x, y :: x in top && 1 <= y <= 25 && y !in top ==> RanksBefore(t, order, x, y))
  }

  /** No element of s ranks before an earlier one. */
  ghost predicate Ranked(s: seq<int>, t: map<int, nat>, order: Order) {
    forall p, q :: 0 <= p < q < |s| ==> !RanksBefore(t, order, s[q], s[p])
  }

  /** The items of a table: its keys 1..25, in the order the table was built. */
  function Items(): (s: seq<int>)
    ensures |s| == 25 && Distinct(s)
    ensures forall i :: 0 <= i < 25 ==> s[i] == i + 1
  {
    seq(25, i => i + 1)
  }

  /** The in-place sort of the table's items by the order's key
      (`items.sort(key=...)` in Python, `items.sort(compare)` in JavaScript). */
  method RankSort(a: array<int>, t: map<int, nat>, order: Order)
    modifies a
    ensures multiset(a[..]) == old(multiset(a[..]))
    ensures Ranked(a[..], t, order)
  {
    for i := 0 to a.Length
      invariant multiset(a[..]) == old(multiset(a[..]))
      invariant Ranked(a[..i], t, order)
    {
      SinkLast(a, t, order, i);
    }
    assert a[..a.Length] == a[..];
  }

  /** One insertion step: a[i] moves left past every element it ranks before,
      so that a[..i + 1] is ranked when a[..i] was. */
  method SinkLast(a: array<int>, t: map<int, nat>, order: Order, i: nat)
    requires i < a.Length
    requires Ranked(a[..i], t, order)
    modifies a
    ensures multiset(a[..]) == old(multiset(a[..]))
    ensures Ranked(a[..i + 1], t, order)
    ensures a[i + 1..] == old(a[i + 1..])
  {
    var j := i;
    while j > 0 && RanksBefore(t, order, a[j], a[j - 1])
      invariant 0 <= j <= i
      invariant multiset(a[..]) == old(multiset(a[..]))
      invariant a[i + 1..] == old(a[i + 1..])
      invariant RankedAround(a[..], t, order, i, j)
    {
      SwapKeepsRanked(a[..], t, order, i, j);
      Swap(a, j);
      j := j - 1;
    }
    RankedAroundDone(a[..], t, order, i, j);
    assert a[..][..i + 1] == a[..i + 1];
  }

  /** Exchanges a[j - 1] and a[j]. */
  method Swap(a: array<int>, j: nat)
    requires 0 < j < a.Length
    modifies a
    ensures a[..] == old(a[..])[j - 1 := old(a[j])][j := old(a[j - 1])]
    ensures multiset(a[..]) == old(multiset(a[..]))
  {
    a[j - 1], a[j] := a[j], a[j - 1];
  }

  /** The state of an insertion step: s[..i + 1] is ranked except for the
      moving element at j, which ranks no later than anything after it. */
  ghost predicate RankedAround(s: seq<int>, t: map<int, nat>, order: Order, i: nat, j: nat) {
    j <= i < |s| &&
    (forall p, q :: 0 <= p < q <= i && p != j && q != j ==> !RanksBefore(t, order, s[q], s[p])) &&
    (forall q :: j < q <= i ==> !RanksBefore(t, order, s[q], s[j]))
  }

  lemma SwapKeepsRanked(s: seq<int>, t: map<int, nat>, order: Order, i: nat, j: nat)
    requires RankedAround(s, t, order, i, j)
    requires 0 < j && RanksBefore(t, order, s[j], s[j - 1])
    ensures RankedAround(s[j - 1 := s[j]][j := s[j - 1]], t, order, i, j - 1)
  {
  }

  lemma RankedAroundDone(s: seq<int>, t: map<int, nat>, order: Order, i: nat, j: nat)
    requires RankedAround(s, t, order, i, j)
    requires j == 0 || !RanksBefore(t, order, s[j], s[j - 1])
    ensures Ranked(s[..i + 1], t, order)
  {
    forall p, q | 0 <= p < q <= i ensures !RanksBefore(t, order, s[q], s[p]) {
      if q == j && p < j - 1 {
        assert !RanksBefore(t, order, s[j - 1], s[p]);
      }
    }
  }

  /** A rearrangement of the items holds each of 1..25 exactly once. */
  lemma ItemsPermutation(s: seq<int>)
    requires multiset(s) == multiset(Items())
    ensures |s| == 25 && Distinct(s)
    ensures forall y :: y in s <==> 1 <= y <= 25
  {
    DistinctMultiplicity(Items());
    DistinctMultiplicity(s);
    forall y ensures y in s <==> 1 <= y <= 25 {
      assert y in s <==> y in multiset(Items());
      if 1 <= y <= 25 { assert Items()[y - 1] == y; }
    }
  }

  /** In a ranked rearrangement of the items, the first k rank before all the others. */
  lemma PrefixRanksFirst(s: seq<int>, t: map<int, nat>, k: nat, order: Order)
    requires multiset(s) == multiset(Items()) && Ranked(s, t, order) && k <= |s|
    ensures forall x, y :: x in s[..k] && 1 <= y <= 25 && y !in s[..k] ==> RanksBefore(t, order, x, y)
  {
    ItemsPermutation(s);
    forall x, y | x in s[..k] && 1 <= y <= 25 && y !in s[..k]
      ensures RanksBefore(t, order, x, y)
    {
      var p :| 0 <= p < k && s[p] == x;
      assert y in s;
      var q :| 0 <= q < |s| && s[q] == y;
      assert p < q;
    }
  }

  /** Sorting the items by rank, keeping the first k and sorting those
      numerically answers the selection for k. */
  lemma TopOfRanking(s: seq<int>, t: map<int, nat>, k: nat, order: Order)
    requires IsTable(t) && k <= |s|
    requires multiset(s) == multiset(Items())
    requires Ranked(s, t, order)
    ensures IsSelection(SortAsc(s[..k]), t, k, order)
  {
    var first := s[..k];
    var top := SortAsc(first);
    ItemsPermutation(s);
    assert Distinct(first);
    SortAscDistinct(first);
    assert forall x :: x in top <==> x in first by {
      assert forall x :: x in top <==> x in multiset(first);
    }
    assert Ascending(top) && |top| == k;
    forall x | x in top ensures 1 <= x <= 25 {
      assert x in first;
      assert x in s;
    }
    PrefixRanksFirst(s, t, k, order);
    forall x, y | x in top && 1 <= y <= 25 && y !in top ensures RanksBefore(t, order, x, y) {
      assert x in first && y !in first;
    }
  }

  /** The k numbers of t that rank first, in ascending order: the items of the
      table are sorted by rank, the first k kept (`items[:k]`, `slice(0, k)`)
      and sorted numerically. */
  method SelectTop(t: map<int, nat>, k: nat, order: Order) returns (top: seq<int>)
    requires IsTable(t) && k <= 25
    ensures IsSelection(top, t, k, order)
  {
    var items := new int[25](i => i + 1);
    assert items[..] == Items();
    RankSort(items, t, order);
    top := SortAsc(items[..k]);
    TopOfRanking(items[..], t, k, order);
    assert items[..][..k] == items[..k];
  }

  /** There is only one answer for k: any two selections from the same table are equal. */
  lemma SelectionUnique(t: map<int, nat>, k: nat, order: Order, s1: seq<int>, s2: seq<int>)
    requires IsTable(t)
    requires IsSelection(s1, t, k, order) && IsSelection(s2, t, k, order)
    ensures s1 == s2
  {
    forall x | x in s1 ensures x in s2 {
      SelectionIncluded(t, k, order, s1, s2, x);
    }
    forall x | x in s2 ensures x in s1 {
      SelectionIncluded(t, k, order, s2, s1, x);
    }
    AscendingUnique(s1, s2);
  }

  lemma SelectionIncluded(t: map<int, nat>, k: nat, order: Order, s1: seq<int>, s2: seq<int>, x: int)
    requires IsTable(t)
    requires IsSelection(s1, t, k, order) && IsSelection(s2, t, k, order)
    requires x in s1
    ensures x in s2
  {
    if x !in s2 {
      var set1 := set v | v in s1;
      var set2 := set v | v in s2;
      DistinctCardinality(s1);
      DistinctCardinality(s2);
      assert !(set2 <= set1 - {x}) by {
        if set2 <= set1 - {x} {
          SubsetCardinality(set2, set1 - {x});
        }
      }
      assert false;
    }
  }

  /** The top five of each of three column tables by (count descending,
      number ascending): the second loop of `compute_column_frequency` and
      of `computeColumnStrategy`. */
  method TopOfColumns(colFreq: seq<map<int, nat>>) returns (topCols: seq<seq<int>>)
    requires |colFreq| == 3 && forall c :: 0 <= c < 3 ==> IsTable(colFreq[c])
    ensures |topCols| == 3
    ensures forall c :: 0 <= c < 3 ==> IsSelection(topCols[c], colFreq[c], 5, MostFrequent)
  {
    topCols := [];
    for col := 0 to 3
      invariant |topCols| == col
      invariant forall c :: 0 <= c < col ==> IsSelection(topCols[c], colFreq[c], 5, MostFrequent)
    {
      var top := SelectTop(colFreq[col], 5, MostFrequent);
      topCols := topCols + [top];
    }
  }
}
