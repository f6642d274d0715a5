/** Sequence helpers shared by the model: ascending order, distinctness,
    the numeric ascending sort that Python's sorted() and JavaScript's
    sort((a, b) => a - b) perform, and order-preserving subsequences. */
module Sequences {

  predicate NonDecreasing(s: seq<int>) {
    forall i, j :: 0 <= i < j < |s| ==> s[i] <= s[j]
  }

  /** Strictly ascending: sorted and free of repetitions. */
  predicate Ascending(s: seq<int>) {
    forall i, j :: 0 <= i < j < |s| ==> s[i] < s[j]
  }

  predicate Distinct<T(==)>(s: seq<T>) {
    forall i, j :: 0 <= i < j < |s| ==> s[i] != s[j]
  }

  /** Puts x in front of the first element of t that is not smaller than x. */
  function InsertAsc(x: int, t: seq<int>): (r: seq<int>)
    requires NonDecreasing(t)
    ensures multiset(r) == multiset(t) + multiset{x}
    ensures NonDecreasing(r)
    ensures |r| == |t| + 1 && (r[0] == x || (t != [] && r[0] == t[0]))
  {
    if t == [] || x <= t[0] then
      ConsNonDecreasing(x, t);
      [x] + t
    else
      NonDecreasingTail(t);
      var rest := InsertAsc(x, t[1..]);
      InsertAscStep(x, t, rest);
      [t[0]] + rest
  }

  lemma NonDecreasingTail(t: seq<int>)
    requires t != [] && NonDecreasing(t)
    ensures NonDecreasing(t[1..])
  {
    forall i, j | 0 <= i < j < |t| - 1 ensures t[1..][i] <= t[1..][j] {
      assert t[1..][i] == t[i + 1] && t[1..][j] == t[j + 1];
    }
  }

  /** Putting t[0] back in front of x inserted into the rest of t. */
  lemma InsertAscStep(x: int, t: seq<int>, rest: seq<int>)
    requires t != [] && NonDecreasing(t) && t[0] < x
    requires multiset(rest) == multiset(t[1..]) + multiset{x} && NonDecreasing(rest)
    requires |rest| == |t| && (rest[0] == x || (t[1..] != [] && rest[0] == t[1..][0]))
    ensures multiset([t[0]] + rest) == multiset(t) + multiset{x}
    ensures NonDecreasing([t[0]] + rest)
    ensures |[t[0]] + rest| == |t| + 1 && ([t[0]] + rest)[0] == t[0]
  {
    assert t == [t[0]] + t[1..];
    if rest[0] != x { assert t[0] <= t[1]; }
    ConsNonDecreasing(t[0], rest);
  }

  /** An element no larger than the head of a sorted sequence can go in front of it. */
  lemma ConsNonDecreasing(x: int, s: seq<int>)
    requires NonDecreasing(s) && (s == [] || x <= s[0])
    ensures NonDecreasing([x] + s)
  {
    forall i, j | 0 <= i < j < |s| + 1 ensures ([x] + s)[i] <= ([x] + s)[j] {
      assert ([x] + s)[j] == s[j - 1];
      if i > 0 { assert ([x] + s)[i] == s[i - 1]; }
    }
  }

  /** Numeric ascending sort of a copy of s. */
  function SortAsc(s: seq<int>): (r: seq<int>)
    ensures multiset(r) == multiset(s)
    ensures |r| == |s|
    ensures NonDecreasing(r)
  {
    if s == [] then []
    else
      assert s == [s[0]] + s[1..];
      InsertAsc(s[0], SortAsc(s[1..]))
  }

  /** Rearrangements hold the same values. */
  lemma SameMembers<T>(a: seq<T>, b: seq<T>)
    requires multiset(a) == multiset(b)
    ensures forall x :: x in a <==> x in b
  {
    forall x ensures x in a <==> x in b {
      assert x in a <==> x in multiset(a);
    }
  }

  /** A sequence is distinct exactly when no value occurs twice in its multiset. */
  lemma {:induction false} DistinctMultiplicity<T>(s: seq<T>)
    ensures Distinct(s) <==> forall x :: multiset(s)[x] <= 1
  {
    if Distinct(s) {
      forall x ensures multiset(s)[x] <= 1 {
        DistinctAtMostOnce(s, x);
      }
    } else {
      var p, q :| 0 <= p < q < |s| && s[p] == s[q];
      assert s == s[..q] + [s[q]] + s[q + 1..];
      assert s[p] in multiset(s[..q]);
      assert multiset(s)[s[p]] >= 2;
    }
  }

  lemma {:induction false} DistinctAtMostOnce<T>(s: seq<T>, x: T)
    requires Distinct(s)
    ensures multiset(s)[x] <= 1
  {
    if s != [] {
      assert s == [s[0]] + s[1..];
      DistinctAtMostOnce(s[1..], x);
      if s[0] == x {
        assert x !in s[1..];
      }
    }
  }

  /** Sorting a distinct sequence gives a strictly ascending one. */
  lemma SortAscDistinct(s: seq<int>)
    requires Distinct(s)
    ensures Ascending(SortAsc(s))
  {
    var r := SortAsc(s);
    DistinctMultiplicity(s);
    DistinctMultiplicity(r);
  }

  /** A distinct sequence has as many elements as its set of values. */
  lemma {:induction false} DistinctCardinality<T>(s: seq<T>)
    requires Distinct(s)
    ensures |set x | x in s| == |s|
  {
    if s != [] {
      DistinctCardinality(s[1..]);
      assert (set x | x in s) == {s[0]} + (set x | x in s[1..]);
      assert s[0] !in (set x | x in s[1..]);
    }
  }

  /** Two strictly ascending sequences holding the same values are equal. */
  lemma {:induction false} AscendingUnique(s: seq<int>, t: seq<int>)
    requires Ascending(s) && Ascending(t)
    requires forall x :: x in s <==> x in t
    ensures s == t
  {
    assert s != [] ==> s[0] in s && s[0] in t;
    assert t != [] ==> t[0] in t && t[0] in s;
    if s != [] && t != [] {
      assert s[0] == t[0];
      forall x ensures x in s[1..] <==> x in t[1..] {
        if x in s[1..] { assert x in s && x != t[0]; }
        if x in t[1..] { assert x in t && x != s[0]; }
      }
      AscendingUnique(s[1..], t[1..]);
    }
  }

  /** sub is obtained from s by deleting elements, keeping the order of the rest. */
  predicate IsSubsequence<T(==)>(sub: seq<T>, s: seq<T>)
    decreases |s|
  {
    sub == [] ||
    (s != [] &&
     ((sub[0] == s[0] && IsSubsequence(sub[1..], s[1..])) || IsSubsequence(sub, s[1..])))
  }

  lemma {:induction false} SuffixIsSubsequence<T>(s: seq<T>, k: nat)
    requires k <= |s|
    ensures IsSubsequence(s[k..], s)
    decreases |s|
  {
    if k < |s| {
      if k == 0 {
        assert s[1..][0..] == s[1..];
        SuffixIsSubsequence(s[1..], 0);
        assert s[0..] == s;
      } else {
        SuffixIsSubsequence(s[1..], k - 1);
        assert s[1..][k - 1..] == s[k..];
      }
    }
  }

  /** A subsequence holds each value at most as often as the sequence. */
  lemma {:induction false} SubsequenceMultiset<T>(sub: seq<T>, s: seq<T>)
    requires IsSubsequence(sub, s)
    ensures multiset(sub) <= multiset(s)
    decreases |s|
  {
    if sub != [] {
      assert s == [s[0]] + s[1..];
      if sub[0] == s[0] && IsSubsequence(sub[1..], s[1..]) {
        SubsequenceMultiset(sub[1..], s[1..]);
        assert sub == [sub[0]] + sub[1..];
      } else {
        SubsequenceMultiset(sub, s[1..]);
      }
    }
  }

  /** A subset is no larger than its superset. */
  lemma {:induction false} SubsetCardinality<T>(a: set<T>, b: set<T>)
    requires a <= b
    ensures |a| <= |b|
    decreases |b|
  {
    if a != {} {
      var e :| e in a;
      SubsetCardinality(a - {e}, b - {e});
    }
  }
}
