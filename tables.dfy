/** Frequency tables: how often each of the numbers 1..25 occurs in a list of
    draws, either among all fifteen numbers of a draw or in one of its three
    positional columns (positions 0-4, 5-9 and 10-14 of the sorted numbers). */
module Tables {
  import opened Sequences
  import opened Draws

  /** A table has a key for each of 1..25 and no other key. */
  ghost predicate IsTable(t: map<int, nat>) {
    forall n :: n in t <==> 1 <= n <= 25
  }

  /** The table every count starts from: `{n: 0 for n in range(1, 26)}`. */
  const Zeros: map<int, nat> := map n | 1 <= n <= 25 :: 0

  /** Which numbers of a draw a table counts. */
  datatype Scope = Overall | Column(index: nat)

  /** Python's slice `s[lo:hi]` for 0 <= lo <= hi: both bounds are clamped to the length. */
  function Slice(s: seq<int>, lo: nat, hi: nat): (r: seq<int>)
    requires lo <= hi
    ensures |r| == if hi <= |s| then hi - lo else if lo <= |s| then |s| - lo else 0
    ensures forall i :: 0 <= i < |r| ==> r[i] == s[lo + i]
  {
    if hi <= |s| then s[lo..hi] else if lo <= |s| then s[lo..] else []
  }

  predicate NumbersInRange(s: seq<int>) {
    forall i :: 0 <= i < |s| ==> 1 <= s[i] <= 25
  }

  /** A slice of numbers in 1..25 holds numbers in 1..25. */
  lemma SliceInRange(s: seq<int>, lo: nat, hi: nat)
    requires lo <= hi && forall i :: 0 <= i < |s| ==> 1 <= s[i] <= 25
    ensures forall i :: 0 <= i < |Slice(s, lo, hi)| ==> 1 <= Slice(s, lo, hi)[i] <= 25
  {
  }

  /** The numbers of d that a table of the given scope counts: all of them, or
      for column c the sorted numbers at positions 5c to 5c + 4. */
  function Part(d: Draw, scope: Scope): seq<int> {
    match scope
    case Overall => d.numbers
    case Column(c) => Slice(SortAsc(d.numbers), 5 * c, 5 * c + 5)
  }

  /** For a draw of fifteen numbers, the three columns are positions 0-4,
      5-9 and 10-14 of its sorted numbers, five each, and together they are
      the sorted numbers; the overall scope is the numbers as drawn. */
  lemma ColumnsPartition(d: Draw)
    requires |d.numbers| == 15
    ensures Part(d, Overall) == d.numbers
    ensures forall c :: 0 <= c < 3 ==> Part(d, Column(c)) == SortAsc(d.numbers)[5 * c..5 * c + 5]
    ensures Part(d, Column(0)) + Part(d, Column(1)) + Part(d, Column(2)) == SortAsc(d.numbers)
  {
    var s := SortAsc(d.numbers);
    assert Part(d, Column(0)) == s[0..5];
    assert Part(d, Column(1)) == s[5..10];
    assert Part(d, Column(2)) == s[10..15];
    assert s == s[0..5] + s[5..10] + s[10..15];
  }

  /** The starting table holds 0 for each of 1..25: it is the table of no draws. */
  lemma ZerosTable(scope: Scope)
    ensures IsTable(Zeros) && forall n :: 1 <= n <= 25 ==> Zeros[n] == 0
    ensures Zeros == Tally([], scope)
  {
  }

  /** How many times n occurs in the scoped numbers of the draws. */
  function Occurrences(ds: seq<Draw>, scope: Scope, n: int): nat {
    if ds == [] then 0
    else Occurrences(ds[..|ds| - 1], scope, n) + multiset(Part(ds[|ds| - 1], scope))[n]
  }

  /** The frequency table of the draws for a scope: the reference the counting loops are proved against. */
  function Tally(ds: seq<Draw>, scope: Scope): (t: map<int, nat>)
    ensures IsTable(t)
  {
    map n | 1 <= n <= 25 :: Occurrences(ds, scope, n)
  }

  /** Counts of a single list of numbers, as a table. */
  function Histogram(s: seq<int>): (t: map<int, nat>)
    ensures IsTable(t)
  {
    map n | 1 <= n <= 25 :: multiset(s)[n]
  }

  /** The sum of the counts for n..25. */
  function Sum(t: map<int, nat>, n: int): nat
    requires IsTable(t) && 1 <= n
    decreases 26 - n
  {
    if n > 25 then 0 else t[n] + Sum(t, n + 1)
  }

  function Total(t: map<int, nat>): nat
    requires IsTable(t)
  {
    Sum(t, 1)
  }

  /** How many scoped numbers the draws hold altogether. */
  function Size(ds: seq<Draw>, scope: Scope): nat {
    if ds == [] then 0 else Size(ds[..|ds| - 1], scope) + |Part(ds[|ds| - 1], scope)|
  }

  predicate PartInRange(ds: seq<Draw>, scope: Scope) {
    forall i, j :: 0 <= i < |ds| && 0 <= j < |Part(ds[i], scope)| ==> 1 <= Part(ds[i], scope)[j] <= 25
  }

  /** Appending a draw adds its scoped numbers to every count. */
  lemma OccurrencesAppend(ds: seq<Draw>, d: Draw, scope: Scope, n: int)
    ensures Occurrences(ds + [d], scope, n) == Occurrences(ds, scope, n) + multiset(Part(d, scope))[n]
  {
    assert (ds + [d])[..|ds|] == ds;
  }

  /** Adding a draw's scoped numbers to the table of some draws gives the
      table of those draws followed by that draw. */
  lemma TallyAppend(ds: seq<Draw>, d: Draw, scope: Scope, before: map<int, nat>, after: map<int, nat>)
    requires before == Tally(ds, scope) && IsTable(after)
    requires forall n :: 1 <= n <= 25 ==> after[n] == before[n] + multiset(Part(d, scope))[n]
    ensures after == Tally(ds + [d], scope)
  {
    forall n | 1 <= n <= 25 ensures after[n] == Tally(ds + [d], scope)[n] {
      OccurrencesAppend(ds, d, scope, n);
    }
  }

  /** Sums add up pointwise. */
  lemma {:induction false} SumAdd(a: map<int, nat>, b: map<int, nat>, c: map<int, nat>, n: int)
    requires IsTable(a) && IsTable(b) && IsTable(c) && 1 <= n
    requires forall m :: n <= m <= 25 ==> c[m] == a[m] + b[m]
    ensures Sum(c, n) == Sum(a, n) + Sum(b, n)
    decreases 26 - n
  {
    if n <= 25 {
      SumAdd(a, b, c, n + 1);
    }
  }

  lemma {:induction false} SumZero(t: map<int, nat>, n: int)
    requires IsTable(t) && 1 <= n
    requires forall m :: n <= m <= 25 ==> t[m] == 0
    ensures Sum(t, n) == 0
    decreases 26 - n
  {
    if n <= 25 {
      SumZero(t, n + 1);
    }
  }

  lemma {:induction false} SumSingle(x: int, n: int)
    requires 1 <= x <= 25 && 1 <= n
    ensures Sum(Histogram([x]), n) == if n <= x then 1 else 0
    decreases 26 - n
  {
    if n <= 25 {
      SumSingle(x, n + 1);
    }
  }

  /** The counts of a list of numbers in 1..25 add up to its length. */
  lemma {:induction false} TotalHistogram(s: seq<int>)
    requires NumbersInRange(s)
    ensures Total(Histogram(s)) == |s|
  {
    if s != [] {
      var init, x := s[..|s| - 1], s[|s| - 1];
      assert s == init + [x];
      TotalHistogram(init);
      SumSingle(x, 1);
      forall m | 1 <= m <= 25 ensures Histogram(s)[m] == Histogram(init)[m] + Histogram([x])[m] {
        assert multiset(s) == multiset(init) + multiset([x]);
      }
      SumAdd(Histogram(init), Histogram([x]), Histogram(s), 1);
    } else {
      SumZero(Histogram(s), 1);
    }
  }

  /** The counts of a table add up to the number of scoped numbers counted. */
  lemma {:induction false} TallyTotal(ds: seq<Draw>, scope: Scope)
    requires PartInRange(ds, scope)
    ensures Total(Tally(ds, scope)) == Size(ds, scope)
  {
    if ds != [] {
      var init, d := ds[..|ds| - 1], ds[|ds| - 1];
      PartInRangeSplit(ds, scope);
      TallyTotal(init, scope);
      TotalStep(ds, scope);
    } else {
      SumZero(Tally(ds, scope), 1);
    }
  }

  /** The last draw adds the size of its scoped part to the total. */
  lemma TotalStep(ds: seq<Draw>, scope: Scope)
    requires ds != [] && NumbersInRange(Part(ds[|ds| - 1], scope))
    ensures Total(Tally(ds, scope)) == Total(Tally(ds[..|ds| - 1], scope)) + |Part(ds[|ds| - 1], scope)|
  {
    var part := Part(ds[|ds| - 1], scope);
    TotalHistogram(part);
    TallySplit(ds, scope);
    SumAdd(Tally(ds[..|ds| - 1], scope), Histogram(part), Tally(ds, scope), 1);
  }

  /** The table of a non-empty list is the table of all but its last draw plus the counts of that draw. */
  lemma TallySplit(ds: seq<Draw>, scope: Scope)
    requires ds != []
    ensures forall m :: 1 <= m <= 25 ==>
      Tally(ds, scope)[m] == Tally(ds[..|ds| - 1], scope)[m] + Histogram(Part(ds[|ds| - 1], scope))[m]
  {
    forall m | 1 <= m <= 25
      ensures Tally(ds, scope)[m] == Tally(ds[..|ds| - 1], scope)[m] + Histogram(Part(ds[|ds| - 1], scope))[m]
    {
      assert Tally(ds, scope)[m] == Occurrences(ds, scope, m);
    }
  }

  lemma PartInRangeSplit(ds: seq<Draw>, scope: Scope)
    requires ds != [] && PartInRange(ds, scope)
    ensures PartInRange(ds[..|ds| - 1], scope)
    ensures NumbersInRange(Part(ds[|ds| - 1], scope))
  {
    var init := ds[..|ds| - 1];
    forall i, j | 0 <= i < |init| && 0 <= j < |Part(init[i], scope)| ensures 1 <= Part(init[i], scope)[j] <= 25 {
      assert init[i] == ds[i];
    }
  }

  lemma MultiplyStep(w: nat, n: nat, m: nat)
    requires m == n + 1
    ensures w * m == w * n + w
  {
  }

  lemma {:induction false} SizeUniform(ds: seq<Draw>, scope: Scope, width: nat)
    requires forall i :: 0 <= i < |ds| ==> |Part(ds[i], scope)| == width
    ensures Size(ds, scope) == width * |ds|
  {
    if ds != [] {
      var init := ds[..|ds| - 1];
      forall i | 0 <= i < |init| ensures |Part(init[i], scope)| == width {
        assert init[i] == ds[i];
      }
      SizeUniform(init, scope, width);
      var total := Size(init, scope);
      assert Size(ds, scope) == total + width;
      MultiplyStep(width, |init|, |ds|);
    }
  }

  /** With fifteen numbers in 1..25 per draw, the overall counts add up to 15 per draw. */
  lemma FrequencyTotal(ds: seq<Draw>)
    requires forall i :: 0 <= i < |ds| ==> |ds[i].numbers| == 15 && InRange(ds[i])
    ensures Total(Tally(ds, Overall)) == 15 * |ds|
  {
    TallyTotal(ds, Overall);
    SizeUniform(ds, Overall, 15);
  }

  /** The sorted numbers of a draw hold the same values, so they stay in 1..25. */
  lemma SortedInRange(d: Draw)
    requires InRange(d)
    ensures forall i :: 0 <= i < |SortAsc(d.numbers)| ==> 1 <= SortAsc(d.numbers)[i] <= 25
  {
    var s := SortAsc(d.numbers);
    forall i | 0 <= i < |s| ensures 1 <= s[i] <= 25 {
      assert s[i] in multiset(s);
      assert s[i] in d.numbers;
    }
  }

  /** Every draw of at least fifteen numbers puts exactly five into each column,
      so each column's counts add up to 5 per draw. */
  lemma ColumnTotal(ds: seq<Draw>, c: nat)
    requires c < 3
    requires forall i :: 0 <= i < |ds| ==> |ds[i].numbers| >= 15 && InRange(ds[i])
    ensures Total(Tally(ds, Column(c))) == 5 * |ds|
  {
    forall i | 0 <= i < |ds| ensures |Part(ds[i], Column(c))| == 5 {
    }
    forall i, j | 0 <= i < |ds| && 0 <= j < |Part(ds[i], Column(c))|
      ensures 1 <= Part(ds[i], Column(c))[j] <= 25
    {
      SortedInRange(ds[i]);
    }
    TallyTotal(ds, Column(c));
    SizeUniform(ds, Column(c), 5);
  }

  /** The scoped numbers of a well-formed draw never repeat. */
  lemma PartDistinct(d: Draw, scope: Scope)
    requires WellFormed(d)
    ensures Distinct(Part(d, scope))
  {
    match scope
    case Overall =>
    case Column(c) =>
      SortAscDistinct(d.numbers);
  }

  /** Each draw counts a number at most once, so no count exceeds the number of draws. */
  lemma {:induction false} OccurrencesAtMostDraws(ds: seq<Draw>, scope: Scope, n: int)
    requires forall i :: 0 <= i < |ds| ==> WellFormed(ds[i])
    ensures Occurrences(ds, scope, n) <= |ds|
  {
    if ds != [] {
      OccurrencesAtMostDraws(ds[..|ds| - 1], scope, n);
      PartDistinct(ds[|ds| - 1], scope);
      DistinctMultiplicity(Part(ds[|ds| - 1], scope));
    }
  }

  /** A table of zeros is the table of no draws. */
  lemma EmptyTally(t: map<int, nat>, scope: Scope)
    requires IsTable(t) && forall n :: 1 <= n <= 25 ==> t[n] == 0
    ensures t == Tally([], scope)
  {
  }

  /** One run of `for num in nums: freq[num] += 1` over a table. */
  method AddOccurrences(freq: map<int, nat>, nums: seq<int>) returns (r: map<int, nat>)
    requires IsTable(freq)
    requires forall i :: 0 <= i < |nums| ==> 1 <= nums[i] <= 25
    ensures IsTable(r)
    ensures forall n :: 1 <= n <= 25 ==> r[n] == freq[n] + multiset(nums)[n]
  {
    r := freq;
    for i := 0 to |nums|
      invariant IsTable(r)
      invariant forall n :: 1 <= n <= 25 ==> r[n] == freq[n] + multiset(nums[..i])[n]
    {
      assert nums[..i + 1] == nums[..i] + [nums[i]];
      r := r[nums[i] := r[nums[i]] + 1];
    }
    assert nums[..|nums|] == nums;
  }

  /** Counts the scoped part of one more draw into the table of the draws before it. */
  method CountPart(table: map<int, nat>, counted: seq<Draw>, d: Draw, scope: Scope, part: seq<int>)
    returns (r: map<int, nat>)
    requires table == Tally(counted, scope) && part == Part(d, scope)
    requires forall i :: 0 <= i < |part| ==> 1 <= part[i] <= 25
    ensures r == Tally(counted + [d], scope)
  {
    r := AddOccurrences(table, part);
    TallyAppend(counted, d, scope, table, r);
  }
}
