/** The client-side analysis of main.js: `filterDraws`, which sorts a copy of
    the loaded draws by date before cutting the period's window, and
    `computeColumnStrategy` and `computeLeastFrequent`, which fill `Map`
    counters initialised to 0 for 1..25 and pick from them as app.py does. */
module Client {
  import opened Sequences
  import opened Draws
  import opened Tables
  import opened Ranking
  import opened Suggestions
  import Server

  /** Puts x in front of the first draw of t that is not older, so that x stays
      ahead of the draws of its own date. */
  function InsertByDate(x: Draw, t: seq<Draw>): (r: seq<Draw>)
    requires SortedByDate(t)
    ensures multiset(r) == multiset(t) + multiset{x}
    ensures SortedByDate(r)
    ensures |r| == |t| + 1 && (r[0] == x || (t != [] && r[0] == t[0]))
  {
    if t == [] || x.date <= t[0].date then
      ConsSorted(x, t);
      [x] + t
    else
      SuffixSorted(t, 1);
      var rest := InsertByDate(x, t[1..]);
      InsertByDateStep(x, t, rest);
      [t[0]] + rest
  }

  /** Putting t[0] back in front of x inserted into the rest of t. */
  lemma InsertByDateStep(x: Draw, t: seq<Draw>, rest: seq<Draw>)
    requires t != [] && SortedByDate(t) && t[0].date < x.date
    requires multiset(rest) == multiset(t[1..]) + multiset{x} && SortedByDate(rest)
    requires |rest| == |t| && (rest[0] == x || (t[1..] != [] && rest[0] == t[1..][0]))
    ensures multiset([t[0]] + rest) == multiset(t) + multiset{x}
    ensures SortedByDate([t[0]] + rest)
    ensures |[t[0]] + rest| == |t| + 1 && ([t[0]] + rest)[0] == t[0]
  {
    assert t == [t[0]] + t[1..];
    if rest[0] != x { assert t[0].date <= t[1].date; }
    ConsSorted(t[0], rest);
  }

  /** The stable ascending date sort of a copy of the draws:
      `draws.slice().sort((a, b) => a.date - b.date)`. */
  function SortByDate(s: seq<Draw>): (r: seq<Draw>)
    ensures multiset(r) == multiset(s)
    ensures |r| == |s|
    ensures SortedByDate(r)
  {
    if s == [] then []
    else
      assert s == [s[0]] + s[1..];
      InsertByDate(s[0], SortByDate(s[1..]))
  }

  /** The draws of s dated k, in their order in s. */
  function OnDate(s: seq<Draw>, k: int): seq<Draw> {
    if s == [] then []
    else if s[0].date == k then [s[0]] + OnDate(s[1..], k)
    else OnDate(s[1..], k)
  }

  lemma {:induction false} InsertOnDate(x: Draw, t: seq<Draw>, k: int)
    requires SortedByDate(t)
    ensures OnDate(InsertByDate(x, t), k) == OnDate([x] + t, k)
  {
    assert ([x] + t)[1..] == t;
    if t != [] && x.date > t[0].date {
      SuffixSorted(t, 1);
      InsertOnDate(x, t[1..], k);
      var rest := InsertByDate(x, t[1..]);
      assert ([t[0]] + rest)[1..] == rest;
      assert ([x] + t[1..])[1..] == t[1..];
      assert t == [t[0]] + t[1..];
    }
  }

  /** The sort is stable: the draws of any one date keep their relative order. */
  lemma {:induction false} SortByDateStable(s: seq<Draw>, k: int)
    ensures OnDate(SortByDate(s), k) == OnDate(s, k)
  {
    if s != [] {
      SortByDateStable(s[1..], k);
      InsertOnDate(s[0], SortByDate(s[1..]), k);
      assert ([s[0]] + SortByDate(s[1..]))[1..] == SortByDate(s[1..]);
    }
  }

  /** Draws already in date order are left as they are. */
  lemma {:induction false} SortByDateSorted(s: seq<Draw>)
    requires SortedByDate(s)
    ensures SortByDate(s) == s
  {
    if s != [] {
      SuffixSorted(s, 1);
      SortByDateSorted(s[1..]);
      assert s == [s[0]] + s[1..];
    }
  }

  /** The last draw of any date-sorted rearrangement of the draws carries
      the latest date of the list. */
  lemma LastIsLatest(draws: seq<Draw>, sorted: seq<Draw>)
    requires draws != [] && |sorted| == |draws|
    requires multiset(sorted) == multiset(draws) && SortedByDate(sorted)
    ensures sorted[|sorted| - 1].date == LatestDate(draws)
  {
    SameMembers(draws, sorted);
    var last := sorted[|sorted| - 1];
    var i :| 0 <= i < |draws| && draws[i].date == LatestDate(draws);
    assert draws[i] in sorted;
    var j :| 0 <= j < |sorted| && sorted[j] == draws[i];
    SortedAtMostLast(sorted, j);
    assert last in draws;
    var k :| 0 <= k < |draws| && draws[k] == last;
    assert last.date <= LatestDate(draws);
  }

  /** `filterDraws`: the period's window of a copy of the draws sorted by
      date, anchored at the date of the last sorted draw; no draws give no draws. */
  function FilterDraws(draws: seq<Draw>, period: string): (r: seq<Draw>)
    ensures |r| <= |draws|
  {
    if draws == [] then [] else Window(SortByDate(draws), ParsePeriod(period))
  }

  /** The filter's result is sorted by date, is drawn from the list and keeps
      the latest draw, so it is empty only when the list is. */
  lemma FilterSpec(draws: seq<Draw>, period: string)
    ensures draws == [] <==> FilterDraws(draws, period) == []
    ensures SortedByDate(FilterDraws(draws, period))
    ensures multiset(FilterDraws(draws, period)) <= multiset(draws)
    ensures draws != [] ==> FilterDraws(draws, period) != []
    ensures draws != [] ==> Last(FilterDraws(draws, period)).date == LatestDate(draws)
  {
    if draws == [] {
      assert FilterDraws(draws, period) == [];
    } else {
      var sorted := SortByDate(draws);
      var r := Window(sorted, ParsePeriod(period));
      SortedWindow(draws, sorted, ParsePeriod(period));
      assert FilterDraws(draws, period) == r;
    }
  }

  /** The filter's last draw is the last draw of the sorted copy: `lastDate`
      is read from it, and every period keeps it. */
  lemma FilterKeepsLast(draws: seq<Draw>, period: string)
    requires draws != []
    ensures FilterDraws(draws, period) != []
    ensures Last(FilterDraws(draws, period)) == Last(SortByDate(draws))
  {
    var sorted := SortByDate(draws);
    var r := Window(sorted, ParsePeriod(period));
    WindowKeepsLast(sorted, ParsePeriod(period));
    assert Last(r) == Last(sorted);
    assert FilterDraws(draws, period) == r;
  }

  /** `last_week` and `last_month` keep exactly the draws dated on or after
      the latest date less 7 or 30 days. */
  lemma FilterDays(draws: seq<Draw>, period: string)
    requires draws != [] && ParsePeriod(period).Days?
    ensures var r := FilterDraws(draws, period);
      var cutoff := LatestDate(draws) - ParsePeriod(period).days;
      (forall d :: d in r ==> d.date >= cutoff) &&
      (forall d :: d in draws && d.date >= cutoff ==> d in r)
  {
    var sorted := SortByDate(draws);
    assert FilterDraws(draws, period) == Window(sorted, ParsePeriod(period));
    SortedWindow(draws, sorted, ParsePeriod(period));
  }

  /** More precisely, `last_week` and `last_month` give the suffix of the
      sorted copy that starts at its first draw dated on or after the cutoff:
      every draw of the copy before that suffix is older. */
  lemma FilterDaysExact(draws: seq<Draw>, period: string)
    requires draws != [] && ParsePeriod(period).Days?
    ensures var r := FilterDraws(draws, period);
      var sorted := SortByDate(draws);
      var cutoff := LatestDate(draws) - ParsePeriod(period).days;
      r == sorted[|sorted| - |r|..] &&
      forall i :: 0 <= i < |sorted| - |r| ==> sorted[i].date < cutoff
  {
    var sorted := SortByDate(draws);
    var p := ParsePeriod(period);
    var r := Window(sorted, p);
    SortedWindowExact(draws, sorted, p);
    assert FilterDraws(draws, period) == r;
  }

  /** A window of days of a date-sorted rearrangement of the draws is the
      suffix of that rearrangement that starts at the first draw reaching the
      cutoff: everything before it is older. */
  lemma SortedWindowExact(draws: seq<Draw>, sorted: seq<Draw>, p: Period)
    requires draws != [] && |sorted| == |draws| && p.Days?
    requires multiset(sorted) == multiset(draws) && SortedByDate(sorted)
    ensures var r := Window(sorted, p);
      var cutoff := LatestDate(draws) - p.days;
      r == sorted[|sorted| - |r|..] &&
      forall i :: 0 <= i < |sorted| - |r| ==> sorted[i].date < cutoff
  {
    LastIsLatest(draws, sorted);
    WindowIsSuffix(sorted, p);
    WindowIsExact(sorted, p);
  }

  /** `last_10` keeps the last ten draws of the sorted copy, or all of them
      when there are fewer. */
  lemma FilterLastTen(draws: seq<Draw>, period: string)
    requires ParsePeriod(period) == LastTen
    ensures |FilterDraws(draws, period)| == if |draws| < 10 then |draws| else 10
    ensures FilterDraws(draws, period) == SortByDate(draws)[|draws| - |FilterDraws(draws, period)|..]
  {
    var sorted := SortByDate(draws);
    if draws != [] {
      var r := Window(sorted, LastTen);
      WindowCounts(sorted, LastTen);
      assert FilterDraws(draws, period) == r;
    }
  }

  /** Any unrecognised period keeps the whole sorted copy. */
  lemma FilterEverything(draws: seq<Draw>, period: string)
    requires ParsePeriod(period) == Everything
    ensures FilterDraws(draws, period) == SortByDate(draws)
  {
    var sorted := SortByDate(draws);
    if draws != [] {
      WindowCounts(sorted, Everything);
      assert FilterDraws(draws, period) == Window(sorted, Everything);
    }
  }

  /** What a window of a date-sorted rearrangement keeps of the original list. */
  lemma SortedWindow(draws: seq<Draw>, sorted: seq<Draw>, p: Period)
    requires draws != [] && |sorted| == |draws|
    requires multiset(sorted) == multiset(draws) && SortedByDate(sorted)
    ensures var r := Window(sorted, p);
      r != [] && SortedByDate(r) && multiset(r) <= multiset(draws) &&
      Last(r).date == LatestDate(draws)
    ensures p.Days? ==>
      var r := Window(sorted, p);
      var cutoff := LatestDate(draws) - p.days;
      (forall d :: d in r ==> d.date >= cutoff) &&
      (forall d :: d in draws && d.date >= cutoff ==> d in r)
  {
    var r := Window(sorted, p);
    WindowSorted(sorted, p);
    WindowIsSubsequence(sorted, p);
    WindowKeepsLast(sorted, p);
    SubsequenceMultiset(r, sorted);
    LastIsLatest(draws, sorted);
    if p.Days? {
      var cutoff := LatestDate(draws) - p.days;
      WindowDays(sorted, p);
      SameMembers(draws, sorted);
      forall d | d in draws && d.date >= cutoff ensures d in r {
        var i :| 0 <= i < |sorted| && sorted[i] == d;
      }
    }
  }

  /** On draws already sorted by date, the client's filter and the server's agree. */
  lemma ClientMatchesServer(draws: seq<Draw>, period: string)
    requires SortedByDate(draws)
    ensures FilterDraws(draws, period) == Server.FilterDraws(draws, period)
  {
    SortByDateSorted(draws);
  }

  /** `for (let n = 1; n <= 25; n++) m.set(n, 0)` on a new `Map`. */
  method ZeroTable() returns (m: map<int, nat>)
    ensures IsTable(m)
    ensures forall n :: 1 <= n <= 25 ==> m[n] == 0
  {
    m := map[];
    for n := 1 to 26
      invariant forall k :: k in m <==> 1 <= k < n
      invariant forall k :: k in m ==> m[k] == 0
    {
      m := m[n := 0];
    }
  }

  /** `computeColumnStrategy`: per column, the counts of the numbers at
      positions 5c to 5c + 4 of each draw's sorted numbers; the top five of
      each column by (count descending, number ascending), sorted ascending,
      and the three blocks flattened in column order. */
  method ComputeColumnStrategy(selectedDraws: seq<Draw>) returns (suggestion: seq<int>)
    requires forall i :: 0 <= i < |selectedDraws| ==>
      |selectedDraws[i].numbers| >= 15 && InRange(selectedDraws[i])
    ensures IsHotColumns(suggestion, selectedDraws)
  {
    var colFreq := NewColumnTables();
    for i := 0 to |selectedDraws|
      invariant |colFreq| == 3
      invariant forall c :: 0 <= c < 3 ==> colFreq[c] == Tally(selectedDraws[..i], Column(c))
    {
      assert selectedDraws[..i + 1] == selectedDraws[..i] + [selectedDraws[i]];
      colFreq := AddToColumns(colFreq, selectedDraws[..i], selectedDraws[i]);
    }
    assert selectedDraws[..|selectedDraws|] == selectedDraws;
    var topCols := TopOfColumns(colFreq);
    suggestion := Flatten(topCols);
    FlattenBlocks(topCols);
  }

  /** The three column `Map`s of `computeColumnStrategy`, each set to 0 for 1..25. */
  method NewColumnTables() returns (colFreq: seq<map<int, nat>>)
    ensures |colFreq| == 3 && forall c :: 0 <= c < 3 ==> colFreq[c] == Tally([], Column(c))
  {
    colFreq := [map[], map[], map[]];
    for c := 0 to 3
      invariant |colFreq| == 3
      invariant forall k :: 0 <= k < c ==> colFreq[k] == Tally([], Column(k))
    {
      var zeros := ZeroTable();
      EmptyTally(zeros, Column(c));
      colFreq := colFreq[c := zeros];
    }
  }

  /** The body of the `forEach` of `computeColumnStrategy`: the draw's numbers
      are sorted and positions start to end - 1 are counted in column c. */
  method AddToColumns(colFreq: seq<map<int, nat>>, counted: seq<Draw>, d: Draw)
    returns (r: seq<map<int, nat>>)
    requires |d.numbers| >= 15 && InRange(d)
    requires |colFreq| == 3 && forall c :: 0 <= c < 3 ==> colFreq[c] == Tally(counted, Column(c))
    ensures |r| == 3 && forall c :: 0 <= c < 3 ==> r[c] == Tally(counted + [d], Column(c))
  {
    var sortedNums := SortAsc(d.numbers);
    SortedInRange(d);
    r := colFreq;
    for c := 0 to 3
      invariant |r| == 3
      invariant forall k :: 0 <= k < c ==> r[k] == Tally(counted + [d], Column(k))
      invariant forall k :: c <= k < 3 ==> r[k] == Tally(counted, Column(k))
    {
      var start := 5 * c;
      var end := start + 5;
      var after := CountPart(r[c], counted, d, Column(c), sortedNums[start..end]);
      r := r[c := after];
    }
  }

  /** `computeLeastFrequent`: the overall counts of the selected draws and the
      fifteen numbers with the lowest (count, number), sorted ascending. */
  method ComputeLeastFrequent(selectedDraws: seq<Draw>) returns (least: seq<int>)
    requires forall i :: 0 <= i < |selectedDraws| ==> InRange(selectedDraws[i])
    ensures IsLeastFrequent(least, selectedDraws)
  {
    var freq := ZeroTable();
    EmptyTally(freq, Overall);
    for i := 0 to |selectedDraws|
      invariant freq == Tally(selectedDraws[..i], Overall)
    {
      assert selectedDraws[..i + 1] == selectedDraws[..i] + [selectedDraws[i]];
      freq := CountPart(freq, selectedDraws[..i], selectedDraws[i], Overall, selectedDraws[i].numbers);
    }
    assert selectedDraws[..|selectedDraws|] == selectedDraws;
    least := SelectTop(freq, 15, LeastFrequent);
  }
}
