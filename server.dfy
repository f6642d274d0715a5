/** The server-side analysis of app.py: `filter_draws`, `compute_frequency`,
    `compute_column_frequency`, `compute_least_frequent` and the flattening of
    the hot columns in `api_suggestions`. */
module Server {
  import opened Sequences
  import opened Draws
  import opened Tables
  import opened Ranking
  import opened Suggestions

  /** `filter_draws`: the period's window of the list, anchored at the date
      of its last draw (the list is expected sorted by date ascending); no
      draws give no draws. */
  function FilterDraws(draws: seq<Draw>, period: string): (r: seq<Draw>)
    ensures draws == [] <==> r == []
    ensures draws != [] ==> r[|r| - 1] == draws[|draws| - 1]
    ensures IsSubsequence(r, draws)
    ensures draws != [] && ParsePeriod(period).Days? ==>
      var cutoff := draws[|draws| - 1].date - ParsePeriod(period).days;
      (forall d :: d in r ==> d.date >= cutoff) &&
      (forall i :: 0 <= i < |draws| && draws[i].date >= cutoff ==> draws[i] in r)
    ensures ParsePeriod(period) == LastTen ==>
      |r| == (if |draws| < 10 then |draws| else 10) && r == draws[|draws| - |r|..]
    ensures ParsePeriod(period) == Everything ==> r == draws
  {
    if draws == [] then []
    else
      WindowKeepsLast(draws, ParsePeriod(period));
      WindowIsSubsequence(draws, ParsePeriod(period));
      WindowCounts(draws, ParsePeriod(period));
      WindowDays(draws, ParsePeriod(period));
      Window(draws, ParsePeriod(period))
  }

  /** `compute_frequency`: a count for each of 1..25 over all numbers of all draws. */
  method ComputeFrequency(draws: seq<Draw>) returns (freq: map<int, nat>)
    requires forall i :: 0 <= i < |draws| ==> InRange(draws[i])
    ensures freq == Tally(draws, Overall)
  {
    freq := Zeros;
    assert freq == Tally([], Overall);
    for i := 0 to |draws|
      invariant freq == Tally(draws[..i], Overall)
    {
      var before := freq;
      freq := AddOccurrences(freq, draws[i].numbers);
      assert draws[..i + 1] == draws[..i] + [draws[i]];
      TallyAppend(draws[..i], draws[i], Overall, before, freq);
    }
    assert draws[..|draws|] == draws;
  }

  /** `compute_column_frequency`: per column, the counts of the numbers at
      positions 5c to 5c + 4 of each draw's sorted numbers, and of those counts
      the top five by (count descending, number ascending), sorted ascending. */
  method ComputeColumnFrequency(draws: seq<Draw>) returns (topCols: seq<seq<int>>)
    requires forall i :: 0 <= i < |draws| ==> InRange(draws[i])
    ensures |topCols| == 3
    ensures forall c :: 0 <= c < 3 ==> IsSelection(topCols[c], Tally(draws, Column(c)), 5, MostFrequent)
  {
    var colFreq := [Zeros, Zeros, Zeros];
    assert forall c :: 0 <= c < 3 ==> colFreq[c] == Tally([], Column(c));
    for i := 0 to |draws|
      invariant |colFreq| == 3
      invariant forall c :: 0 <= c < 3 ==> colFreq[c] == Tally(draws[..i], Column(c))
    {
      assert draws[..i + 1] == draws[..i] + [draws[i]];
      colFreq := AddToColumns(colFreq, draws[..i], draws[i]);
    }
    assert draws[..|draws|] == draws;
    topCols := TopOfColumns(colFreq);
  }

  /** The body of the draw loop of `compute_column_frequency`: the draw's
      numbers are sorted and each slice of five is counted in its column. */
  method AddToColumns(colFreq: seq<map<int, nat>>, counted: seq<Draw>, d: Draw)
    returns (r: seq<map<int, nat>>)
    requires InRange(d)
    requires |colFreq| == 3 && forall c :: 0 <= c < 3 ==> colFreq[c] == Tally(counted, Column(c))
    ensures |r| == 3 && forall c :: 0 <= c < 3 ==> r[c] == Tally(counted + [d], Column(c))
  {
    var sortedNums := SortAsc(d.numbers);
    SortedInRange(d);
    r := colFreq;
    for col := 0 to 3
      invariant |r| == 3
      invariant forall c :: 0 <= c < col ==> r[c] == Tally(counted + [d], Column(c))
      invariant forall c :: col <= c < 3 ==> r[c] == Tally(counted, Column(c))
    {
      var after := CountColumn(r[col], counted, d, sortedNums, col);
      r := r[col := after];
    }
  }

  /** `for num in sorted_nums[start:end]: col_freq[col][num] += 1` with
      start = 5 * col and end = start + 5. */
  method CountColumn(table: map<int, nat>, counted: seq<Draw>, d: Draw, sortedNums: seq<int>, col: nat)
    returns (r: map<int, nat>)
    requires sortedNums == SortAsc(d.numbers)
    requires forall i :: 0 <= i < |sortedNums| ==> 1 <= sortedNums[i] <= 25
    requires table == Tally(counted, Column(col))
    ensures r == Tally(counted + [d], Column(col))
  {
    var start := col * 5;
    var end := start + 5;
    SliceInRange(sortedNums, start, end);
    r := CountPart(table, counted, d, Column(col), Slice(sortedNums, start, end));
  }

  /** `compute_least_frequent`: the fifteen numbers with the lowest
      (count, number), sorted ascending. */
  method ComputeLeastFrequent(draws: seq<Draw>) returns (least: seq<int>)
    requires forall i :: 0 <= i < |draws| ==> InRange(draws[i])
    ensures IsLeastFrequent(least, draws)
  {
    var freq := ComputeFrequency(draws);
    least := SelectTop(freq, 15, LeastFrequent);
  }

  /** The first strategy of `api_suggestions`: the three hot columns of the
      filtered draws, flattened in column order into one list of fifteen. */
  method HotColumns(filtered: seq<Draw>) returns (strategy1: seq<int>)
    requires forall i :: 0 <= i < |filtered| ==> InRange(filtered[i])
    ensures IsHotColumns(strategy1, filtered)
  {
    var columns := ComputeColumnFrequency(filtered);
    strategy1 := Flatten(columns);
    FlattenBlocks(columns);
  }
}
