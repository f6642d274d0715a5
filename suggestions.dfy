/** What the two suggestions are, independently of how app.py and main.js
    compute them, and the flattening of the three hot columns into one list. */
module Suggestions {
  import opened Draws
  import opened Tables
  import opened Ranking

  /** The hot-columns suggestion for the draws: fifteen numbers, made of three
      blocks of five; block c is the top five of column c by (count descending,
      number ascending), in ascending order. */
  ghost predicate IsHotColumns(s: seq<int>, draws: seq<Draw>) {
    |s| == 15 &&
    forall c :: 0 <= c < 3 ==> IsSelection(s[5 * c..5 * c + 5], Tally(draws, Column(c)), 5, MostFrequent)
  }

  /** The least-frequent suggestion for the draws: the fifteen numbers with the
      lowest (count, number), in ascending order. */
  ghost predicate IsLeastFrequent(s: seq<int>, draws: seq<Draw>) {
    IsSelection(s, Tally(draws, Overall), 15, LeastFrequent)
  }

  /** The concatenation of the blocks, in order:
      `[num for col in columns for num in col]` and `topCols.flat()`. */
  function Flatten(columns: seq<seq<int>>): (r: seq<int>)
    ensures forall x :: x in r <==> exists c :: 0 <= c < |columns| && x in columns[c]
  {
    if columns == [] then []
    else
      var rest := Flatten(columns[1..]);
      assert forall c :: 1 <= c < |columns| ==> columns[c] == columns[1..][c - 1];
      columns[0] + rest
  }

  /** Flattening blocks of five puts block c at positions 5c to 5c + 4. */
  lemma {:induction false} FlattenBlocks(columns: seq<seq<int>>)
    requires forall c :: 0 <= c < |columns| ==> |columns[c]| == 5
    ensures |Flatten(columns)| == 5 * |columns|
    ensures forall c :: 0 <= c < |columns| ==> Flatten(columns)[5 * c..5 * c + 5] == columns[c]
  {
    if columns != [] {
      var rest := Flatten(columns[1..]);
      FlattenBlocks(columns[1..]);
      assert Flatten(columns) == columns[0] + rest;
      forall c | 0 <= c < |columns| ensures Flatten(columns)[5 * c..5 * c + 5] == columns[c] {
        if c > 0 {
          assert columns[1..][c - 1] == columns[c];
          assert rest[5 * (c - 1)..5 * (c - 1) + 5] == columns[c];
        }
      }
    }
  }

  /** The hot-columns suggestion is determined by the draws. */
  lemma HotColumnsUnique(draws: seq<Draw>, s1: seq<int>, s2: seq<int>)
    requires IsHotColumns(s1, draws) && IsHotColumns(s2, draws)
    ensures s1 == s2
  {
    var c0, c1, c2 := Tally(draws, Column(0)), Tally(draws, Column(1)), Tally(draws, Column(2));
    SelectionUnique(c0, 5, MostFrequent, s1[0..5], s2[0..5]);
    SelectionUnique(c1, 5, MostFrequent, s1[5..10], s2[5..10]);
    SelectionUnique(c2, 5, MostFrequent, s1[10..15], s2[10..15]);
    assert s1 == s1[0..5] + s1[5..10] + s1[10..15];
    assert s2 == s2[0..5] + s2[5..10] + s2[10..15];
  }

  /** The least-frequent suggestion is determined by the draws. */
  lemma LeastFrequentUnique(draws: seq<Draw>, s1: seq<int>, s2: seq<int>)
    requires IsLeastFrequent(s1, draws) && IsLeastFrequent(s2, draws)
    ensures s1 == s2
  {
    SelectionUnique(Tally(draws, Overall), 15, LeastFrequent, s1, s2);
  }
}
