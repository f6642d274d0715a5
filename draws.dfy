/** Lotofácil draws and the date windows the period filters cut out of them.
    A date is an integer day number, so "date minus 7 days" is a subtraction. */
module Draws {
  import opened Sequences

  /** One completed draw: its contest number, its day number and its numbers. */
  datatype Draw = Draw(contest: int, date: int, numbers: seq<int>)

  /** Every number of the draw lies in 1..25 (the keys of a frequency table). */
  predicate InRange(d: Draw) {
    forall i :: 0 <= i < |d.numbers| ==> 1 <= d.numbers[i] <= 25
  }

  /** A well-formed draw: fifteen distinct numbers in 1..25. */
  predicate WellFormed(d: Draw) {
    |d.numbers| == 15 && Distinct(d.numbers) && InRange(d)
  }

  predicate SortedByDate(ds: seq<Draw>) {
    forall i, j :: 0 <= i < j < |ds| ==> ds[i].date <= ds[j].date
  }

  /** The last draw of a non-empty list. */
  function Last(ds: seq<Draw>): Draw
    requires ds != []
  {
    ds[|ds| - 1]
  }

  /** The date of the most recent draw of a non-empty list. */
  function LatestDate(ds: seq<Draw>): (m: int)
    requires ds != []
    ensures exists i :: 0 <= i < |ds| && ds[i].date == m
    ensures forall i :: 0 <= i < |ds| ==> ds[i].date <= m
  {
    if |ds| == 1 then ds[0].date
    else
      var rest := LatestDate(ds[1..]);
      assert forall i :: 1 <= i < |ds| ==> ds[i] == ds[1..][i - 1];
      if ds[0].date >= rest then ds[0].date else rest
  }

  /** What a period string selects. */
  datatype Period =
    | Days(days: nat)  // the draws of the last `days` days before the latest draw, inclusive
    | LastTen          // the last ten draws
    | Everything       // every draw

  /** The period strings the filters recognise; any other string selects every draw. */
  function ParsePeriod(period: string): (p: Period)
    ensures p == Days(7) <==> period == "last_week"
    ensures p == Days(30) <==> period == "last_month"
    ensures p == LastTen <==> period == "last_10"
    ensures p.Days? ==> p.days == 7 || p.days == 30
  {
    if period == "last_week" then Days(7)
    else if period == "last_month" then Days(30)
    else if period == "last_10" then LastTen
    else Everything
  }

  /** The draws dated on or after cutoff, in their original order:
      the comprehension `[d for d in draws if d.date >= cutoff]`. */
  function OnOrAfter(ds: seq<Draw>, cutoff: int): (r: seq<Draw>)
    ensures |r| <= |ds|
  {
    if ds == [] then []
    else if ds[0].date >= cutoff then [ds[0]] + OnOrAfter(ds[1..], cutoff)
    else OnOrAfter(ds[1..], cutoff)
  }

  /** The filter keeps the order of the draws it keeps. */
  lemma {:induction false} OnOrAfterSubsequence(ds: seq<Draw>, cutoff: int)
    ensures IsSubsequence(OnOrAfter(ds, cutoff), ds)
  {
    if ds != [] {
      var rest := OnOrAfter(ds[1..], cutoff);
      OnOrAfterSubsequence(ds[1..], cutoff);
      if ds[0].date >= cutoff {
        assert OnOrAfter(ds, cutoff) == [ds[0]] + rest;
        assert ([ds[0]] + rest)[1..] == rest;
      }
    }
  }

  /** The filter keeps only draws dated on or after the cutoff and keeps every such draw. */
  lemma {:induction false} OnOrAfterSpec(ds: seq<Draw>, cutoff: int)
    ensures forall d :: d in OnOrAfter(ds, cutoff) ==> d in ds && d.date >= cutoff
    ensures forall i :: 0 <= i < |ds| && ds[i].date >= cutoff ==> ds[i] in OnOrAfter(ds, cutoff)
  {
    if ds != [] {
      var rest := OnOrAfter(ds[1..], cutoff);
      OnOrAfterSpec(ds[1..], cutoff);
      assert forall i :: 1 <= i < |ds| ==> ds[i] == ds[1..][i - 1];
      if ds[0].date >= cutoff {
        assert OnOrAfter(ds, cutoff) == [ds[0]] + rest;
      }
    }
  }

  /** The last n draws, or all of them when there are fewer: Python's
      `draws[-n:] if len(draws) >= n else draws` and JavaScript's `slice(-n)`. */
  function Latest(ds: seq<Draw>, n: nat): (r: seq<Draw>)
    ensures |r| == if |ds| < n then |ds| else n
    ensures r == ds[|ds| - |r|..]
  {
    if |ds| >= n then ds[|ds| - n..] else ds
  }

  lemma SuffixSorted(ds: seq<Draw>, k: nat)
    requires SortedByDate(ds) && k <= |ds|
    ensures SortedByDate(ds[k..])
  {
    assert forall i :: 0 <= i < |ds| - k ==> ds[k..][i] == ds[k + i];
  }

  /** In a list sorted by date no draw is later than the last one. */
  lemma SortedAtMostLast(ds: seq<Draw>, j: nat)
    requires SortedByDate(ds) && j < |ds|
    ensures ds[j].date <= ds[|ds| - 1].date
  {
  }

  /** A draw no later than the first of a sorted list can go in front of it. */
  lemma ConsSorted(x: Draw, ds: seq<Draw>)
    requires SortedByDate(ds) && (ds == [] || x.date <= ds[0].date)
    ensures SortedByDate([x] + ds)
  {
    forall i, j | 0 <= i < j < |ds| + 1 ensures ([x] + ds)[i].date <= ([x] + ds)[j].date {
      assert ([x] + ds)[j] == ds[j - 1];
      if i > 0 { assert ([x] + ds)[i] == ds[i - 1]; }
    }
  }

  /** A window that every draw reaches keeps every draw. */
  lemma {:induction false} OnOrAfterKeepsAll(ds: seq<Draw>, cutoff: int)
    requires forall i :: 0 <= i < |ds| ==> ds[i].date >= cutoff
    ensures OnOrAfter(ds, cutoff) == ds
  {
    if ds != [] {
      OnOrAfterKeepsAll(ds[1..], cutoff);
      assert ds == [ds[0]] + ds[1..];
    }
  }

  /** On draws sorted by date the filter keeps a suffix of the list. */
  lemma {:induction false} OnOrAfterIsSuffix(ds: seq<Draw>, cutoff: int)
    requires SortedByDate(ds)
    ensures OnOrAfter(ds, cutoff) == ds[|ds| - |OnOrAfter(ds, cutoff)|..]
  {
    if ds != [] {
      if ds[0].date >= cutoff {
        forall i | 0 <= i < |ds| ensures ds[i].date >= cutoff {
          if i > 0 { assert ds[0].date <= ds[i].date; }
        }
        OnOrAfterKeepsAll(ds, cutoff);
        assert ds[0..] == ds;
      } else {
        SuffixSorted(ds, 1);
        OnOrAfterIsSuffix(ds[1..], cutoff);
        var r := OnOrAfter(ds[1..], cutoff);
        assert ds[1..][|ds| - 1 - |r|..] == ds[|ds| - |r|..];
      }
    }
  }

  /** On draws sorted by date everything before the kept suffix is older than the cutoff. */
  lemma {:induction false} OnOrAfterDropsOlder(ds: seq<Draw>, cutoff: int)
    requires SortedByDate(ds)
    ensures forall i :: 0 <= i < |ds| - |OnOrAfter(ds, cutoff)| ==> ds[i].date < cutoff
  {
    if ds != [] && ds[0].date >= cutoff {
      forall i | 0 <= i < |ds| ensures ds[i].date >= cutoff {
        if i > 0 { assert ds[0].date <= ds[i].date; }
      }
      OnOrAfterKeepsAll(ds, cutoff);
    } else if ds != [] {
      SuffixSorted(ds, 1);
      OnOrAfterDropsOlder(ds[1..], cutoff);
      var r := OnOrAfter(ds[1..], cutoff);
      assert OnOrAfter(ds, cutoff) == r;
      forall i | 1 <= i < |ds| - |r| ensures ds[i].date < cutoff {
        assert ds[i] == ds[1..][i - 1];
      }
    }
  }

  /** A window that reaches the latest draw's date keeps that draw, last. */
  lemma {:induction false} OnOrAfterKeepsLast(ds: seq<Draw>, cutoff: int)
    requires ds != [] && ds[|ds| - 1].date >= cutoff
    ensures var r := OnOrAfter(ds, cutoff); r != [] && r[|r| - 1] == ds[|ds| - 1]
  {
    var tail := ds[1..];
    if tail == [] {
      assert OnOrAfter(ds, cutoff) == [ds[0]];
    } else {
      OnOrAfterKeepsLast(tail, cutoff);
      var rest := OnOrAfter(tail, cutoff);
      assert tail[|tail| - 1] == ds[|ds| - 1];
      assert OnOrAfter(ds, cutoff) == rest || OnOrAfter(ds, cutoff) == [ds[0]] + rest;
    }
  }

  /** The draws a period keeps from a non-empty list, anchored at the date of
      its last draw: the draws on or after that date less the period's days,
      the last ten draws, or all of them. */
  function Window(ds: seq<Draw>, p: Period): (r: seq<Draw>)
    requires ds != []
    ensures |r| <= |ds|
  {
    match p
    case Days(n) => OnOrAfter(ds, ds[|ds| - 1].date - n)
    case LastTen => Latest(ds, 10)
    case Everything => ds
  }

  /** Every window keeps the last draw of the list, as its own last draw. */
  lemma WindowKeepsLast(ds: seq<Draw>, p: Period)
    requires ds != []
    ensures var r := Window(ds, p); r != [] && r[|r| - 1] == ds[|ds| - 1]
  {
    if p.Days? {
      OnOrAfterKeepsLast(ds, ds[|ds| - 1].date - p.days);
    }
  }

  /** Every window keeps its draws in the order of the list. */
  lemma WindowIsSubsequence(ds: seq<Draw>, p: Period)
    requires ds != []
    ensures IsSubsequence(Window(ds, p), ds)
  {
    match p
    case Days(n) =>
      OnOrAfterSubsequence(ds, ds[|ds| - 1].date - n);
    case LastTen =>
      SuffixIsSubsequence(ds, |ds| - |Latest(ds, 10)|);
    case Everything =>
      SuffixIsSubsequence(ds, 0);
      assert ds[0..] == ds;
  }

  /** The last-ten window is the last min(10, n) draws; the everything window is the list. */
  lemma WindowCounts(ds: seq<Draw>, p: Period)
    requires ds != []
    ensures var r := Window(ds, p);
      (p == LastTen ==> |r| == (if |ds| < 10 then |ds| else 10) && r == ds[|ds| - |r|..]) &&
      (p == Everything ==> r == ds)
  {
  }

  /** A window of days keeps exactly the draws dated on or after the latest
      date less the days (the bound is inclusive). */
  lemma WindowDays(ds: seq<Draw>, p: Period)
    requires ds != []
    ensures p.Days? ==>
      var r := Window(ds, p);
      var cutoff := ds[|ds| - 1].date - p.days;
      (forall d :: d in r ==> d.date >= cutoff) &&
      (forall i :: 0 <= i < |ds| && ds[i].date >= cutoff ==> ds[i] in r)
  {
    if p.Days? {
      var cutoff := ds[|ds| - 1].date - p.days;
      OnOrAfterSpec(ds, cutoff);
      assert Window(ds, p) == OnOrAfter(ds, cutoff);
    }
  }

  /** On draws sorted by date every window is a suffix of the list. */
  lemma WindowIsSuffix(ds: seq<Draw>, p: Period)
    requires ds != [] && SortedByDate(ds)
    ensures var r := Window(ds, p); r == ds[|ds| - |r|..]
  {
    match p
    case Days(n) =>
      var cutoff := ds[|ds| - 1].date - n;
      OnOrAfterIsSuffix(ds, cutoff);
      assert Window(ds, p) == OnOrAfter(ds, cutoff);
    case LastTen =>
      assert Window(ds, p) == Latest(ds, 10);
    case Everything =>
      assert Window(ds, p) == ds == ds[0..];
  }

  /** On draws sorted by date every window is sorted by date. */
  lemma WindowSorted(ds: seq<Draw>, p: Period)
    requires ds != [] && SortedByDate(ds)
    ensures SortedByDate(Window(ds, p))
  {
    WindowIsSuffix(ds, p);
    SuffixSorted(ds, |ds| - |Window(ds, p)|);
  }

  /** On draws sorted by date a window of days leaves out exactly the draws
      dated before the cutoff, and they all come before the window. */
  lemma WindowIsExact(ds: seq<Draw>, p: Period)
    requires ds != [] && SortedByDate(ds) && p.Days?
    ensures var r := Window(ds, p);
      var cutoff := ds[|ds| - 1].date - p.days;
      (forall i :: 0 <= i < |ds| - |r| ==> ds[i].date < cutoff) &&
      (forall i :: |ds| - |r| <= i < |ds| ==> ds[i].date >= cutoff)
  {
    var cutoff := ds[|ds| - 1].date - p.days;
    var r := OnOrAfter(ds, cutoff);
    assert Window(ds, p) == r;
    OnOrAfterDropsOlder(ds, cutoff);
    OnOrAfterIsSuffix(ds, cutoff);
    OnOrAfterSpec(ds, cutoff);
    forall i | |ds| - |r| <= i < |ds| ensures ds[i].date >= cutoff {
      assert ds[i] == r[i - (|ds| - |r|)];
      assert ds[i] in r;
    }
  }
}
