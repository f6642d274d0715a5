# Lotofácil suggestions: a Dafny model

This project models the analysis core of a Lotofácil number-suggestion app. A
Lotofácil draw has a contest number, a date and fifteen distinct numbers in
1..25. The app holds the history of draws and produces two suggestions from
them: "hot columns" and "least frequent". It does this twice, once on the Flask
server (`app.py`) and once in the browser (`main.js`). Both versions take the
same three steps:

1. **Period filter** (`filter_draws`, `filterDraws`). The period is one of:
   - `last_week`: draws dated on or after the latest draw's date minus 7 days;
   - `last_month`: the same with 30 days;
   - `last_10`: the last ten draws;
   - anything else: every draw.

   The anchor is the date of the last draw in the list, not the clock. The
   server trusts the list to be in date order. The browser first sorts a copy
   by date.
2. **Counting** (`compute_frequency`, `compute_column_frequency`, and the
   `Map` loops of `computeColumnStrategy` / `computeLeastFrequent`). Each table
   starts at 0 for every number 1..25.
   - The overall table counts every number of every draw.
   - Column c counts the numbers at positions 5c to 5c + 4 of each draw's
     numbers sorted ascending.
3. **Selection**. The items of a table are sorted in place by a key.
   - Hot columns: per column, the key is (count descending, number
     ascending). The first five are kept and sorted ascending, and the three
     blocks are concatenated.
   - Least frequent: the key is (count, number). The first fifteen are kept
     and sorted ascending.

Modules:
- `Sequences`: ascending sort, distinctness and subsequences.
- `Draws`: the `Draw` datatype, periods and the date windows.
- `Tables`: frequency tables as `map<int, nat>` with keys 1..25.
  - `Tally` is the reference table of a list of draws for a `Scope`
    (overall or column c).
  - The counting loops are proved equal to it.
- `Ranking`: the in-place rank sort on an `array<int>` of the 25 items, and
  the top-k selection.
  - The selection is specified relationally by `IsSelection`: k distinct
    numbers of 1..25, ascending, each ranking before every number left out.
  - It is proved to have exactly one answer.
- `Suggestions`: what the two suggestions are, independently of either
  implementation.
- `Server`: `app.py`.
- `Client`: `main.js`.

Dates are integer day numbers, so `today - timedelta(days=30)` and
`setDate(getDate() - 30)` are subtractions. The list of draws that both
programs read, a global in `main.js`, is a parameter here.

## Model

| member | source | states |
|---|---|---|
| Draws.ParsePeriod | app.py:110-119 | `last_week` selects 7 days and `last_month` 30 days, `last_10` the last ten; each holds exactly for its own string, and every other string selects everything |
| Draws.OnOrAfter | app.py:110-115 | the comprehension `[d for d in draws if d.date >= cutoff]` (and `sorted.filter(d => d.date >= cutoff)` at main.js:82 and 86) is never longer than its list; what it keeps is stated by the four lemmas below |
| Draws.OnOrAfterSubsequence | app.py:112 | the comprehension `[d for d in draws if d.date >= cutoff]` keeps its draws in list order |
| Draws.OnOrAfterSpec | app.py:112 | the comprehension keeps only draws dated on or after the cutoff, and keeps every such draw |
| Draws.OnOrAfterKeepsLast | app.py:108-115 | when the last draw reaches the cutoff, it is kept as the last draw of the result |
| Draws.OnOrAfterIsSuffix | app.py:112 | on a date-sorted list the comprehension keeps a suffix of the list |
| Draws.OnOrAfterDropsOlder | app.py:112 | on a date-sorted list every draw before that suffix is older than the cutoff |
| Draws.Latest | app.py:117 | `draws[-10:] if len(draws) >= 10 else draws` is the last min(10, n) draws |
| Draws.Window | app.py:108-120 | the window a period cuts from a non-empty list is never longer than the list |
| Draws.WindowKeepsLast | app.py:108-120 | every period keeps the last draw of the list, as the last draw of the result |
| Draws.WindowIsSubsequence | app.py:110-120 | every period's result is an order-preserving subsequence of the list |
| Draws.WindowCounts | app.py:116-119 | `last_10` gives the last min(10, n) draws; every other unrecognised period gives the list unchanged |
| Draws.WindowDays | app.py:110-115 | a window of 7 or 30 days keeps exactly the draws dated on or after the last date minus the days; the bound is inclusive |
| Draws.WindowIsSuffix | app.py:108-120 | on a date-sorted list every period keeps a suffix |
| Draws.WindowSorted | app.py:108-120 | on a date-sorted list every period's result is sorted by date |
| Draws.WindowIsExact | app.py:110-115 | on a date-sorted list a window of days leaves out exactly the draws before the cutoff, and all of them precede the window |
| Server.FilterDraws | app.py:105-120 | `filter_draws` is empty exactly when the input is. It keeps the last draw, last, and is a subsequence of the input. Days windows are exact with an inclusive cutoff anchored at the last draw. `last_10` is the last min(10, n) draws, and any other period the whole list |
| Sequences.SortAsc | app.py:152 | `sorted(...)` is an ascending permutation of its argument |
| Sequences.SortAscDistinct | app.py:166 | sorting distinct numbers gives a strictly ascending list |
| Tables.Tally | app.py:125 | the reference table of the draws has a key for each of 1..25 and no other |
| Tables.ZerosTable | app.py:125 | `{n: 0 for n in range(1, 26)}`, also used for each column at app.py:149, has keys exactly 1..25, all 0, and is the table of no draws |
| Tables.ColumnsPartition | app.py:152-156 | for a draw of fifteen numbers, the overall scope is its numbers and column c is positions 5c to 5c + 4 of its sorted numbers (as main.js:104-109 also reads them); the three columns together are the sorted numbers |
| Tables.AddOccurrences | app.py:127-128 | `for num in nums: freq[num] += 1` adds each number's multiplicity to its count and keeps the keys 1..25 |
| Server.ComputeFrequency | app.py:123-129 | `compute_frequency` returns the reference overall table of the draws |
| Tables.FrequencyTotal | app.py:125-129 | for draws of fifteen numbers in 1..25 the overall counts sum to 15 per draw |
| Tables.OccurrencesAtMostDraws | app.py:125-129 | for well-formed draws no count exceeds the number of draws |
| Tables.TallyTotal | main.js:130-136 | the counts of a table sum to the number of numbers it counted |
| Tables.ColumnTotal | app.py:149-157 | for draws of at least fifteen numbers, each column's counts sum to 5 per draw |
| Tables.SizeUniform | app.py:153-157 | when every draw contributes the same number of values, they add up to that number per draw |
| Tables.PartDistinct | app.py:152-157 | the numbers a well-formed draw contributes to a table never repeat |
| Tables.SortedInRange | app.py:152 | sorting a draw's numbers keeps them in 1..25 |
| Tables.Slice | app.py:156 | Python's clamped slice `s[lo:hi]`: its length and its elements |
| Tables.CountPart | app.py:156-157 | counting one more draw's numbers of a scope turns the table of the draws before it into the table including it |
| Server.CountColumn | app.py:154-157 | counting `sorted_nums[col*5 : col*5+5]` into column col's table gives that column's table including the draw |
| Server.AddToColumns | app.py:151-157 | one pass of the draw loop updates all three column tables to include the draw |
| Server.ComputeColumnFrequency | app.py:132-167 | `compute_column_frequency` returns three lists; list c is the top-five selection by (count descending, number ascending) of column c's table of the draws |
| Ranking.Items | app.py:162 | the items of a table are the numbers 1..25, each once, in key order |
| Ranking.KeyOrder | app.py:164 | the keys `(-count, number)` of app.py:164 and main.js:118-121 put a higher count first; the keys `(count, number)` of app.py:179 and main.js:138-141 put a lower count first; equal keys mean equal counts |
| Ranking.RanksBeforeOrder | app.py:164 | comparing (key, number) is a strict total order: irreflexive, exactly one of two different numbers sorts first, and transitive, so the in-place sorts have a single result |
| Ranking.RankSort | app.py:164 | the in-place sort of the items leaves a permutation in which no element ranks before an earlier one |
| Ranking.SinkLast | app.py:164 | one insertion step keeps the array a permutation, extends the ranked prefix by one and leaves the elements after it unchanged |
| Ranking.Swap | app.py:164 | exchanging two neighbours permutes the array |
| Ranking.ItemsPermutation | app.py:162 | any rearrangement of the items holds each of 1..25 exactly once |
| Ranking.PrefixRanksFirst | app.py:165 | in a ranked rearrangement of the items, the first k rank before every other number |
| Ranking.TopOfRanking | app.py:164-166 | sorting the items by rank, keeping the first k and sorting them ascending gives the selection for k |
| Ranking.SelectTop | app.py:162-166 | the selected k numbers are ascending, distinct, in 1..25, and each ranks before every number left out |
| Ranking.SelectionUnique | app.py:164-166 | two selections for the same table and k are equal, so the result does not depend on how ties are met |
| Ranking.TopOfColumns | app.py:160-167 | the second loop of `compute_column_frequency` gives the top-five selection of each column table |
| Server.ComputeLeastFrequent | app.py:170-181 | `compute_least_frequent` returns the fifteen numbers with the lowest (count, number) of the draws, ascending |
| Suggestions.Flatten | app.py:205 | `[num for col in columns for num in col]` and `topCols.flat()` (main.js:126) hold exactly the numbers of the blocks |
| Suggestions.FlattenBlocks | app.py:205 | flattening blocks of five gives 5 entries per block, with block c at positions 5c to 5c + 4 |
| Server.HotColumns | app.py:204-205 | `strategy1` has fifteen entries, and block c is the top-five selection of column c of the filtered draws |
| Suggestions.HotColumnsUnique | app.py:204-205 | the hot-columns suggestion is determined by the draws |
| Suggestions.LeastFrequentUnique | app.py:176-181 | the least-frequent suggestion is determined by the draws |
| Client.InsertByDate | main.js:76 | inserting into a date-sorted list keeps it sorted and adds exactly the one draw |
| Client.SortByDate | main.js:76 | `draws.slice().sort((a, b) => a.date - b.date)` is a date-sorted permutation of the draws |
| Client.InsertOnDate | main.js:76 | insertion puts a draw ahead of the draws of its own date |
| Client.SortByDateStable | main.js:76 | the sort is stable: the draws of each date keep their relative order |
| Client.SortByDateSorted | main.js:76 | a list already in date order is left unchanged |
| Client.LastIsLatest | main.js:77 | the last draw of the sorted copy carries the latest date of the list |
| Client.FilterDraws | main.js:73-92 | `filterDraws` never returns more draws than it was given |
| Client.FilterSpec | main.js:74-92 | the result is empty exactly when there are no draws, is sorted by date, is drawn from the draws, and ends with a draw of the latest date |
| Client.FilterKeepsLast | main.js:77-91 | the result of every period ends with the last draw of the sorted copy, the draw `lastDate` is read from |
| Client.FilterDays | main.js:79-86 | `last_week` / `last_month` keep exactly the draws dated on or after the latest date minus 7 / 30 days |
| Client.FilterDaysExact | main.js:79-86 | `last_week` / `last_month` give exactly the suffix of the sorted copy whose draws reach the cutoff; every draw of the copy before it is older |
| Client.FilterLastTen | main.js:87-88 | `last_10` gives the last min(10, n) draws of the sorted copy |
| Client.FilterEverything | main.js:89-91 | any other period gives the whole sorted copy |
| Client.SortedWindow | main.js:76-91 | a window of any date-sorted rearrangement of the draws is sorted, is drawn from the draws, and ends at the latest date. Its days windows are exact with respect to the original list |
| Client.SortedWindowExact | main.js:76-86 | a days window of a date-sorted rearrangement is a suffix of it, and everything before that suffix is older than the latest date of the list less the days |
| Client.ClientMatchesServer | main.js:73-92 | on draws already in date order, `filterDraws` and `filter_draws` give the same result |
| Client.ZeroTable | main.js:131 | `for (let n = 1; n <= 25; n++) m.set(n, 0)` gives a table with keys exactly 1..25, all 0 |
| Client.NewColumnTables | main.js:96-102 | the three column maps start as the tables of no draws |
| Client.AddToColumns | main.js:103-113 | one `forEach` step counts positions 5c to 5c + 4 of the sorted numbers into column c, giving the tables including the draw |
| Client.ComputeColumnStrategy | main.js:94-127 | `computeColumnStrategy` returns fifteen numbers; block c is the top-five selection by (count descending, number ascending) of column c |
| Client.ComputeLeastFrequent | main.js:129-144 | `computeLeastFrequent` returns the fifteen numbers with the lowest (count, number), ascending |

## Left out

- The docstring of `compute_column_frequency` (app.py:144-146) says each returned list is sorted by descending frequency. Line 166 sorts each list ascending, and the model follows line 166.

- Fetching and storing draws (`fetch_draws`, `update_data.py`, `api/update.js`) is I/O. The draw list these produce is a parameter.
- Date parsing (`Draw.from_api`, `parseDate`) is left out. Dates are integer day numbers, and calendar and time-zone effects of `Date.setDate` are not modelled.
- The Flask routes (`index`, the rest of `api_suggestions` including its JSON error response, `app.run`) are web plumbing; only the flattening at app.py:205 is modelled.
- The DOM and UI code of `main.js` (`renderRecentDraws`, the form handlers) and all of `static/js/main.js` are not part of this model.
- Malformed draws are excluded by preconditions rather than modelled.
  - Python raises `KeyError` for a number outside 1..25, so the counting methods require numbers in 1..25.
  - Python's column slices clamp, so `Server` accepts draws of any length.
  - `main.js` reads `sortedNums[i]` for i up to 14. For a shorter draw that value is `undefined`, and `colFreq[c].set(undefined, NaN)` adds a 26th key `undefined`. Its `NaN` comparisons can rank it into a top five. So `Client.AddToColumns` and `Client.ComputeColumnStrategy` require at least fifteen numbers.
- Client.FilterSpec: states that the last draw of the result has the latest date. Which draw of that date it is, the last of the sorted copy, is stated by `Client.FilterKeepsLast`.
- The `(number, count)` pairs of `items()` / `entries()` are modelled as the array of numbers 1..25 in key order, with each count looked up in the table. The pairs carry no other information.
- `filterDraws` sorting a copy, so the global list keeps its order, holds by the value semantics of Dafny sequences. It is not stated separately.
- Pattern fitting, per-column sequence ranking, cross-column de-duplication and cyclic rotation appear in no source file of this model and are not modelled.
