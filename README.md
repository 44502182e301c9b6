# Advent of Code 2025, days 1–8, in Dafny

A verified model of the eight puzzle solvers `day01.py` … `day08.py`. Each day is
one module (`Day01` … `Day08`). Four shared modules support them:

- `Wrappers`: `Option` and `Result`. An `Error` stands for the exception the Python code would raise: `ParseError` for a `ValueError` from `int()` or from tuple unpacking, `IndexError` for Python's `IndexError`, `NotFound` for a failed search.
- `Text`: decimal digits, `int()` on digit strings, `str.split`, `str.strip` and the lines of a stripped text.
- `Sorting`: an insertion sort by a total order. It stands in for `sorted` and `list.sort`, and the sorted result is proved unique.
- `Grids`: character grids as lists of equal-length rows.

Each solver is modelled as follows:

- **Day 1** turns a 100-position dial.
  - Part 1 counts the rotations that end at 0, by the source's modular update.
  - Part 2 counts the clicks that pass 0, by the source's closed formulas.
  - Both formulas are proved equal to stepping the dial one click at a time.
- **Day 2** sums the product IDs in the ranges whose digits repeat.
  - The part 1 rule is proved equivalent to "some string written twice".
  - The part 2 search loop is proved equivalent to "some string written at least twice".
  - Part 2's total is proved never below part 1's.
- **Day 3**: the pair search is proved to return the largest two-digit joltage. The greedy k-battery choice is proved optimal over every order-preserving selection.
- **Day 4** counts accessible rolls in one scan (part 1), then removes accessible rolls round by round until none is left (part 2). The rounds are a function on the grid. The removed rolls are proved to be exactly those missing from the settled grid.
- **Day 5**: part 1 counts fresh IDs. For part 2, the range merge is proved to cover exactly the same IDs as the input ranges with disjoint, ascending ranges, so the sum of merged lengths counts the covered IDs.
- **Day 6**: the column split is proved to be the unique list of maximal non-blank runs. Both readings of the worksheet are totals over it.
- **Day 7**: the breadth-first beam simulation is proved to count exactly the splitters a beam reaches. The memoised timeline count is proved equal to the plain recursion.
- **Day 8**: the union-find `DisjointSet` is a class with `parent`, `rank` and `size` fields.
  - Its state is a value, a `Forest`, and `find` and `union` are proved against functions on it.
  - Proved for a consistent forest: roots are preserved, a union merges exactly two circuits and stored sizes stay correct.
  - Part 1 replays the `budget` closest pairs.
  - Part 2 returns the first pair that leaves one circuit, and is proved to find it whenever there are two or more boxes.

For days 1 to 7, `DayNN.Part1` and `DayNN.Part2` take the input text as the Python `partN` does, and split and strip it the same way. Each is a thin driver over a method on the parsed values. Day 8's parts take the list `data.splitlines()` returns. The exception cases each step can raise are modelled as `Err` results.

## Model

| member | source | states |
|---|---|---|
| Day01.ParseRotation | day01/day01.py:13-14 | a line parses exactly when it has a direction character followed by a non-empty digit string, giving that character and the digits' value; an empty line is an IndexError, any other bad line a ValueError |
| Day01.ParseRotations | day01/day01.py:12-14 | all lines parse, giving their rotations in order; or the error is that of the first line that does not parse |
| Day01.ParseFormattedRotation | day01/day01.py:13-14 | parsing the text of a rotation gives the rotation back |
| Day01.Turn | day01/day01.py:16-19 | the dial after one rotation is a position in 0..99 |
| Day01.TurnIsClicks | day01/day01.py:16-19 | the modular update equals turning the dial one click at a time, `distance` times |
| Day01.RightCrossings | day01/day01.py:37-38 | `(position + distance) // 100` is the number of right clicks that land on 0 |
| Day01.LeftCrossings | day01/day01.py:39-43 | both left-turn formulas, from 0 and from elsewhere, count the left clicks that land on 0 |
| Day01.CountLandings | day01/day01.py:9-22 | the count is the number of rotations that end at 0, never more than there are rotations |
| Day01.Part1 | day01/day01.py:6-24 | the first bad line's error, or the number of rotations that end at 0 |
| Day01.CountZeroClicks | day01/day01.py:29-49 | for L/R rotations, the count is the number of single clicks, over all rotations, that land on 0 |
| Day01.Part2 | day01/day01.py:26-51 | the first bad line's error; otherwise a count, which for L/R rotations is the number of single clicks that land on 0 |
| Day02.InvalidPart1IsDoubling | day02/day02.py:11-29 | the even-length, equal-halves test holds exactly when the decimal digits are some string written twice |
| Day02.IsInvalidPart2 | day02/day02.py:32-54 | the pattern-length loop returns true exactly when the digits are a non-empty pattern repeated two or more times |
| Day02.InvalidPart1ImpliesPart2 | day02/day02.py:11-54 | every ID invalid under part 1 is invalid under part 2 |
| Day02.SingleDigitValid | day02/day02.py:24-25 | a one-digit ID is valid under both rules |
| Day02.RulesDiffer | day02/day02.py:11-54 | 111 is invalid under part 2 but not part 1, so the rules differ |
| Day02.RangesTotalMonotone | day02/day02.py:74-106 | over any ranges, part 2's sum is at least part 1's |
| Day02.ParseIdRanges | day02/day02.py:68-71 | the ranges parse exactly when every comma-separated piece of the stripped input is "first-last", each giving its range in order |
| Day02.SumTwice | day02/day02.py:74-78 | the total is the sum, over every range taken inclusively, of the IDs with two equal halves |
| Day02.Part1 | day02/day02.py:57-80 | a ValueError exactly when some piece is not "first-last"; otherwise the part 1 sum over the parsed ranges |
| Day02.SumAtLeastTwice | day02/day02.py:100-104 | the total is the sum, over every range taken inclusively, of the IDs that are a pattern repeated at least twice |
| Day02.Part2 | day02/day02.py:83-106 | a ValueError exactly when some piece is not "first-last"; otherwise the part 2 sum over the parsed ranges |
| Text.ParseDashPair | day02/day02.py:70 | a piece parses exactly when splitting at '-' gives two digit strings, and yields their values |
| Text.ParseDashPairRoundTrip | day02/day02.py:70 | parsing "a-b" written in decimal gives back (a, b) |
| Text.ParseNatDecimal | day01/day01.py:14 | `int()` of a number's decimal text is that number |
| Text.DecimalValue | day02/day02.py:21 | the value of `str(num)` is `num` |
| Text.CanonicalDecimal | day02/day02.py:21 | a digit string without a leading zero is the decimal text of its value |
| Text.ParseIntString | day05/day05.py:34 | `int()` of an integer's text, sign included, gives that integer back |
| Text.Split | day05/day05.py:23 | at least one piece; the pieces joined with the separator give back the string, and no piece contains it |
| Text.SplitLeftmost | day05/day05.py:23 | each piece ends at the leftmost occurrence: no occurrence of the separator starts inside a piece and runs into the next separator |
| Text.StripTrims | day06/day06.py:66 | the stripped string is a slice with only whitespace cut off either end, and neither end is whitespace |
| Sorting.SortBy | day05/day05.py:83 | the result is sorted by the order and is a permutation of the input |
| Sorting.SortedUnique | day08/day08.py:127 | two sorted permutations of the same list under a total order are equal, so any correct sort gives the model's result |
| Day03.NumberBound | day03/day03.py:74 | a k-digit reading is below 10^k |
| Day03.LexLeNumber | day03/day03.py:60-74 | for equal lengths, digit-wise comparison orders the numbers read |
| Day03.PairMaxIsMax | day03/day03.py:11-31 | the pair maximum bounds every ordered pair's joltage and is attained by one, or is 0 for fewer than two batteries |
| Day03.FindMaxJoltage | day03/day03.py:11-31 | the nested loop returns the largest `10 * bank[i] + bank[j]` with i < j, 0 when there is no pair |
| Day03.GreedyOptimal | day03/day03.py:60-72 | the greedy choice is digit-wise at least as large as any order-preserving selection of the same length |
| Day03.GreedyPositionsPicked | day03/day03.py:67-72 | the greedy digits are read at strictly increasing positions in the bank |
| Day03.MaxJoltageKBounds | day03/day03.py:53-55 | a bank shorter than k gives 0; otherwise the result has at most k digits |
| Day03.MaxJoltageKOptimal | day03/day03.py:34-74 | the result is read from some choice of k batteries in order, and no such choice reads a larger number |
| Day03.FindMaxJoltageK | day03/day03.py:34-74 | the greedy loop, with first occurrence of the window maximum, returns the optimal k-battery joltage |
| Day03.TotalPairMax | day03/day03.py:88-90 | the total is the sum of each bank's best pair, at most 99 per bank |
| Day03.Part1 | day03/day03.py:77-91 | a ValueError exactly when a line of two or more characters holds a non-digit; otherwise the sum of the lines' best pairs |
| Day03.TotalMaxJoltageK | day03/day03.py:105-107 | the total is the sum of each bank's best 12-battery joltage |
| Day03.Part2 | day03/day03.py:94-108 | an error when a line of twelve or more characters holds a non-digit; otherwise the sum of the lines' best 12-battery joltages, 0 for shorter lines |
| Day04.CountAdjacentRolls | day04/day04.py:9-41 | the count is the number of in-bounds neighbour cells holding '@', at most 8 |
| Day04.OffsetsCoverWindow | day04/day04.py:26-30 | the eight offsets reach exactly the neighbour cells of a position |
| Day04.CountAccessible | day04/day04.py:57-69 | the count is the number of rolls with fewer than four neighbouring rolls |
| Day04.Part1 | day04/day04.py:43-71 | on the input split at newlines, the number of accessible rolls |
| Day04.FindAccessible | day04/day04.py:92-99 | the scan lists every accessible roll once |
| Day04.ClearCells | day04/day04.py:106-107 | exactly the listed cells become '.', all others unchanged |
| Day04.RoundRolls | day04/day04.py:90-110 | a round removes exactly the accessible rolls and changes no other cell |
| Day04.TotalRemovedSettles | day04/day04.py:73-112 | the rolls removed are exactly those missing from the settled grid, which has none accessible; at least the first round's, at most all |
| Day04.RoundStep | day04/day04.py:101-110 | a round with accessible rolls removes some, so the loop ends, and its count adds to the rest |
| Day04.RemoveAll | day04/day04.py:88-110 | the total is the number of rolls removed by the rounds until none is accessible |
| Day04.Part2 | day04/day04.py:73-112 | on the input split at newlines, the rolls removed until none is accessible |
| Day05.ParseRanges | day05/day05.py:28-30 | the range lines parse exactly when each is "start-end", each giving its range |
| Day05.ParseIds | day05/day05.py:33-34 | the ID lines parse exactly when each is an integer |
| Day05.ParseInput | day05/day05.py:11-36 | a bad range line is a ValueError; a missing ID section is an IndexError; otherwise both lists, parsed line by line |
| Day05.IsFresh | day05/day05.py:39-50 | true exactly when some range holds the ID |
| Day05.FreshCountPositions | day05/day05.py:53-66 | part 1's count is the number of list positions holding a fresh ID |
| Day05.CoveredIsFresh | day05/day05.py:39-50 | an ID is covered by the ranges exactly when `is_fresh` says so |
| Day05.SortRanges | day05/day05.py:83 | sorted by (start, end), a permutation, starts ascending |
| Day05.MergeRanges | day05/day05.py:69-97 | empty iff the input is; no more ranges; separated with a gap; ascending; covers exactly the input's IDs for well-formed ranges |
| Day05.TotalLengthCounts | day05/day05.py:124 | for separated ranges, the sum of `end - start + 1` is the number of distinct IDs covered |
| Day05.Part1 | day05/day05.py:53-66 | the errors of `parse_input`; otherwise how many listed IDs some range holds |
| Day05.CountCovered | day05/day05.py:120-124 | for well-formed ranges, the result is the number of distinct IDs covered by any range |
| Day05.Part2 | day05/day05.py:100-126 | a ValueError exactly when a line of the first section is not "start-end"; otherwise, for well-formed ranges, the number of distinct IDs they cover |
| Day06.MaxLen | day06/day06.py:23 | the maximum line length: no line is longer; some line is that long |
| Day06.ContentRuns | day06/day06.py:33-48 | the scan returns the maximal runs of content positions, in order |
| Day06.FindColumnBoundaries | day06/day06.py:12-50 | the columns are the maximal runs where some line has a non-space, within the longest line |
| Day06.RunsFromUnique | day06/day06.py:33-48 | only one list of runs describes a content mask |
| Day06.NonEmptyRuns | day06/day06.py:33-48 | there is a run exactly when some position has content |
| Day06.EvaluateAppend | day06/day06.py:76-83 | '+' sums and '*' multiplies over concatenated lists, and any other operator gives 0 |
| Day06.EvaluateNumbers | day06/day06.py:76-83 | sum for '+', product for '*', 0 otherwise |
| Day06.BlankTextSkipped | day06/day06.py:71-73 | an empty stripped row adds no number |
| Day06.CalculateColumnResult | day06/day06.py:53-83 | the problem's value, or a ValueError where a row's text is not an integer |
| Day06.TotalFirstError | day06/day06.py:99-101 | the grand total fails exactly when some problem does, with the first failing problem's error |
| Day06.ReadColumn | day06/day06.py:131-136 | the digits of one character position, top to bottom, skipping short rows and non-digits |
| Day06.CalculateColumnResultCephalopod | day06/day06.py:106-151 | the operator applied to the numbers read one per position, right to left |
| Day06.CephalopodSplit | day06/day06.py:129 | reading right to left, the right part's numbers come before the left part's |
| Day06.WorksheetTotal | day06/day06.py:97-103 | the column split exists, and the result is the grand total of the row-wise readings over it |
| Day06.Part1 | day06/day06.py:86-103 | the same on the lines of the stripped input |
| Day06.CephalopodWorksheetTotal | day06/day06.py:165-171 | the column split exists, and the result is the grand total of the cephalopod readings over it |
| Day06.Part2 | day06/day06.py:154-171 | the same on the lines of the stripped input |
| Day07.Find | day07/day07.py:27 | `str.find`: -1 when absent, else the first index of the character |
| Day07.ParseGrid | day07/day07.py:13-32 | the first row with an 'S', at its first 'S'; the ValueError exactly when no row has one |
| Day07.StartUnique | day07/day07.py:26-29 | the start position is determined by the grid |
| Day07.Pushed | day07/day07.py:76-94 | the beams a cell emits: at most two, on its row, inside the grid |
| Day07.PushedContinues | day07/day07.py:57-94 | the cells emitted by the cell below a beam are exactly where the beam goes next |
| Day07.EnterCell | day07/day07.py:71-94 | the queue gains the emitted beams, and a splitter is recorded as activated |
| Day07.SplittersHitBound | day07/day07.py:96 | no more splitters are counted than the grid holds |
| Day07.SimulateBeamSplitting | day07/day07.py:35-96 | the count is the number of distinct splitters some beam moves into |
| Day07.NoneHit | day07/day07.py:79-81 | without splitters nothing is counted |
| Day07.SingleTimeline | day07/day07.py:144-157 | without splitters there is exactly one timeline |
| Day07.SplitterDoubles | day07/day07.py:149-154 | a particle entering a splitter in range has at least two timelines |
| Day07.ExploreMemo | day07/day07.py:119-160 | the memoised explore returns the plain recursion's count and keeps the memo correct and growing |
| Day07.CountTimelines | day07/day07.py:99-162 | the number of timelines from the start, at least one |
| Day07.SplitterCount | day07/day07.py:175-176 | the ValueError exactly when there is no 'S'; otherwise the splitters hit from the start |
| Day07.Part1 | day07/day07.py:165-176 | the same on the lines of the stripped input |
| Day07.TimelineCount | day07/day07.py:189-190 | the ValueError exactly when there is no 'S'; otherwise the timelines from the start |
| Day07.Part2 | day07/day07.py:179-190 | the same on the lines of the stripped input |
| Day08.Root | day08/day08.py:39-41 | `find` ends at a self-parented node, reached by strictly increasing ranks |
| Day08.Compress | day08/day08.py:39-41 | path compression points x at its root, changes each parent only to that node's root, and keeps ranks and sizes |
| Day08.CompressKeepsRoots | day08/day08.py:39-41 | compression changes no element's root |
| Day08.CompressConsistent | day08/day08.py:39-41 | compression keeps every stored size equal to its circuit's size |
| Day08.DisjointSet.constructor | day08/day08.py:18-27 | n elements, each its own parent, of rank 0 and size 1, and consistent |
| Day08.InitConsistent | day08/day08.py:25-27 | the fresh structure is consistent, has n circuits, and each element is its own root |
| Day08.DisjointSet.Find | day08/day08.py:29-41 | returns the root of x, after which x and the root point at it; the new state is the compressed forest |
| Day08.LinkMerges | day08/day08.py:54-58 | `union` returns false exactly when the roots are equal, and then changes only by compression |
| Day08.LinkAttaches | day08/day08.py:60-70 | with different roots, the lower-rank root goes under the other (x's root on a tie), sizes add, rank rises on a tie |
| Day08.DisjointSet.Hang | day08/day08.py:60-68 | the swap, parent link, size sum and rank bump of the merge |
| Day08.DisjointSet.Union | day08/day08.py:43-70 | the new state and result are those of the union on the old state, and the structure stays consistent |
| Day08.LinkRoots | day08/day08.py:54-70 | after a union, elements of the losing circuit have the winner as root; all others keep theirs |
| Day08.LinkJoins | day08/day08.py:54-70 | two elements share a circuit after `union(x, y)` exactly when they did before, or one was with x and the other with y |
| Day08.LinkCount | day08/day08.py:57-70 | a merging union lowers the number of circuits by one; a failing one keeps it |
| Day08.LinkConsistent | day08/day08.py:64-65 | union keeps every stored size equal to its circuit's size |
| Day08.RootSizesSum | day08/day08.py:140-141 | the root sizes sum to n, there is one per circuit, and none is zero |
| Day08.ReplayCount | day08/day08.py:133-135 | after any run of unions, the circuits plus the merges equal the starting circuits |
| Day08.ParseCoordinates | day08/day08.py:83 | every line splits at commas into integers, or the ValueError when one does not |
| Day08.Boxes | day08/day08.py:83 | the points, or the IndexError of a line with fewer than three fields once there are two or more boxes |
| Day08.SquaredDistanceMetric | day08/day08.py:86-100 | the squared distance is non-negative, zero only between equal points, and symmetric |
| Day08.ListCandidates | day08/day08.py:120-124 | the nested loops build the candidate list |
| Day08.CandidatesExact | day08/day08.py:120-124 | the candidates are exactly the pairs i < j with their distance, n(n-1)/2 of them, in (i, j) order |
| Day08.Ordered | day08/day08.py:127 | the sorted candidates: sorted by (distance, i, j), a permutation of the candidate list |
| Day08.OrderedExact | day08/day08.py:127 | the sorted list holds every pair once, n(n-1)/2 of them |
| Day08.UnionCalls | day08/day08.py:133-137 | the loop makes `budget` calls, or one per pair when there are fewer pairs |
| Day08.ConnectClosest | day08/day08.py:130-137 | `union` is called on exactly the first `UnionCalls` sorted pairs, in order |
| Day08.CircuitSizes | day08/day08.py:140-141 | the sizes at the roots in index order; the `find` calls leave the circuits, sizes and ranks unchanged and every node pointing straight at its root |
| Day08.LargestThree | day08/day08.py:142-145 | the three largest sizes with repeats, largest first; none when there are fewer than three |
| Day08.AfterBudgetCircuits | day08/day08.py:130-141 | after the budget loop, sizes sum to n, one per circuit, and n minus merges circuits remain |
| Day08.Part1 | day08/day08.py:103-145 | the parse error, or the product of the three largest circuit sizes after the budget loop (IndexError with fewer than three) |
| Day08.ConnectUntilOne | day08/day08.py:174-186 | the product for the first pair whose union leaves one circuit, with the structure as after the unions up to that pair; or -1 if there is none, with every pair's union applied; the structure stays consistent |
| Day08.Part2 | day08/day08.py:148-186 | the parse error, or the x product of the first sorted pair whose union leaves a single circuit |
| Day08.ConnectingMergeCount | day08/day08.py:179-184 | the connecting pair is the (n-1)-th union that merged |
| Day08.PrefixJoins | day08/day08.py:178-180 | after the first k pairs, both ends of each of them share a circuit |
| Day08.AllPairsConnect | day08/day08.py:174-186 | replaying every pair leaves one circuit |
| Day08.Part2Connects | day08/day08.py:186 | with two or more boxes some pair connects everything, so the -1 fallback is unreachable; with fewer there is no pair |

## Left out

- Reading `dayNN.dat`, `__main__` and `print` are not modelled. Every `partN` takes the text after the file is read.
- Day08.Part1 and Part2 take the lines of `data.splitlines()`. How `splitlines` splits at `\r`, `\v`, `\f` and other line breaks is not modelled.
- Text.Strip: removes the ASCII whitespace characters only, not the other Unicode spaces `str.strip` removes.
- `int()` accepts only an optional sign and ASCII digits here. Its whitespace, underscores and non-ASCII digits are not modelled.
- `str.isdigit` (day 6's cephalopod reading) is the ASCII test `Text.IsDigitChar` here. Other digit characters pass the source's test, and its `int()` then reads decimal ones such as '٣' and raises a `ValueError` on others such as '²'. The model skips them all.
- Day01.ParseRotation: accepts unsigned digits only, not a signed distance.
- Text.ParseDashPair: rejects a `+` sign, and spaces, that `int()` accepts around a bound. Days 2 and 5 parse their ranges with it.
- Day01.CountZeroClicks: says nothing about rotations whose direction is neither 'L' nor 'R'. The source counts them as left turns but moves them right.
- Day01.Part2: for the same reason, promises only that some count is returned when a line's direction is neither 'L' nor 'R'.
- Day02 ranges are natural numbers. A negative bound would make a piece split into three parts and be rejected anyway.
- Day03: ratings are modelled as digit values 0..9, not characters.
- Day03.Part2: a line of twelve or more characters holding a non-digit is reported as a `ParseError`. The source compares characters by code point and fails only when the twelve it picks are not an `int()` literal.
- Day03.FindMaxJoltageK: requires k >= 1. With k = 0 the source evaluates `int('')` and raises.
- Day04, Day07: the grids are required to be rectangular, as the puzzle inputs are. Ragged rows change which cells the source reads.
- Day07.SimulateBeamSplitting: requires the start to lie in the grid. A negative row would index from the end of a Python list.
- Day07.CountTimelines: requires a non-negative start row.
- Day07.ExploreMemo: the memo is a map passed in and out, so the Python closure's shared dictionary is not modelled as aliasing.
- Day06.WorksheetTotal and CephalopodWorksheetTotal require at least one line, since `max()` of an empty sequence raises in the source. The lines of a stripped text are never empty, so Day06.Part1 and Part2 need no such condition.
- Day05.CountCovered: its contract covers well-formed ranges (start <= end) only. For others the merge's coverage is not stated.
- Day05.Part2: the same, for the ranges parsed from the first section.
- Day08: the distance is the squared distance, not a `float` square root. The order is the same, but ties that rounding could create or break are not reproduced.
- Day08: `list.sort` is the insertion sort `Sorting.SortBy` on (distance, i, j). Any correct sort gives the same list (`Sorting.SortedUnique`).
- Day08: Python's recursion limit for `find` is not modelled.
- Day08.DisjointSet.Find: requires only a well-shaped forest. Keeping sizes consistent is the separate lemma `CompressConsistent`.
- Day08.Boxes: when there are fewer than two boxes, a short line is padded with zeros, because the source never reads those fields.
- Day08: part 1's budget of 1000 is the parameter `budget`; a budget of 0 means no limit.
- Where a `partN` parses and then loops, the loop is its own method: Day01.CountLandings and CountZeroClicks, Day02.SumTwice and SumAtLeastTwice, Day03.TotalPairMax and TotalMaxJoltageK, Day04.CountAccessible and RemoveAll, Day05.CountCovered, Day06.WorksheetTotal and CephalopodWorksheetTotal, Day07.SplitterCount and TimelineCount.
- Other helper methods stand for loops that are inline in the source: Day06.ContentRuns, ReadColumn and SumColumns; Day07.EnterCell and ProcessBeam; Day08.ListCandidates, DisjointSet.Hang, ConnectClosest, CircuitSizes and ConnectUntilOne.
