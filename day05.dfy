/**
 * Day 5: a list of inclusive ID ranges "start-end", a blank line, then a list of
 * ingredient IDs. Part 1 counts the listed IDs that fall in some range; part 2
 * merges the ranges and counts every ID they cover.
 */
module Day05 {
  import opened Wrappers
  import Text
  import Sorting

  /** `(start, end)`, covering `start..end` inclusive. */
  type Range = (nat, nat)

  predicate InRange(id: int, r: Range)
  {
    r.0 <= id <= r.1
  }

  predicate WellFormed(ranges: seq<Range>)
  {
    forall k :: 0 <= k < |ranges| ==> ranges[k].0 <= ranges[k].1
  }

  // ----------------------------------------------------------------------------
  // Parsing

  /** The blank line between the range section and the ID section. */
  const SectionBreak := "\n\n"

  predicate RangeLinesOk(lines: seq<string>)
  {
    forall k :: 0 <= k < |lines| ==> Text.ParseDashPair(lines[k]).Some?
  }

  predicate IdLinesOk(lines: seq<string>)
  {
    forall k :: 0 <= k < |lines| ==> Text.ParseInt(lines[k]).Some?
  }

  /** The ranges the range lines denote, in order. */
  function RangeValues(lines: seq<string>): (ranges: seq<Range>)
    requires RangeLinesOk(lines)
    ensures |ranges| == |lines|
  {
    seq(|lines|, k requires 0 <= k < |lines| => Text.ParseDashPair(lines[k]).value)
  }

  /** The IDs the ID lines denote, in order. */
  function IdValues(lines: seq<string>): (ids: seq<int>)
    requires IdLinesOk(lines)
    ensures |ids| == |lines|
  {
    seq(|lines|, k requires 0 <= k < |lines| => Text.ParseInt(lines[k]).value)
  }

  /** The range loop of `parse_input` (and of `part2`): `start, end = line.split('-')`. */
  method ParseRanges(lines: seq<string>) returns (r: Result<seq<Range>>)
    ensures r.Ok? <==> RangeLinesOk(lines)
    ensures r.Err? ==> r.error == ParseError
    ensures r.Ok? ==> |r.value| == |lines| &&
                      forall k :: 0 <= k < |lines| ==> Text.ParseDashPair(lines[k]) == Some(r.value[k])
  {
    var ranges: seq<Range> := [];
    for i := 0 to |lines|
      invariant |ranges| == i
      invariant forall k :: 0 <= k < i ==> Text.ParseDashPair(lines[k]) == Some(ranges[k])
    {
      match Text.ParseDashPair(lines[i])
      case None => return Err(ParseError);
      case Some(pair) => ranges := ranges + [pair];
    }
    return Ok(ranges);
  }

  /** The ID list of `parse_input`: `int(line)` for every line. */
  method ParseIds(lines: seq<string>) returns (r: Result<seq<int>>)
    ensures r.Ok? <==> IdLinesOk(lines)
    ensures r.Err? ==> r.error == ParseError
    ensures r.Ok? ==> |r.value| == |lines| &&
                      forall k :: 0 <= k < |lines| ==> Text.ParseInt(lines[k]) == Some(r.value[k])
  {
    var ids: seq<int> := [];
    for i := 0 to |lines|
      invariant |ids| == i
      invariant forall k :: 0 <= k < i ==> Text.ParseInt(lines[k]) == Some(ids[k])
    {
      match Text.ParseInt(lines[i])
      case None => return Err(ParseError);
      case Some(id) => ids := ids + [id];
    }
    return Ok(ids);
  }

  /**
   * `parse_input`: the sections are `data.strip().split('\n\n')`; the result is the
   * ranges of the first section and the IDs of the second. A bad range line fails
   * before the second section is looked at; a missing second section is an
   * `IndexError`; sections after the second are ignored.
   */
  method ParseInput(data: string) returns (r: Result<(seq<Range>, seq<int>)>)
    ensures !RangeLinesOk(Text.Lines(Text.StripSplit(data, SectionBreak)[0])) ==> r == Err(ParseError)
    ensures RangeLinesOk(Text.Lines(Text.StripSplit(data, SectionBreak)[0])) && |Text.StripSplit(data, SectionBreak)| < 2 ==> r == Err(IndexError)
    ensures RangeLinesOk(Text.Lines(Text.StripSplit(data, SectionBreak)[0])) && |Text.StripSplit(data, SectionBreak)| >= 2 ==>
              (r.Ok? <==> IdLinesOk(Text.Lines(Text.StripSplit(data, SectionBreak)[1])))
    ensures r.Err? ==> !RangeLinesOk(Text.Lines(Text.StripSplit(data, SectionBreak)[0])) || |Text.StripSplit(data, SectionBreak)| < 2 ||
                       !IdLinesOk(Text.Lines(Text.StripSplit(data, SectionBreak)[1]))
    ensures r.Ok? ==>
              |Text.StripSplit(data, SectionBreak)| >= 2 &&
              var rangeLines, idLines := Text.Lines(Text.StripSplit(data, SectionBreak)[0]), Text.Lines(Text.StripSplit(data, SectionBreak)[1]);
              |r.value.0| == |rangeLines| && |r.value.1| == |idLines| &&
              (forall k :: 0 <= k < |rangeLines| ==> Text.ParseDashPair(rangeLines[k]) == Some(r.value.0[k])) &&
              (forall k :: 0 <= k < |idLines| ==> Text.ParseInt(idLines[k]) == Some(r.value.1[k]))
  {
    var sections := Text.StripSplit(data, SectionBreak);
    var freshRanges := ParseRanges(Text.Lines(sections[0]));
    if freshRanges.Err? {
      return Err(freshRanges.error);
    }
    if |sections| < 2 {
      return Err(IndexError);
    }
    var ingredientIds := ParseIds(Text.Lines(sections[1]));
    if ingredientIds.Err? {
      return Err(ingredientIds.error);
    }
    return Ok((freshRanges.value, ingredientIds.value));
  }

  // ----------------------------------------------------------------------------
  // Part 1

  /** `is_fresh`: some range holds the ID. */
  function IsFresh(id: int, ranges: seq<Range>): (found: bool)
    ensures found <==> exists k :: 0 <= k < |ranges| && InRange(id, ranges[k])
  {
    if ranges == [] then false
    else
      assert forall k :: 0 < k < |ranges| ==> ranges[k] == ranges[1..][k - 1];
      InRange(id, ranges[0]) || IsFresh(id, ranges[1..])
  }

  /** `part1`'s sum: how many listed IDs are fresh, counting repeats. */
  function FreshCount(ids: seq<int>, ranges: seq<Range>): (count: nat)
    ensures count <= |ids|
  {
    if ids == [] then 0
    else FreshCount(ids[..|ids| - 1], ranges) + (if IsFresh(ids[|ids| - 1], ranges) then 1 else 0)
  }

  /** The positions in the list that hold a fresh ID. */
  ghost function FreshPositions(ids: seq<int>, ranges: seq<Range>): set<nat>
  {
    set k: nat | k < |ids| && IsFresh(ids[k], ranges)
  }

  /** The last position joins the fresh positions exactly when it holds a fresh ID. */
  lemma FreshPositionsStep(ids: seq<int>, ranges: seq<Range>)
    requires ids != []
    ensures |FreshPositions(ids, ranges)| ==
            |FreshPositions(ids[..|ids| - 1], ranges)| + (if IsFresh(ids[|ids| - 1], ranges) then 1 else 0)
  {
    var n := |ids| - 1;
    var front := ids[..n];
    assert n !in FreshPositions(front, ranges);
    if IsFresh(ids[n], ranges) {
      assert FreshPositions(ids, ranges) == FreshPositions(front, ranges) + {n};
    } else {
      assert FreshPositions(ids, ranges) == FreshPositions(front, ranges);
    }
  }

  /** The count is the number of list positions holding a fresh ID. */
  lemma {:induction false} FreshCountPositions(ids: seq<int>, ranges: seq<Range>)
    ensures FreshCount(ids, ranges) == |FreshPositions(ids, ranges)|
    decreases |ids|
  {
    if ids != [] {
      FreshCountPositions(ids[..|ids| - 1], ranges);
      FreshPositionsStep(ids, ranges);
    }
  }

  // ----------------------------------------------------------------------------
  // The IDs a list of ranges covers

  /** The integers `lo..hi` inclusive; `hi - lo + 1` of them, none when `hi < lo`. */
  function Interval(lo: int, hi: int): (s: set<int>)
    ensures forall x :: x in s <==> lo <= x <= hi
    ensures |s| == if lo <= hi then hi - lo + 1 else 0
    decreases hi - lo
  {
    if hi < lo then {} else Interval(lo, hi - 1) + {hi}
  }

  /** The IDs of one range. */
  function Span(r: Range): set<int>
  {
    Interval(r.0, r.1)
  }

  /** Every ID some range of the list covers. */
  ghost function Covered(ranges: seq<Range>): set<int>
  {
    if ranges == [] then {} else Covered(ranges[..|ranges| - 1]) + Span(ranges[|ranges| - 1])
  }

  /** The last range adds its own IDs to those of the others. */
  lemma CoveredLast(ranges: seq<Range>, x: int)
    requires ranges != []
    ensures x in Covered(ranges) <==> x in Covered(ranges[..|ranges| - 1]) || InRange(x, ranges[|ranges| - 1])
  {
    assert x in Span(ranges[|ranges| - 1]) <==> InRange(x, ranges[|ranges| - 1]);
  }

  /** `is_fresh` accepts an ID that the range at position `k` holds. */
  lemma FreshAt(x: int, ranges: seq<Range>, k: nat)
    requires k < |ranges| && InRange(x, ranges[k])
    ensures IsFresh(x, ranges)
  {
  }

  /** `is_fresh` on a list accepts what it accepts on all but the last range, or the last range holds. */
  lemma IsFreshLast(x: int, ranges: seq<Range>)
    requires ranges != []
    ensures IsFresh(x, ranges) <==> IsFresh(x, ranges[..|ranges| - 1]) || InRange(x, ranges[|ranges| - 1])
  {
    var n := |ranges| - 1;
    var init := ranges[..n];
    if IsFresh(x, init) {
      var k :| 0 <= k < n && InRange(x, init[k]);
      FreshAt(x, ranges, k);
    }
    if InRange(x, ranges[n]) {
      FreshAt(x, ranges, n);
    }
    if IsFresh(x, ranges) && !InRange(x, ranges[n]) {
      var k :| 0 <= k < |ranges| && InRange(x, ranges[k]);
      FreshAt(x, init, k);
    }
  }

  /** An ID is covered exactly when `is_fresh` accepts it. */
  lemma {:induction false} CoveredIsFresh(ranges: seq<Range>, x: int)
    ensures x in Covered(ranges) <==> IsFresh(x, ranges)
    decreases |ranges|
  {
    if ranges != [] {
      CoveredIsFresh(ranges[..|ranges| - 1], x);
      CoveredLast(ranges, x);
      IsFreshLast(x, ranges);
    }
  }

  /** Covered depends only on which ranges occur, not on their order or repeats. */
  lemma CoveredSameElements(a: seq<Range>, b: seq<Range>)
    requires multiset(a) == multiset(b)
    ensures Covered(a) == Covered(b)
  {
    forall x ensures x in Covered(a) <==> x in Covered(b) {
      CoveredIsFresh(a, x);
      CoveredIsFresh(b, x);
      if IsFresh(x, a) {
        var k :| 0 <= k < |a| && InRange(x, a[k]);
        assert a[k] in multiset(b);
        var j :| 0 <= j < |b| && b[j] == a[k];
      }
      if IsFresh(x, b) {
        var k :| 0 <= k < |b| && InRange(x, b[k]);
        assert b[k] in multiset(a);
        var j :| 0 <= j < |a| && a[j] == b[k];
      }
    }
  }

  // ----------------------------------------------------------------------------
  // merge_ranges

  /** Python's tuple order on ranges: by start, then by end. */
  predicate RangeLe(a: Range, b: Range)
  {
    a.0 < b.0 || (a.0 == b.0 && a.1 <= b.1)
  }

  lemma RangeLeTotalOrder()
    ensures Sorting.TotalOrder(RangeLe)
  {
  }

  /** Each range starts more than one past the end of the one before: no overlap, no adjacency. */
  predicate Separated(ranges: seq<Range>)
  {
    forall j :: 0 < j < |ranges| ==> ranges[j - 1].1 + 1 < ranges[j].0
  }

  predicate StartsAscending(ranges: seq<Range>)
  {
    forall j :: 0 < j < |ranges| ==> ranges[j - 1].0 <= ranges[j].0
  }

  /** Extending the last range to end at `e` keeps the shape the sweep maintains. */
  lemma ExtendLastKeeps(m: seq<Range>, e: nat)
    requires m != [] && Separated(m) && StartsAscending(m) && m[|m| - 1].1 <= e
    ensures Separated(m[..|m| - 1] + [(m[|m| - 1].0, e)])
    ensures StartsAscending(m[..|m| - 1] + [(m[|m| - 1].0, e)])
    ensures WellFormed(m) ==> WellFormed(m[..|m| - 1] + [(m[|m| - 1].0, e)])
  {
  }

  /** Appending a range that starts more than one past the last end keeps that shape too. */
  lemma AppendKeeps(m: seq<Range>, r: Range)
    requires m != [] && Separated(m) && StartsAscending(m)
    requires m[|m| - 1].1 + 1 < r.0 && m[|m| - 1].0 <= r.0
    ensures Separated(m + [r]) && StartsAscending(m + [r])
    ensures WellFormed(m) && r.0 <= r.1 ==> WellFormed(m + [r])
  {
  }

  /** What the sweep reads off the sorted list: starts ascend and, for well-formed input, every range is well formed. */
  lemma SortedStarts(ranges: seq<Range>, sorted: seq<Range>)
    requires Sorting.SortedBy(sorted, RangeLe) && multiset(sorted) == multiset(ranges)
    ensures StartsAscending(sorted)
    ensures WellFormed(ranges) ==> WellFormed(sorted)
  {
    forall j | 0 < j < |sorted| ensures sorted[j - 1].0 <= sorted[j].0 {
      assert RangeLe(sorted[j - 1], sorted[j]);
    }
    if WellFormed(ranges) {
      forall k | 0 <= k < |sorted| ensures sorted[k].0 <= sorted[k].1 {
        assert sorted[k] in multiset(ranges);
      }
    }
  }

  /** Merging range `r` into the last range `m`, when `r` starts inside or just after it. */
  lemma MergeSpan(m: Range, r: Range)
    requires m.0 <= m.1 && r.0 <= r.1 && m.0 <= r.0 <= m.1 + 1
    ensures Span(m) + Span(r) == Span((m.0, if m.1 >= r.1 then m.1 else r.1))
  {
  }

  /** Replacing the last range of `s` by `r`. */
  lemma CoveredReplaceLast(s: seq<Range>, r: Range)
    requires s != []
    ensures Covered(s[..|s| - 1] + [r]) == Covered(s[..|s| - 1]) + Span(r)
  {
    assert (s[..|s| - 1] + [r])[..|s| - 1] == s[..|s| - 1];
  }

  lemma CoveredAppend(s: seq<Range>, r: Range)
    ensures Covered(s + [r]) == Covered(s) + Span(r)
  {
    assert (s + [r])[..|s|] == s;
  }

  lemma TakeOneMore(s: seq<Range>, i: nat)
    requires i < |s|
    ensures s[..i + 1] == s[..i] + [s[i]]
  {
  }

  /** The sweep's extend step keeps the merged list covering what the scanned prefix covers. */
  lemma CoverExtend(m: seq<Range>, prefix: seq<Range>, r: Range, newEnd: nat)
    requires m != [] && Covered(m) == Covered(prefix)
    requires m[|m| - 1].0 <= m[|m| - 1].1 && r.0 <= r.1
    requires m[|m| - 1].0 <= r.0 <= m[|m| - 1].1 + 1
    requires newEnd == if m[|m| - 1].1 >= r.1 then m[|m| - 1].1 else r.1
    ensures Covered(m[..|m| - 1] + [(m[|m| - 1].0, newEnd)]) == Covered(prefix + [r])
  {
    var last := m[|m| - 1];
    MergeSpan(last, r);
    CoveredReplaceLast(m, (last.0, newEnd));
    CoveredAppend(prefix, r);
  }

  /** The sweep's append step keeps it too. */
  lemma CoverAppend(m: seq<Range>, prefix: seq<Range>, r: Range)
    requires Covered(m) == Covered(prefix)
    ensures Covered(m + [r]) == Covered(prefix + [r])
  {
    CoveredAppend(m, r);
    CoveredAppend(prefix, r);
  }

  /** `sorted(ranges)`: Python's tuple order, by start and then by end. */
  method SortRanges(ranges: seq<Range>) returns (sorted: seq<Range>)
    ensures |sorted| == |ranges| && multiset(sorted) == multiset(ranges)
    ensures Sorting.SortedBy(sorted, RangeLe) && StartsAscending(sorted)
    ensures WellFormed(ranges) ==> WellFormed(sorted)
  {
    RangeLeTotalOrder();
    sorted := Sorting.SortBy(ranges, RangeLe);
    SortedStarts(ranges, sorted);
  }

  /**
   * `merge_ranges`: sort the ranges, then sweep, extending the last merged range
   * over every range that starts at most one past its end.
   */
  method MergeRanges(ranges: seq<Range>) returns (merged: seq<Range>)
    ensures ranges == [] <==> merged == []
    ensures |merged| <= |ranges|
    ensures Separated(merged) && StartsAscending(merged)
    ensures WellFormed(ranges) ==> WellFormed(merged) && Covered(merged) == Covered(ranges)
  {
    if ranges == [] {
      return [];
    }
    var sortedRanges := SortRanges(ranges);
    var n := |sortedRanges|;
    merged := [sortedRanges[0]];
    assert sortedRanges[..1] == [] + [sortedRanges[0]];
    for i := 1 to n
      invariant 1 <= |merged| <= i
      invariant Separated(merged) && StartsAscending(merged)
      invariant merged[|merged| - 1].0 <= sortedRanges[i - 1].0
      invariant WellFormed(ranges) ==> WellFormed(merged) && Covered(merged) == Covered(sortedRanges[..i])
    {
      var (start, end) := sortedRanges[i];
      var (lastStart, lastEnd) := merged[|merged| - 1];
      assert lastStart <= start;
      TakeOneMore(sortedRanges, i);
      if WellFormed(ranges) {
        assert start <= end && lastStart <= lastEnd;
      }
      if start <= lastEnd + 1 {
        var newEnd := if lastEnd >= end then lastEnd else end;
        ExtendLastKeeps(merged, newEnd);
        if WellFormed(ranges) {
          CoverExtend(merged, sortedRanges[..i], (start, end), newEnd);
        }
        merged := merged[..|merged| - 1] + [(lastStart, newEnd)];
      } else {
        AppendKeeps(merged, (start, end));
        if WellFormed(ranges) {
          CoverAppend(merged, sortedRanges[..i], (start, end));
        }
        merged := merged + [(start, end)];
      }
    }
    assert sortedRanges[..n] == sortedRanges;
    CoveredSameElements(sortedRanges, ranges);
  }

  // ----------------------------------------------------------------------------
  // Part 2

  /** `sum(end - start + 1 for start, end in merged_ranges)`. */
  function TotalLength(ranges: seq<Range>): int
  {
    if ranges == [] then 0
    else TotalLength(ranges[..|ranges| - 1]) + (ranges[|ranges| - 1].1 as int - ranges[|ranges| - 1].0 + 1)
  }

  /** Separated well-formed ranges lie below the end of the last one. */
  lemma {:induction false} CoveredBelowLast(s: seq<Range>, x: int)
    requires s != [] && WellFormed(s) && Separated(s) && x in Covered(s)
    ensures x <= s[|s| - 1].1
    decreases |s|
  {
    var n := |s| - 1;
    if x !in Span(s[n]) {
      assert x in Covered(s[..n]);
      CoveredBelowLast(s[..n], x);
    }
  }

  /** The last of separated well-formed ranges shares no ID with the ones before it. */
  lemma LastDisjoint(s: seq<Range>)
    requires s != [] && WellFormed(s) && Separated(s)
    ensures Covered(s[..|s| - 1]) * Span(s[|s| - 1]) == {}
  {
    var n := |s| - 1;
    var front := s[..n];
    if n > 0 {
      assert WellFormed(front) && Separated(front);
      forall x | x in Covered(front) ensures x !in Span(s[n]) {
        CoveredBelowLast(front, x);
      }
    }
  }

  /** Over separated well-formed ranges the summed lengths count the covered IDs exactly. */
  lemma {:induction false} TotalLengthCounts(s: seq<Range>)
    requires WellFormed(s) && Separated(s)
    ensures TotalLength(s) == |Covered(s)|
    decreases |s|
  {
    if s != [] {
      var front := s[..|s| - 1];
      assert WellFormed(front) && Separated(front);
      TotalLengthCounts(front);
      LastDisjoint(s);
    }
  }

  /** The counting step of `part2`: merge, then add up the merged lengths. */
  method CountCovered(ranges: seq<Range>) returns (totalCount: int)
    ensures WellFormed(ranges) ==> totalCount == |Covered(ranges)|
  {
    var mergedRanges := MergeRanges(ranges);
    totalCount := TotalLength(mergedRanges);
    if WellFormed(ranges) {
      TotalLengthCounts(mergedRanges);
    }
  }

  // ----------------------------------------------------------------------------
  // The two parts on the text of the file

  /**
   * `part1`: the errors of `parse_input`, or how many listed IDs are fresh. The count
   * is the number of list positions holding a fresh ID (`FreshCountPositions`).
   */
  method Part1(data: string) returns (r: Result<nat>)
    ensures !RangeLinesOk(Text.Lines(Text.StripSplit(data, SectionBreak)[0])) ==> r == Err(ParseError)
    ensures RangeLinesOk(Text.Lines(Text.StripSplit(data, SectionBreak)[0])) && |Text.StripSplit(data, SectionBreak)| < 2 ==> r == Err(IndexError)
    ensures r.Ok? <==> RangeLinesOk(Text.Lines(Text.StripSplit(data, SectionBreak)[0])) && |Text.StripSplit(data, SectionBreak)| >= 2 &&
                       IdLinesOk(Text.Lines(Text.StripSplit(data, SectionBreak)[1]))
    ensures r.Ok? ==>
              r.value == FreshCount(IdValues(Text.Lines(Text.StripSplit(data, SectionBreak)[1])), RangeValues(Text.Lines(Text.StripSplit(data, SectionBreak)[0])))
  {
    var parsed := ParseInput(data);
    if parsed.Err? {
      return Err(parsed.error);
    }
    var (freshRanges, ingredientIds) := parsed.value;
    assert freshRanges == RangeValues(Text.Lines(Text.StripSplit(data, SectionBreak)[0]));
    assert ingredientIds == IdValues(Text.Lines(Text.StripSplit(data, SectionBreak)[1]));
    return Ok(FreshCount(ingredientIds, freshRanges));
  }

  /**
   * `part2`: a bad range line in the first section is a `ValueError`; otherwise, for
   * well-formed ranges, the number of IDs the ranges cover.
   */
  method Part2(data: string) returns (r: Result<int>)
    ensures r.Ok? <==> RangeLinesOk(Text.Lines(Text.StripSplit(data, SectionBreak)[0]))
    ensures r.Err? ==> r.error == ParseError
    ensures r.Ok? && WellFormed(RangeValues(Text.Lines(Text.StripSplit(data, SectionBreak)[0]))) ==>
              r.value == |Covered(RangeValues(Text.Lines(Text.StripSplit(data, SectionBreak)[0])))|
  {
    var rangeLines := Text.Lines(Text.StripSplit(data, SectionBreak)[0]);
    var ranges := ParseRanges(rangeLines);
    if ranges.Err? {
      return Err(ranges.error);
    }
    assert ranges.value == RangeValues(rangeLines);
    var totalCount := CountCovered(ranges.value);
    return Ok(totalCount);
  }
}
