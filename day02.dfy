/**
 * Day 2: product IDs in inclusive ranges "first-last,first-last,...". An ID is
 * invalid in part 1 when its decimal digits are some pattern written exactly
 * twice, and in part 2 when they are some pattern written at least twice. Each
 * part sums the invalid IDs over all ranges.
 */
module Day02 {
  import opened Wrappers
  import Text

  datatype IdRange = IdRange(first: nat, last: nat)

  /** Python's `pattern * m`. */
  function Repeat(pattern: string, m: nat): (s: string)
    ensures |s| == |pattern| * m
  {
    if m == 0 then [] else pattern + Repeat(pattern, m - 1)
  }

  lemma {:induction false} RepeatPrefix(pattern: string, m: nat)
    requires m >= 1
    ensures Repeat(pattern, m)[..|pattern|] == pattern
  {
    assert Repeat(pattern, m) == pattern + Repeat(pattern, m - 1);
  }

  /** The decimal string is `p` written `m >= 2` times, for some non-empty `p`. */
  ghost predicate RepeatedPattern(s: string)
  {
    exists p: string, m: nat :: m >= 2 && |p| >= 1 && s == Repeat(p, m)
  }

  // ----------------------------------------------------------------------------
  // Part 1's rule

  /** `is_invalid_id_part1`: even length and two equal halves. */
  function IsInvalidPart1(num: nat): bool
  {
    var s := Text.Decimal(num);
    if |s| % 2 != 0 then false else s[..|s| / 2] == s[|s| / 2..]
  }

  /** Part 1's rule holds exactly when the digits are some string written twice. */
  lemma InvalidPart1IsDoubling(num: nat)
    ensures IsInvalidPart1(num) <==> exists p: string :: Text.Decimal(num) == p + p
  {
    var s := Text.Decimal(num);
    if IsInvalidPart1(num) {
      assert s == s[..|s| / 2] + s[|s| / 2..];
    }
    if p: string :| s == p + p {
      assert |s| == 2 * |p|;
      assert s[..|s| / 2] == p && s[|s| / 2..] == p;
    }
  }

  // ----------------------------------------------------------------------------
  // Part 2's rule

  /** Euclidean division by `len` when `n` is `len * m` exactly. */
  lemma ExactQuotient(n: nat, len: nat, m: nat)
    requires len >= 1 && n == len * m
    ensures n % len == 0 && n / len == m
  {
    var q, r := n / len, n % len;
    assert n == len * q + r && 0 <= r < len;
    if q < m {
      MulStep(len, q, m);
    } else if q > m {
      MulStep(len, m, q);
    }
  }

  /** `a * b + a <= a * c` when `b < c`. */
  lemma MulStep(a: nat, b: nat, c: nat)
    requires b < c
    ensures a * b + a <= a * c
    decreases c
  {
    assert a * c == a * (c - 1) + a;
    if c - 1 > b {
      MulStep(a, b, c - 1);
    }
  }

  /** A prefix whose repetition gives the whole string witnesses the rule. */
  lemma FoundPattern(s: string, len: nat)
    requires 1 <= len <= |s| / 2 && |s| % len == 0
    requires Repeat(s[..len], |s| / len) == s
    ensures RepeatedPattern(s)
  {
    var m := |s| / len;
    assert |s| == len * m;
  }

  /** If no dividing prefix length up to half the string repeats to it, there is no pattern. */
  lemma NoPattern(s: string)
    requires forall l :: 1 <= l <= |s| / 2 && |s| % l == 0 ==> Repeat(s[..l], |s| / l) != s
    ensures !RepeatedPattern(s)
  {
    if RepeatedPattern(s) {
      var p: string, m: nat :| m >= 2 && |p| >= 1 && s == Repeat(p, m);
      PatternLength(|s|, |p|, m);
      RepeatPrefix(p, m);
    }
  }

  /** A length that is `m >= 2` copies of `l` is divisible by `l`, with quotient `m`, and `l` is at most half of it. */
  lemma PatternLength(n: nat, l: nat, m: nat)
    requires l >= 1 && m >= 2 && n == l * m
    ensures n % l == 0 && n / l == m && l <= n / 2
  {
    ExactQuotient(n, l, m);
    if m > 2 {
      MulStep(l, 2, m);
    }
  }

  /**
   * `is_invalid_id_part2`: try every pattern length from 1 to half the length that
   * divides the length, and report whether repeating the prefix gives the string.
   */
  method IsInvalidPart2(num: nat) returns (invalid: bool)
    ensures invalid <==> RepeatedPattern(Text.Decimal(num))
  {
    var s := Text.Decimal(num);
    var n := |s|;
    var len := 1;
    while len <= n / 2
      invariant 1 <= len <= n / 2 + 1
      invariant forall l :: 1 <= l < len && n % l == 0 ==> Repeat(s[..l], n / l) != s
    {
      if n % len == 0 {
        var pattern := s[..len];
        var repetitions := n / len;
        if Repeat(pattern, repetitions) == s {
          FoundPattern(s, len);
          return true;
        }
      }
      len := len + 1;
    }
    NoPattern(s);
    return false;
  }

  /** Every part 1 invalid ID is a part 2 invalid ID, by the pattern of half the length. */
  lemma InvalidPart1ImpliesPart2(num: nat)
    requires IsInvalidPart1(num)
    ensures RepeatedPattern(Text.Decimal(num))
  {
    var s := Text.Decimal(num);
    var p := s[..|s| / 2];
    assert s == p + p by {
      assert s == s[..|s| / 2] + s[|s| / 2..];
    }
    assert Repeat(p, 2) == p + p + [];
  }

  /** A single-digit ID is valid under both rules. */
  lemma SingleDigitValid(num: nat)
    requires num < 10
    ensures !IsInvalidPart1(num) && !RepeatedPattern(Text.Decimal(num))
  {
    var s := Text.Decimal(num);
    assert |s| == 1;
    if RepeatedPattern(s) {
      var p: string, m: nat :| m >= 2 && |p| >= 1 && s == Repeat(p, m);
      assert false;
    }
  }

  /** 111 shows the second rule is strictly wider than the first. */
  lemma RulesDiffer()
    ensures RepeatedPattern(Text.Decimal(111)) && !IsInvalidPart1(111)
  {
    var s := Text.Decimal(111);
    assert s == "111";
    assert Repeat("1", 3) == "111";
  }

  // ----------------------------------------------------------------------------
  // Summing over the ranges

  datatype Rule = Twice | AtLeastTwice

  ghost predicate Invalid(rule: Rule, num: nat)
  {
    match rule
    case Twice => IsInvalidPart1(num)
    case AtLeastTwice => RepeatedPattern(Text.Decimal(num))
  }

  /** The sum of the IDs in `[lo, hi)` that the rule calls invalid. */
  ghost function InvalidSum(rule: Rule, lo: nat, hi: nat): nat
    decreases hi
  {
    if hi <= lo then 0
    else InvalidSum(rule, lo, hi - 1) + (if Invalid(rule, hi - 1) then hi - 1 else 0)
  }

  /** The sum over every range, each range taken inclusively. */
  ghost function RangesTotal(rule: Rule, ranges: seq<IdRange>): nat
  {
    if ranges == [] then 0
    else RangesTotal(rule, ranges[..|ranges| - 1]) +
         InvalidSum(rule, ranges[|ranges| - 1].first, ranges[|ranges| - 1].last + 1)
  }

  /** Part 2 never sums less than part 1 over the same ranges. */
  lemma {:induction false} InvalidSumMonotone(lo: nat, hi: nat)
    ensures InvalidSum(Twice, lo, hi) <= InvalidSum(AtLeastTwice, lo, hi)
    decreases hi
  {
    if hi > lo {
      InvalidSumMonotone(lo, hi - 1);
      if IsInvalidPart1(hi - 1) {
        InvalidPart1ImpliesPart2(hi - 1);
      }
    }
  }

  lemma {:induction false} RangesTotalMonotone(ranges: seq<IdRange>)
    ensures RangesTotal(Twice, ranges) <= RangesTotal(AtLeastTwice, ranges)
    decreases |ranges|
  {
    if ranges != [] {
      var last := ranges[|ranges| - 1];
      RangesTotalMonotone(ranges[..|ranges| - 1]);
      InvalidSumMonotone(last.first, last.last + 1);
    }
  }

  /** Whether every piece of `data.strip().split(',')` parses as two dash-separated numbers. */
  predicate PiecesOk(data: string)
  {
    forall k :: 0 <= k < |Text.StripSplit(data, ",")| ==> Text.ParseDashPair(Text.StripSplit(data, ",")[k]).Some?
  }

  /** The ranges the pieces denote, one per piece and in order. */
  function IdRanges(data: string): (ranges: seq<IdRange>)
    requires PiecesOk(data)
    ensures |ranges| == |Text.StripSplit(data, ",")|
  {
    var pieces := Text.StripSplit(data, ",");
    seq(|pieces|, k requires 0 <= k < |pieces| =>
      IdRange(Text.ParseDashPair(pieces[k]).value.0, Text.ParseDashPair(pieces[k]).value.1))
  }

  /** The parsing loop of both parts: the input stripped, split at commas, each piece "first-last". */
  method ParseIdRanges(data: string) returns (r: Option<seq<IdRange>>)
    ensures r.Some? <==> PiecesOk(data)
    ensures r.Some? ==> r.value == IdRanges(data) &&
                        forall k :: 0 <= k < |r.value| ==>
                          Text.ParseDashPair(Text.StripSplit(data, ",")[k]) == Some((r.value[k].first, r.value[k].last))
  {
    var pieces := Text.StripSplit(data, ",");
    var ranges: seq<IdRange> := [];
    var i := 0;
    while i < |pieces|
      invariant 0 <= i <= |pieces| && |ranges| == i
      invariant forall k :: 0 <= k < i ==> Text.ParseDashPair(pieces[k]) == Some((ranges[k].first, ranges[k].last))
    {
      match Text.ParseDashPair(pieces[i])
      case None => return None;
      case Some((first, last)) => ranges := ranges + [IdRange(first, last)];
      i := i + 1;
    }
    assert PiecesOk(data);
    ghost var expected := IdRanges(data);
    assert forall k :: 0 <= k < |ranges| ==> ranges[k] == expected[k];
    return Some(ranges);
  }

  /** The summing loop of part 1: every ID, in any range, whose digits are a pattern written twice. */
  method SumTwice(ranges: seq<IdRange>) returns (total: nat)
    ensures total == RangesTotal(Twice, ranges)
  {
    total := 0;
    var i := 0;
    while i < |ranges|
      invariant 0 <= i <= |ranges|
      invariant total == RangesTotal(Twice, ranges[..i])
    {
      var r := ranges[i];
      var base := total;
      var num := r.first;
      while num <= r.last
        invariant r.first <= num && (num <= r.last + 1 || num == r.first)
        invariant total == base + InvalidSum(Twice, r.first, num)
      {
        if IsInvalidPart1(num) {
          total := total + num;
        }
        num := num + 1;
      }
      assert ranges[..i + 1][..i] == ranges[..i];
      i := i + 1;
    }
    assert ranges[..i] == ranges;
  }

  /** The summing loop of part 2: every ID, in any range, whose digits are a pattern written at least twice. */
  method SumAtLeastTwice(ranges: seq<IdRange>) returns (total: nat)
    ensures total == RangesTotal(AtLeastTwice, ranges)
  {
    total := 0;
    var i := 0;
    while i < |ranges|
      invariant 0 <= i <= |ranges|
      invariant total == RangesTotal(AtLeastTwice, ranges[..i])
    {
      var r := ranges[i];
      var base := total;
      var num := r.first;
      while num <= r.last
        invariant r.first <= num && (num <= r.last + 1 || num == r.first)
        invariant total == base + InvalidSum(AtLeastTwice, r.first, num)
      {
        var invalid := IsInvalidPart2(num);
        if invalid {
          total := total + num;
        }
        num := num + 1;
      }
      assert ranges[..i + 1][..i] == ranges[..i];
      i := i + 1;
    }
    assert ranges[..i] == ranges;
  }

  /** Part 1: a piece that is not two numbers is a ValueError; otherwise the sum over all ranges. */
  method Part1(data: string) returns (r: Result<nat>)
    ensures r.Ok? <==> PiecesOk(data)
    ensures r.Ok? ==> r.value == RangesTotal(Twice, IdRanges(data))
    ensures r.Err? ==> r.error == ParseError
  {
    var ranges := ParseIdRanges(data);
    if ranges.None? {
      return Err(ParseError);
    }
    var total := SumTwice(ranges.value);
    return Ok(total);
  }

  /** Part 2: as part 1, with the patterns written at least twice. */
  method Part2(data: string) returns (r: Result<nat>)
    ensures r.Ok? <==> PiecesOk(data)
    ensures r.Ok? ==> r.value == RangesTotal(AtLeastTwice, IdRanges(data))
    ensures r.Err? ==> r.error == ParseError
  {
    var ranges := ParseIdRanges(data);
    if ranges.None? {
      return Err(ParseError);
    }
    var total := SumAtLeastTwice(ranges.value);
    return Ok(total);
  }
}
