/**
 * Day 6: a worksheet of problems laid out side by side. Character positions where
 * some line has a non-space character form the columns of one problem; the last
 * line holds each problem's operator. Part 1 reads each problem's numbers row by
 * row; part 2 reads one number per character position, right to left, its digits
 * top to bottom.
 */
module Day06 {
  import opened Wrappers
  import Text

  // ----------------------------------------------------------------------------
  // find_column_boundaries

  /** `max(len(line) for line in lines)`. */
  function MaxLen(lines: seq<string>): (m: nat)
    requires |lines| >= 1
    ensures forall k :: 0 <= k < |lines| ==> |lines[k]| <= m
    ensures exists k :: 0 <= k < |lines| && |lines[k]| == m
  {
    if |lines| == 1 then |lines[0]|
    else
      var rest := MaxLen(lines[1..]);
      assert forall k :: 1 <= k < |lines| ==> lines[k] == lines[1..][k - 1];
      if |lines[0]| >= rest then |lines[0]| else rest
  }

  /** Line `k` has a non-space character at position `p`. */
  predicate Marks(lines: seq<string>, k: nat, p: nat)
    requires k < |lines|
  {
    p < |lines[k]| && lines[k][p] != ' '
  }

  /** Some line has a non-space character at position `p`. */
  ghost predicate HasContent(lines: seq<string>, p: nat)
  {
    exists k :: 0 <= k < |lines| && Marks(lines, k, p)
  }

  /** `has_content`: for each position up to the longest line, whether some line has content there. */
  ghost function ContentMask(lines: seq<string>): seq<bool>
    requires |lines| >= 1
  {
    seq(MaxLen(lines), p requires 0 <= p < MaxLen(lines) => HasContent(lines, p))
  }

  /** Position `p` lies in one of the half-open intervals. */
  ghost predicate InAny(cols: seq<(nat, nat)>, p: nat)
  {
    exists j :: 0 <= j < |cols| && cols[j].0 <= p < cols[j].1
  }

  lemma InAnyAppend(cols: seq<(nat, nat)>, c: (nat, nat), p: nat)
    ensures InAny(cols + [c], p) <==> InAny(cols, p) || c.0 <= p < c.1
  {
    if InAny(cols + [c], p) {
      var j :| 0 <= j < |cols| + 1 && (cols + [c])[j].0 <= p < (cols + [c])[j].1;
      if j < |cols| {
        assert cols[j] == (cols + [c])[j];
      }
    }
    if InAny(cols, p) {
      var j :| 0 <= j < |cols| && cols[j].0 <= p < cols[j].1;
      assert cols[j] == (cols + [c])[j];
    }
    if c.0 <= p < c.1 {
      assert (cols + [c])[|cols|] == c;
    }
  }

  /**
   * The intervals are the maximal runs of `true` in `content` at or after `lo`:
   * non-empty, in bounds, in increasing order with a gap between any two, and
   * covering exactly the `true` positions from `lo` on.
   */
  ghost predicate RunsFrom(content: seq<bool>, cols: seq<(nat, nat)>, lo: nat)
  {
    (forall j :: 0 <= j < |cols| ==> lo <= cols[j].0 < cols[j].1 <= |content|) &&
    (forall i, j :: 0 <= i < j < |cols| ==> cols[i].1 < cols[j].0) &&
    (forall p :: lo <= p < |content| ==> (InAny(cols, p) <==> content[p]))
  }

  ghost predicate Runs(content: seq<bool>, cols: seq<(nat, nat)>)
  {
    RunsFrom(content, cols, 0)
  }

  /** The first interval decides where the others may lie. */
  lemma FirstRun(content: seq<bool>, cols: seq<(nat, nat)>, lo: nat)
    requires RunsFrom(content, cols, lo) && cols != []
    ensures forall p :: lo <= p < cols[0].0 ==> !InAny(cols, p)
    ensures !InAny(cols, cols[0].1)
    ensures content[cols[0].0]
    ensures forall p :: cols[0].0 <= p < cols[0].1 ==> content[p]
    ensures cols[0].1 < |content| ==> !content[cols[0].1]
    ensures RunsFrom(content, cols[1..], cols[0].1)
  {
    forall j | 0 < j < |cols| ensures cols[0].1 < cols[j].0 {
    }
    forall p | cols[0].0 <= p < cols[0].1 ensures content[p] {
      assert InAny(cols, p);
    }
    var rest := cols[1..];
    forall p | cols[0].1 <= p < |content| ensures InAny(rest, p) <==> content[p] {
      if InAny(cols, p) {
        var j :| 0 <= j < |cols| && cols[j].0 <= p < cols[j].1;
        assert j > 0 && rest[j - 1] == cols[j];
      }
      if InAny(rest, p) {
        var j :| 0 <= j < |rest| && rest[j].0 <= p < rest[j].1;
        assert cols[j + 1] == rest[j];
      }
    }
    forall j | 0 <= j < |rest| ensures cols[0].1 <= rest[j].0 < rest[j].1 <= |content| {
      assert rest[j] == cols[j + 1];
    }
  }

  /** There is a run exactly when some position from `lo` on is `true`. */
  lemma NonEmptyRuns(content: seq<bool>, cols: seq<(nat, nat)>, lo: nat)
    requires RunsFrom(content, cols, lo)
    ensures cols != [] <==> exists p :: lo <= p < |content| && content[p]
  {
    if cols != [] {
      assert InAny(cols, cols[0].0);
    }
  }

  /** Two lists of maximal runs of the same mask begin with the same interval. */
  lemma SameFirstRun(content: seq<bool>, a: seq<(nat, nat)>, b: seq<(nat, nat)>, lo: nat)
    requires RunsFrom(content, a, lo) && RunsFrom(content, b, lo) && a != [] && b != []
    ensures a[0] == b[0]
  {
    FirstRun(content, a, lo);
    FirstRun(content, b, lo);
  }

  /** After the first interval, the others are the maximal runs from its end. */
  lemma RestRuns(content: seq<bool>, cols: seq<(nat, nat)>, lo: nat)
    requires RunsFrom(content, cols, lo) && cols != []
    ensures RunsFrom(content, cols[1..], cols[0].1)
  {
    FirstRun(content, cols, lo);
  }

  /** Only one list of intervals is the maximal runs of a given mask. */
  lemma {:induction false} RunsFromUnique(content: seq<bool>, a: seq<(nat, nat)>, b: seq<(nat, nat)>, lo: nat)
    requires RunsFrom(content, a, lo) && RunsFrom(content, b, lo)
    ensures a == b
    decreases |a| + |b|
  {
    if a == [] || b == [] {
      NonEmptyRuns(content, a, lo);
      NonEmptyRuns(content, b, lo);
    } else {
      SameFirstRun(content, a, b, lo);
      RestRuns(content, a, lo);
      RestRuns(content, b, lo);
      RunsFromUnique(content, a[1..], b[1..], a[0].1);
      assert a == [a[0]] + a[1..] && b == [b[0]] + b[1..];
    }
  }

  /**
   * The state of the region loop after the first `i` positions: the closed
   * intervals are separated runs below `i`, an open run (when `inColumn`) holds
   * `true` from `start` up to `i`, and together they cover exactly the `true`
   * positions below `i`.
   */
  ghost predicate Scanned(content: seq<bool>, columns: seq<(nat, nat)>, inColumn: bool, start: nat, i: nat)
  {
    i <= |content| &&
    (forall j :: 0 <= j < |columns| ==> columns[j].0 < columns[j].1 < i) &&
    (forall a, b :: 0 <= a < b < |columns| ==> columns[a].1 < columns[b].0) &&
    (inColumn ==> start < i && (columns == [] || columns[|columns| - 1].1 < start)) &&
    (inColumn ==> forall p :: start <= p < i ==> content[p]) &&
    (forall p :: 0 <= p < i ==> (InAny(columns, p) || (inColumn && start <= p) <==> content[p]))
  }

  /** A position that neither opens nor closes a run extends the scan. */
  lemma ScanKeep(content: seq<bool>, columns: seq<(nat, nat)>, inColumn: bool, start: nat, i: nat)
    requires Scanned(content, columns, inColumn, start, i) && i < |content| && content[i] == inColumn
    ensures Scanned(content, columns, inColumn, start, i + 1)
  {
  }

  /** A `true` position after a `false` one opens a run. */
  lemma ScanOpen(content: seq<bool>, columns: seq<(nat, nat)>, start: nat, i: nat)
    requires Scanned(content, columns, false, start, i) && i < |content| && content[i]
    ensures Scanned(content, columns, true, i, i + 1)
  {
  }

  /** The positions covered once the run `[start, end)` is added to the intervals. */
  lemma CloseRun(columns: seq<(nat, nat)>, start: nat, end: nat)
    ensures forall p: nat :: InAny(columns + [(start, end)], p) <==> InAny(columns, p) || start <= p < end
  {
    forall p: nat ensures InAny(columns + [(start, end)], p) <==> InAny(columns, p) || start <= p < end {
      InAnyAppend(columns, (start, end), p);
    }
  }

  /** A `false` position after a `true` one closes the open run. */
  lemma ScanClose(content: seq<bool>, columns: seq<(nat, nat)>, start: nat, i: nat)
    requires Scanned(content, columns, true, start, i) && i < |content| && !content[i]
    ensures Scanned(content, columns + [(start, i)], false, start, i + 1)
  {
    CloseRun(columns, start, i);
  }

  /** At the end of the mask, closing any open run leaves the maximal runs. */
  lemma ScanFinish(content: seq<bool>, columns: seq<(nat, nat)>, inColumn: bool, start: nat)
    requires Scanned(content, columns, inColumn, start, |content|)
    ensures Runs(content, if inColumn then columns + [(start, |content|)] else columns)
  {
    if inColumn {
      CloseRun(columns, start, |content|);
    }
  }

  /** The region loop of `find_column_boundaries`: the maximal runs of `true`. */
  method ContentRuns(content: seq<bool>) returns (columns: seq<(nat, nat)>)
    ensures Runs(content, columns)
  {
    columns := [];
    var inColumn := false;
    var start: nat := 0;
    for i := 0 to |content|
      invariant Scanned(content, columns, inColumn, start, i)
    {
      var hasChar := content[i];
      if hasChar && !inColumn {
        ScanOpen(content, columns, start, i);
        inColumn := true;
        start := i;
      } else if !hasChar && inColumn {
        ScanClose(content, columns, start, i);
        inColumn := false;
        columns := columns + [(start, i)];
      } else {
        ScanKeep(content, columns, inColumn, start, i);
      }
    }
    ScanFinish(content, columns, inColumn, start);
    if inColumn {
      columns := columns + [(start, |content|)];
    }
  }

  /**
   * `find_column_boundaries`: mark the positions where any line has a non-space
   * character, then return the maximal runs of marked positions.
   */
  method FindColumnBoundaries(lines: seq<string>) returns (columns: seq<(nat, nat)>)
    requires |lines| >= 1
    ensures Runs(ContentMask(lines), columns)
    ensures forall c :: c in columns ==> c.1 <= MaxLen(lines)
  {
    var maxLen := MaxLen(lines);
    var hasContent := new bool[maxLen](_ => false);
    for k := 0 to |lines|
      invariant forall p :: 0 <= p < maxLen ==> (hasContent[p] <==> exists q :: 0 <= q < k && Marks(lines, q, p))
    {
      var line := lines[k];
      for i := 0 to |line|
        invariant forall p :: 0 <= p < maxLen ==>
                    (hasContent[p] <==> (exists q :: 0 <= q < k && Marks(lines, q, p)) || (p < i && Marks(lines, k, p)))
      {
        if line[i] != ' ' {
          hasContent[i] := true;
        }
      }
    }
    assert hasContent[..] == ContentMask(lines);
    columns := ContentRuns(hasContent[..]);
    forall c | c in columns ensures c.1 <= maxLen {
      var j :| 0 <= j < |columns| && columns[j] == c;
    }
  }

  // ----------------------------------------------------------------------------
  // Evaluating one problem

  function Sum(numbers: seq<int>): int
  {
    if numbers == [] then 0 else Sum(numbers[..|numbers| - 1]) + numbers[|numbers| - 1]
  }

  function Product(numbers: seq<int>): int
  {
    if numbers == [] then 1 else Product(numbers[..|numbers| - 1]) * numbers[|numbers| - 1]
  }

  /** `'+'` sums, `'*'` multiplies (the empty product is 1), anything else gives 0. */
  function Evaluate(operator: string, numbers: seq<int>): int
  {
    if operator == "+" then Sum(numbers) else if operator == "*" then Product(numbers) else 0
  }

  /** Evaluating a problem whose numbers are split in two combines the two halves' values. */
  lemma {:induction false} EvaluateAppend(operator: string, a: seq<int>, b: seq<int>)
    ensures operator == "+" ==> Evaluate(operator, a + b) == Evaluate(operator, a) + Evaluate(operator, b)
    ensures operator == "*" ==> Evaluate(operator, a + b) == Evaluate(operator, a) * Evaluate(operator, b)
    ensures operator != "+" && operator != "*" ==> Evaluate(operator, a + b) == 0
    decreases |b|
  {
    if b == [] {
      assert a + b == a;
    } else {
      var b' := b[..|b| - 1];
      assert (a + b)[..|a + b| - 1] == a + b';
      assert (a + b)[|a + b| - 1] == b[|b| - 1];
      EvaluateAppend(operator, a, b');
      if operator == "*" {
        var x, y, z := Product(a), Product(b'), b[|b| - 1];
        assert (x * y) * z == x * (y * z);
      }
    }
  }

  /**
   * The operator dispatch that ends both column functions: `sum` for `'+'`,
   * a running product for `'*'`, and 0 for anything else.
   */
  method EvaluateNumbers(operator: string, numbers: seq<int>) returns (result: int)
    ensures result == Evaluate(operator, numbers)
  {
    if operator == "+" {
      return Sum(numbers);
    }
    if operator == "*" {
      result := 1;
      for k := 0 to |numbers|
        invariant result == Product(numbers[..k])
      {
        assert numbers[..k + 1][..k] == numbers[..k];
        result := result * numbers[k];
      }
      assert numbers[..|numbers|] == numbers;
      return result;
    }
    return 0;
  }

  /** Python's `s[start:end]` for non-negative bounds: clamped to the string. */
  function Slice(s: string, start: nat, end: nat): (t: string)
    ensures |t| <= |s|
  {
    var lo := if start <= |s| then start else |s|;
    var hi := if end <= |s| then end else |s|;
    if lo < hi then s[lo..hi] else []
  }

  /** `lines[-1][start:end].strip()`. */
  function Operator(lines: seq<string>, start: nat, end: nat): string
    requires |lines| >= 1
  {
    Text.Strip(Slice(lines[|lines| - 1], start, end))
  }

  /** `lines[row_idx][start:end].strip()` for every row but the last. */
  function RowTexts(lines: seq<string>, start: nat, end: nat): (texts: seq<string>)
    requires |lines| >= 1
    ensures |texts| == |lines| - 1
  {
    seq(|lines| - 1, k requires 0 <= k < |lines| - 1 => Text.Strip(Slice(lines[k], start, end)))
  }

  /** One row's text added to the numbers so far: skipped when blank, else read with `int()`. */
  function AddText(numbers: seq<int>, text: string): Option<seq<int>>
  {
    if text == [] then Some(numbers)
    else match Text.ParseInt(text)
      case None => None
      case Some(n) => Some(numbers + [n])
  }

  /** The numbers of the row texts in order, or `None` when some non-blank text is not a number. */
  function ParsedNumbers(texts: seq<string>): (r: Option<seq<int>>)
    ensures r.Some? ==> |r.value| <= |texts|
  {
    if texts == [] then Some([])
    else
      match ParsedNumbers(texts[..|texts| - 1])
      case None => None
      case Some(numbers) => AddText(numbers, texts[|texts| - 1])
  }

  /** Reading one more row adds that row's text. */
  lemma ParsedNumbersStep(texts: seq<string>, k: nat, numbers: seq<int>)
    requires k < |texts| && ParsedNumbers(texts[..k]) == Some(numbers)
    ensures ParsedNumbers(texts[..k + 1]) == AddText(numbers, texts[k])
  {
    assert texts[..k + 1][..k] == texts[..k];
  }

  /** Once a row fails to parse, the problem fails. */
  lemma {:induction false} ParsedNumbersStaysNone(texts: seq<string>, k: nat)
    requires k <= |texts| && ParsedNumbers(texts[..k]).None?
    ensures ParsedNumbers(texts).None?
    decreases |texts| - k
  {
    if k < |texts| {
      assert texts[..k + 1][..k] == texts[..k];
      ParsedNumbersStaysNone(texts, k + 1);
    } else {
      assert texts[..k] == texts;
    }
  }

  /** A blank row, wherever it sits, changes nothing. */
  lemma {:induction false} BlankTextSkipped(a: seq<string>, b: seq<string>)
    ensures ParsedNumbers(a + [[]] + b) == ParsedNumbers(a + b)
    decreases |b|
  {
    if b == [] {
      var t := a + [[]];
      assert t[..|t| - 1] == a && t[|t| - 1] == [];
      assert a + [[]] + b == t && a + b == a;
      match ParsedNumbers(a)
      case None =>
      case Some(numbers) => assert AddText(numbers, []) == Some(numbers);
    } else {
      var b' := b[..|b| - 1];
      assert (a + [[]] + b)[..|a| + |b|] == a + [[]] + b';
      assert (a + b)[..|a| + |b| - 1] == a + b';
      BlankTextSkipped(a, b');
    }
  }

  /** What `calculate_column_result` returns, or the `ValueError` it raises. */
  function ColumnValue(lines: seq<string>, start: nat, end: nat): Result<int>
    requires |lines| >= 1
  {
    var parsed := ParsedNumbers(RowTexts(lines, start, end));
    if parsed.None? then Err(ParseError) else Ok(Evaluate(Operator(lines, start, end), parsed.value))
  }

  /** `calculate_column_result`. */
  method CalculateColumnResult(lines: seq<string>, start: nat, end: nat) returns (r: Result<int>)
    requires |lines| >= 1
    ensures r == ColumnValue(lines, start, end)
  {
    var operator := Operator(lines, start, end);
    ghost var texts := RowTexts(lines, start, end);
    var numbers: seq<int> := [];
    for rowIdx := 0 to |lines| - 1
      invariant ParsedNumbers(texts[..rowIdx]) == Some(numbers)
    {
      var text := Text.Strip(Slice(lines[rowIdx], start, end));
      assert text == texts[rowIdx];
      ParsedNumbersStep(texts, rowIdx, numbers);
      if text != [] {
        match Text.ParseInt(text)
        case None =>
          ParsedNumbersStaysNone(texts, rowIdx + 1);
          return Err(ParseError);
        case Some(n) => numbers := numbers + [n];
      }
    }
    assert texts[..|lines| - 1] == texts;
    var result := EvaluateNumbers(operator, numbers);
    return Ok(result);
  }

  // ----------------------------------------------------------------------------
  // Cephalopod reading

  /** The digit characters at position `pos` in the first `rows` lines, top to bottom. */
  function ColumnDigits(lines: seq<string>, pos: nat, rows: nat): (ds: string)
    requires rows <= |lines|
    ensures Text.AllDigits(ds) && |ds| <= rows
  {
    if rows == 0 then []
    else
      var above := ColumnDigits(lines, pos, rows - 1);
      if pos < |lines[rows - 1]| && Text.IsDigitChar(lines[rows - 1][pos]) then above + [lines[rows - 1][pos]]
      else above
  }

  /**
   * The numbers of a problem read right to left: one per position from `end - 1`
   * down to `start` whose column holds a digit, made of that column's digits.
   */
  function CephalopodNumbers(lines: seq<string>, start: nat, end: nat): (ns: seq<int>)
    requires |lines| >= 1
    ensures |ns| <= if start <= end then end - start else 0
    decreases end
  {
    if end <= start then []
    else
      var ds := ColumnDigits(lines, end - 1, |lines| - 1);
      (if ds != [] then [Text.DigitsValue(ds) as int] else []) + CephalopodNumbers(lines, start, end - 1)
  }

  /** Reading right to left: the right part's numbers come before the left part's. */
  lemma {:induction false} CephalopodSplit(lines: seq<string>, start: nat, mid: nat, end: nat)
    requires |lines| >= 1 && start <= mid <= end
    ensures CephalopodNumbers(lines, start, end) ==
            CephalopodNumbers(lines, mid, end) + CephalopodNumbers(lines, start, mid)
    decreases end
  {
    if mid < end {
      CephalopodSplit(lines, start, mid, end - 1);
    }
  }

  /** A one-position problem holds one number when its column has a digit, and none otherwise. */
  lemma CephalopodOne(lines: seq<string>, pos: nat, digits: string)
    requires |lines| >= 1 && digits == ColumnDigits(lines, pos, |lines| - 1)
    ensures CephalopodNumbers(lines, pos, pos + 1) == if digits != [] then [Text.DigitsValue(digits) as int] else []
  {
    assert CephalopodNumbers(lines, pos, pos) == [];
  }

  /** Moving one position further left appends that position's number, if any. */
  lemma CephalopodStep(lines: seq<string>, pos: nat, end: nat, digits: string)
    requires |lines| >= 1 && pos < end && digits == ColumnDigits(lines, pos, |lines| - 1)
    ensures CephalopodNumbers(lines, pos, end) ==
            CephalopodNumbers(lines, pos + 1, end) + (if digits != [] then [Text.DigitsValue(digits) as int] else [])
  {
    CephalopodSplit(lines, pos, pos + 1, end);
    CephalopodOne(lines, pos, digits);
  }

  /** The digit loop of `calculate_column_result_cephalopod`: position `colPos` of every row but the last. */
  method ReadColumn(lines: seq<string>, colPos: nat) returns (digits: string)
    requires |lines| >= 1
    ensures digits == ColumnDigits(lines, colPos, |lines| - 1)
  {
    digits := [];
    for rowIdx := 0 to |lines| - 1
      invariant digits == ColumnDigits(lines, colPos, rowIdx)
    {
      if colPos < |lines[rowIdx]| {
        var ch := lines[rowIdx][colPos];
        if Text.IsDigitChar(ch) {
          digits := digits + [ch];
        }
      }
    }
  }

  /** `calculate_column_result_cephalopod`. */
  method CalculateColumnResultCephalopod(lines: seq<string>, start: nat, end: nat) returns (result: int)
    requires |lines| >= 1
    ensures result == Evaluate(Operator(lines, start, end), CephalopodNumbers(lines, start, end))
  {
    var operator := Operator(lines, start, end);
    var numbers: seq<int> := [];
    var colPos: int := end - 1;
    while colPos >= start as int
      invariant colPos < end && (colPos == end - 1 || start as int - 1 <= colPos)
      invariant numbers == CephalopodNumbers(lines, colPos + 1, end)
    {
      var digits := ReadColumn(lines, colPos);
      CephalopodStep(lines, colPos, end, digits);
      if digits != [] {
        var number := Text.DigitsValue(digits);
        numbers := numbers + [number];
      }
      colPos := colPos - 1;
    }
    result := EvaluateNumbers(operator, numbers);
  }

  // ----------------------------------------------------------------------------
  // Grand totals

  /** Adding one problem's value to a running total; an error on either side wins, the earlier first. */
  function AddValue(total: Result<int>, value: Result<int>): Result<int>
  {
    match total
    case Err(e) => Err(e)
    case Ok(t) =>
      match value
      case Err(e) => Err(e)
      case Ok(v) => Ok(t + v)
  }

  /** The sum of the values from left to right, or the first error among them. */
  function Total(values: seq<Result<int>>): Result<int>
  {
    if values == [] then Ok(0) else AddValue(Total(values[..|values| - 1]), values[|values| - 1])
  }

  /** A value after an error-free prefix adds to its total. */
  lemma TotalAdds(values: seq<Result<int>>, k: nat, total: int, v: int)
    requires k < |values| && Total(values[..k]) == Ok(total) && values[k] == Ok(v)
    ensures Total(values[..k + 1]) == Ok(total + v)
  {
    assert values[..k + 1][..k] == values[..k];
  }

  /** Once an error is met, the rest of the values do not matter. */
  lemma {:induction false} TotalStaysErr(values: seq<Result<int>>, k: nat)
    requires k <= |values| && Total(values[..k]).Err?
    ensures Total(values) == Total(values[..k])
    decreases |values| - k
  {
    if k < |values| {
      assert values[..k + 1][..k] == values[..k];
      TotalStaysErr(values, k + 1);
    } else {
      assert values[..k] == values;
    }
  }

  /** An error after an error-free prefix is the outcome of the whole total. */
  lemma TotalFails(values: seq<Result<int>>, k: nat, total: int)
    requires k < |values| && Total(values[..k]) == Ok(total) && values[k].Err?
    ensures Total(values) == values[k]
  {
    assert values[..k + 1][..k] == values[..k];
    TotalStaysErr(values, k + 1);
  }

  /** The total is an error exactly when some value is, and then it is the first one. */
  lemma {:induction false} TotalFirstError(values: seq<Result<int>>)
    ensures Total(values).Err? <==> exists j :: 0 <= j < |values| && values[j].Err?
    ensures Total(values).Err? ==>
              exists j :: 0 <= j < |values| && Total(values) == values[j] &&
                          forall i :: 0 <= i < j ==> values[i].Ok?
  {
    if values != [] {
      var init := values[..|values| - 1];
      TotalFirstError(init);
      assert forall i :: 0 <= i < |init| ==> init[i] == values[i];
    }
  }

  /** The value of each problem in the order the runs list them. */
  function ColumnValues(lines: seq<string>, cols: seq<(nat, nat)>): (values: seq<Result<int>>)
    requires |lines| >= 1
    ensures |values| == |cols|
  {
    seq(|cols|, j requires 0 <= j < |cols| => ColumnValue(lines, cols[j].0, cols[j].1))
  }

  /** Part 1's grand total over the given problems, or the first `ValueError`. */
  function GrandTotal(lines: seq<string>, cols: seq<(nat, nat)>): Result<int>
    requires |lines| >= 1
  {
    Total(ColumnValues(lines, cols))
  }

  /** Part 2's grand total over the given problems. */
  function CephalopodTotal(lines: seq<string>, cols: seq<(nat, nat)>): int
    requires |lines| >= 1
  {
    if cols == [] then 0
    else
      CephalopodTotal(lines, cols[..|cols| - 1]) +
      Evaluate(Operator(lines, cols[|cols| - 1].0, cols[|cols| - 1].1),
               CephalopodNumbers(lines, cols[|cols| - 1].0, cols[|cols| - 1].1))
  }

  /** The loop of `part1`: add up the problems' values, stopping at the first `ValueError`. */
  method SumColumns(lines: seq<string>, columns: seq<(nat, nat)>) returns (r: Result<int>)
    requires |lines| >= 1
    ensures r == GrandTotal(lines, columns)
  {
    ghost var values := ColumnValues(lines, columns);
    var grandTotal := 0;
    for k := 0 to |columns|
      invariant Total(values[..k]) == Ok(grandTotal)
    {
      var v := CalculateColumnResult(lines, columns[k].0, columns[k].1);
      assert values[k] == v;
      if v.Err? {
        TotalFails(values, k, grandTotal);
        return Err(v.error);
      }
      TotalAdds(values, k, grandTotal, v.value);
      grandTotal := grandTotal + v.value;
    }
    assert values[..|columns|] == values;
    return Ok(grandTotal);
  }

  /**
   * `part1` once the worksheet is split into lines: the total over its problems. The
   * problems' column runs exist, and the total is the same whichever list of runs is taken.
   */
  method WorksheetTotal(lines: seq<string>) returns (r: Result<int>)
    requires |lines| >= 1
    ensures exists cols :: Runs(ContentMask(lines), cols)
    ensures forall cols :: Runs(ContentMask(lines), cols) ==> r == GrandTotal(lines, cols)
  {
    var columns := FindColumnBoundaries(lines);
    UniqueColumns(lines, columns);
    r := SumColumns(lines, columns);
  }

  lemma UniqueColumns(lines: seq<string>, columns: seq<(nat, nat)>)
    requires |lines| >= 1
    requires Runs(ContentMask(lines), columns)
    ensures forall cols :: Runs(ContentMask(lines), cols) ==> cols == columns
  {
    forall cols | Runs(ContentMask(lines), cols) ensures cols == columns {
      RunsFromUnique(ContentMask(lines), cols, columns, 0);
    }
  }

  /** One more problem adds its cephalopod value. */
  lemma CephalopodTotalStep(lines: seq<string>, cols: seq<(nat, nat)>, k: nat)
    requires |lines| >= 1 && k < |cols|
    ensures CephalopodTotal(lines, cols[..k + 1]) ==
            CephalopodTotal(lines, cols[..k]) +
            Evaluate(Operator(lines, cols[k].0, cols[k].1), CephalopodNumbers(lines, cols[k].0, cols[k].1))
  {
    assert cols[..k + 1][..k] == cols[..k];
  }

  /** The loop of `part2`: add up the problems' cephalopod values. */
  method SumCephalopodColumns(lines: seq<string>, columns: seq<(nat, nat)>) returns (grandTotal: int)
    requires |lines| >= 1
    ensures grandTotal == CephalopodTotal(lines, columns)
  {
    grandTotal := 0;
    for k := 0 to |columns|
      invariant CephalopodTotal(lines, columns[..k]) == grandTotal
    {
      CephalopodTotalStep(lines, columns, k);
      var v := CalculateColumnResultCephalopod(lines, columns[k].0, columns[k].1);
      grandTotal := grandTotal + v;
    }
    assert columns[..|columns|] == columns;
  }

  /** `part2` once the worksheet is split into lines, reading the numbers column by column. */
  method CephalopodWorksheetTotal(lines: seq<string>) returns (grandTotal: int)
    requires |lines| >= 1
    ensures exists cols :: Runs(ContentMask(lines), cols)
    ensures forall cols :: Runs(ContentMask(lines), cols) ==> grandTotal == CephalopodTotal(lines, cols)
  {
    var columns := FindColumnBoundaries(lines);
    UniqueColumns(lines, columns);
    grandTotal := SumCephalopodColumns(lines, columns);
  }

  /** `part1`: the worksheet is the stripped input split into lines. */
  method Part1(data: string) returns (r: Result<int>)
    ensures exists cols :: Runs(ContentMask(Text.Lines(data)), cols)
    ensures forall cols :: Runs(ContentMask(Text.Lines(data)), cols) ==> r == GrandTotal(Text.Lines(data), cols)
  {
    r := WorksheetTotal(Text.Lines(data));
  }

  /** `part2`: the worksheet is the stripped input split into lines. */
  method Part2(data: string) returns (grandTotal: int)
    ensures exists cols :: Runs(ContentMask(Text.Lines(data)), cols)
    ensures forall cols :: Runs(ContentMask(Text.Lines(data)), cols) ==>
              grandTotal == CephalopodTotal(Text.Lines(data), cols)
  {
    grandTotal := CephalopodWorksheetTotal(Text.Lines(data));
  }
}
