/**
 * Day 3: each bank is a row of battery ratings 0..9. Part 1 picks two batteries in
 * order and reads them as a two-digit number; part 2 picks twelve. Each part sums
 * the largest such number over all banks.
 */
module Day03 {
  import opened Wrappers
  import Text

  type Digit = d: int | 0 <= d <= 9

  function Pow10(e: nat): (p: nat)
    ensures p >= 1
  {
    if e == 0 then 1 else 10 * Pow10(e - 1)
  }

  /** `int(''.join(ds))`: the number whose digits, most significant first, are `ds`. */
  function Number(ds: seq<Digit>): nat
  {
    if ds == [] then 0 else Number(ds[..|ds| - 1]) * 10 + ds[|ds| - 1]
  }

  lemma {:induction false} NumberBound(ds: seq<Digit>)
    ensures Number(ds) < Pow10(|ds|)
    decreases |ds|
  {
    if ds != [] {
      NumberBound(ds[..|ds| - 1]);
    }
  }

  /** Reading from the front: the leading digit, scaled, plus the number the rest spells. */
  lemma {:induction false} NumberLeading(ds: seq<Digit>)
    requires |ds| > 0
    ensures Number(ds) == ds[0] * Pow10(|ds| - 1) + Number(ds[1..])
    decreases |ds|
  {
    var n := |ds|;
    if n == 1 {
      assert ds[..0] == [] && ds[1..] == [];
    } else {
      var init := ds[..n - 1];
      NumberLeading(init);
      assert init[1..] == ds[1..][..n - 2];
      var a, P := ds[0] as int, Pow10(n - 2);
      assert (a * P) * 10 == a * (10 * P);
    }
  }

  /** `a * p + p <= b * p` when `a < b`. */
  lemma {:induction false} MulStep(a: nat, b: nat, p: nat)
    requires a < b
    ensures a * p + p <= b * p
    decreases b
  {
    assert b * p == (b - 1) * p + p;
    if a < b - 1 {
      MulStep(a, b - 1, p);
    }
  }

  /** Digit sequences of equal length compared from the most significant digit. */
  predicate LexLe(xs: seq<Digit>, ys: seq<Digit>)
    requires |xs| == |ys|
  {
    xs == [] || xs[0] < ys[0] || (xs[0] == ys[0] && LexLe(xs[1..], ys[1..]))
  }

  lemma LexLeCons(a: Digit, b: Digit, xs: seq<Digit>, ys: seq<Digit>)
    requires |xs| == |ys| && (a < b || (a == b && LexLe(xs, ys)))
    ensures LexLe([a] + xs, [b] + ys)
  {
    assert ([a] + xs)[1..] == xs && ([b] + ys)[1..] == ys;
  }

  /**
   * Numbers of equal length compare by their leading digit first: a smaller leading
   * digit loses whatever follows it, and an equal one defers to the rest.
   */
  lemma LeadingCompare(a: Digit, b: Digit, xs: seq<Digit>, ys: seq<Digit>)
    requires |xs| == |ys| && a <= b
    ensures a < b || Number(xs) <= Number(ys) ==> Number([a] + xs) <= Number([b] + ys)
  {
    var P := Pow10(|xs|);
    NumberLeading([a] + xs);
    NumberLeading([b] + ys);
    assert ([a] + xs)[1..] == xs && ([b] + ys)[1..] == ys;
    assert Number([a] + xs) == a * P + Number(xs);
    assert Number([b] + ys) == b * P + Number(ys);
    if a < b {
      NumberBound(xs);
      MulStep(a, b, P);
    }
  }

  /** For digit strings of one length, digit order is numeric order. */
  lemma {:induction false} LexLeNumber(xs: seq<Digit>, ys: seq<Digit>)
    requires |xs| == |ys| && LexLe(xs, ys)
    ensures Number(xs) <= Number(ys)
    decreases |xs|
  {
    if xs != [] {
      var a, b, xt, yt := xs[0], ys[0], xs[1..], ys[1..];
      assert xs == [a] + xt && ys == [b] + yt;
      if a == b {
        LexLeNumber(xt, yt);
      }
      LeadingCompare(a, b, xt, yt);
    }
  }

  // ---------------------------------------------------------------------------
  // Selections: batteries picked in bank order

  /** Strictly increasing positions, all in `[lo, n)`. */
  ghost predicate Selection(idx: seq<int>, lo: int, n: int)
    decreases |idx|
  {
    idx == [] || (lo <= idx[0] < n && Selection(idx[1..], idx[0] + 1, n))
  }

  /** What a selection is, position by position. */
  lemma {:induction false} SelectionBounds(idx: seq<int>, lo: int, n: int)
    requires Selection(idx, lo, n)
    ensures forall t :: 0 <= t < |idx| ==> lo <= idx[t] < n
    ensures forall s, t :: 0 <= s < t < |idx| ==> idx[s] < idx[t]
    decreases |idx|
  {
    if idx != [] {
      var tail := idx[1..];
      SelectionBounds(tail, idx[0] + 1, n);
      assert forall t :: 1 <= t < |idx| ==> idx[t] == tail[t - 1];
    }
  }

  lemma SelectionWeaken(idx: seq<int>, lo: int, lo': int, n: int)
    requires Selection(idx, lo, n) && lo' <= lo
    ensures Selection(idx, lo', n)
  {
  }

  /** A selection of `|idx| > 0` positions from `[lo, n)` leaves room for them. */
  lemma {:induction false} SelectionRoom(idx: seq<int>, lo: int, n: int)
    requires Selection(idx, lo, n) && |idx| > 0
    ensures lo + |idx| <= n && idx[0] + |idx| <= n
    decreases |idx|
  {
    if |idx| > 1 {
      SelectionRoom(idx[1..], idx[0] + 1, n);
    }
  }

  lemma SelectionCons(p: int, rest: seq<int>, lo: int, n: int)
    requires lo <= p < n && Selection(rest, p + 1, n)
    ensures Selection([p] + rest, lo, n)
  {
    assert ([p] + rest)[1..] == rest;
  }

  /** The ratings at the picked positions, in order. */
  function Picked(bank: seq<Digit>, idx: seq<int>): (ds: seq<Digit>)
    requires Selection(idx, 0, |bank|)
    ensures |ds| == |idx|
    decreases |idx|
  {
    if idx == [] then []
    else
      SelectionWeaken(idx[1..], idx[0] + 1, 0, |bank|);
      [bank[idx[0]]] + Picked(bank, idx[1..])
  }

  lemma PickedCons(bank: seq<Digit>, idx: seq<int>)
    requires |idx| > 0 && Selection(idx, 0, |bank|)
    ensures Selection(idx[1..], 0, |bank|)
    ensures Picked(bank, idx) == [bank[idx[0]]] + Picked(bank, idx[1..])
  {
    SelectionWeaken(idx[1..], idx[0] + 1, 0, |bank|);
  }

  // ---------------------------------------------------------------------------
  // Part 1: the best pair

  /** The two-digit number read from the batteries at `i < j`. */
  function PairJoltage(bank: seq<Digit>, i: int, j: int): nat
    requires 0 <= i < j < |bank|
  {
    10 * (bank[i] as int) + bank[j]
  }

  /** `max(bank[lo:hi])` over a non-empty range of positions: a rating found in the range. */
  function MaxIn(bank: seq<Digit>, lo: int, hi: int): (m: Digit)
    requires 0 <= lo < hi <= |bank|
    ensures exists t :: lo <= t < hi && bank[t] == m
    decreases hi - lo
  {
    if lo + 1 == hi then bank[lo]
    else
      var m := MaxIn(bank, lo + 1, hi);
      if bank[lo] >= m then bank[lo] else m
  }

  /** No rating in the range exceeds the maximum. */
  lemma {:induction false} MaxInBound(bank: seq<Digit>, lo: int, hi: int, t: int)
    requires 0 <= lo <= t < hi <= |bank|
    ensures bank[t] <= MaxIn(bank, lo, hi)
    decreases hi - lo
  {
    if t > lo {
      MaxInBound(bank, lo + 1, hi, t);
    } else if lo + 1 < hi {
      assert MaxIn(bank, lo, hi) >= bank[lo];
    }
  }

  /** Reference: the best pair, taking or skipping the first battery. */
  function PairMax(bank: seq<Digit>): nat
    decreases |bank|
  {
    if |bank| < 2 then 0
    else
      var withFirst := 10 * (bank[0] as int) + MaxIn(bank, 1, |bank|);
      var rest := PairMax(bank[1..]);
      if withFirst >= rest then withFirst else rest
  }

  /** The reference is the maximum over all pairs `i < j`, and 0 for fewer than two batteries. */
  lemma {:induction false} PairMaxIsMax(bank: seq<Digit>)
    ensures forall i, j :: 0 <= i < j < |bank| ==> PairJoltage(bank, i, j) <= PairMax(bank)
    ensures |bank| >= 2 ==> exists i, j :: 0 <= i < j < |bank| && PairMax(bank) == PairJoltage(bank, i, j)
    ensures |bank| < 2 ==> PairMax(bank) == 0
    decreases |bank|
  {
    if |bank| >= 2 {
      var tail := bank[1..];
      PairMaxIsMax(tail);
      var m := MaxIn(bank, 1, |bank|);
      forall i, j | 0 <= i < j < |bank| ensures PairJoltage(bank, i, j) <= PairMax(bank) {
        if i == 0 {
          MaxInBound(bank, 1, |bank|, j);
        } else {
          assert PairJoltage(bank, i, j) == PairJoltage(tail, i - 1, j - 1);
        }
      }
      var j0 :| 1 <= j0 < |bank| && bank[j0] == m;
      if 10 * (bank[0] as int) + m >= PairMax(tail) {
        assert PairMax(bank) == PairJoltage(bank, 0, j0);
      } else if |tail| >= 2 {
        var i1, j1 :| 0 <= i1 < j1 < |tail| && PairMax(tail) == PairJoltage(tail, i1, j1);
        assert PairMax(bank) == PairJoltage(bank, i1 + 1, j1 + 1);
      }
    }
  }

  /** `find_max_joltage`: the largest `10 * bank[i] + bank[j]` with `i < j`, or 0. */
  method FindMaxJoltage(bank: seq<Digit>) returns (maxJoltage: nat)
    ensures forall i, j :: 0 <= i < j < |bank| ==> PairJoltage(bank, i, j) <= maxJoltage
    ensures |bank| >= 2 ==> exists i, j :: 0 <= i < j < |bank| && maxJoltage == PairJoltage(bank, i, j)
    ensures |bank| < 2 ==> maxJoltage == 0
    ensures maxJoltage <= 99
    ensures maxJoltage == PairMax(bank)
  {
    maxJoltage := 0;
    ghost var wi, wj := 0, 0;
    for i := 0 to |bank|
      invariant forall a, b :: 0 <= a < i && a < b < |bank| ==> PairJoltage(bank, a, b) <= maxJoltage
      invariant i >= 1 && |bank| >= 2 ==> 0 <= wi < wj < |bank| && maxJoltage == PairJoltage(bank, wi, wj)
      invariant |bank| < 2 || i == 0 ==> maxJoltage == 0
      invariant maxJoltage <= 99
    {
      for j := i + 1 to |bank|
        invariant forall a, b :: 0 <= a < i && a < b < |bank| ==> PairJoltage(bank, a, b) <= maxJoltage
        invariant forall b :: i < b < j ==> PairJoltage(bank, i, b) <= maxJoltage
        invariant |bank| < 2 || (i == 0 && j == 1) ==> maxJoltage == 0
        invariant (i >= 1 || j > i + 1) && |bank| >= 2 ==>
                    0 <= wi < wj < |bank| && maxJoltage == PairJoltage(bank, wi, wj)
        invariant maxJoltage <= 99
      {
        var joltage := 10 * (bank[i] as int) + bank[j];
        if joltage >= maxJoltage {
          wi, wj := i, j;
        }
        maxJoltage := if joltage > maxJoltage then joltage else maxJoltage;
      }
    }
    PairMaxIsMax(bank);
  }

  /** Reading a two-battery selection: part 1's pair rule is the `k = 2` case of part 2's. */
  lemma PairIsTwoSelection(bank: seq<Digit>, idx: seq<int>)
    requires |idx| == 2 && Selection(idx, 0, |bank|)
    ensures 0 <= idx[0] < idx[1] < |bank|
    ensures Number(Picked(bank, idx)) == PairJoltage(bank, idx[0], idx[1])
  {
    var ds := Picked(bank, idx);
    PickedCons(bank, idx);
    PickedCons(bank, idx[1..]);
    NumberLeading(ds);
    var last := Picked(bank, idx[1..]);
    assert idx[1..][1..] == [];
    assert ds[1..] == last && last == [bank[idx[1]]] && last[..0] == [];
    assert Pow10(1) == 10;
  }

  // ---------------------------------------------------------------------------
  // Part 2: the greedy choice of k batteries

  /** `bank.index(d, lo, hi)`: a position in `[lo, hi)` holding `d`. */
  function IndexOf(bank: seq<Digit>, d: Digit, lo: int, hi: int): (p: int)
    requires 0 <= lo <= hi <= |bank|
    requires exists t :: lo <= t < hi && bank[t] == d
    ensures lo <= p < hi && bank[p] == d
    decreases hi - lo
  {
    if bank[lo] == d then lo else IndexOf(bank, d, lo + 1, hi)
  }

  /** The position `bank.index` reports is the first one. */
  lemma {:induction false} IndexOfFirst(bank: seq<Digit>, d: Digit, lo: int, hi: int, t: int)
    requires 0 <= lo <= hi <= |bank|
    requires exists t :: lo <= t < hi && bank[t] == d
    requires lo <= t < IndexOf(bank, d, lo, hi)
    ensures bank[t] != d
    decreases hi - lo
  {
    if t > lo {
      IndexOfFirst(bank, d, lo + 1, hi, t);
    }
  }

  /** `bank.index(max(bank[lo:hi]), lo, hi)`: the first largest rating in `[lo, hi)`. */
  function GreedyPick(bank: seq<Digit>, lo: int, hi: int): (p: int)
    requires 0 <= lo < hi <= |bank|
    ensures lo <= p < hi
  {
    IndexOf(bank, MaxIn(bank, lo, hi), lo, hi)
  }

  /** Every other position in the range holds no more, and the ones before it hold less. */
  lemma GreedyPickBest(bank: seq<Digit>, lo: int, hi: int, q: int)
    requires 0 <= lo <= q < hi <= |bank|
    ensures bank[q] <= bank[GreedyPick(bank, lo, hi)]
    ensures q < GreedyPick(bank, lo, hi) ==> bank[q] < bank[GreedyPick(bank, lo, hi)]
  {
    var m := MaxIn(bank, lo, hi);
    MaxInBound(bank, lo, hi, q);
    if q < GreedyPick(bank, lo, hi) {
      IndexOfFirst(bank, m, lo, hi, q);
    }
  }

  /**
   * The digits the greedy choice produces when `r` more batteries are needed and
   * the next may be taken from position `lo` on: the first largest rating among
   * the positions that still leave `r - 1` batteries after it, then the rest.
   */
  function Greedy(bank: seq<Digit>, lo: nat, r: nat): (ds: seq<Digit>)
    requires lo + r <= |bank|
    ensures |ds| == r
    decreases r
  {
    if r == 0 then []
    else
      var p := GreedyPick(bank, lo, |bank| - r + 1);
      [bank[p]] + Greedy(bank, p + 1, r - 1)
  }

  lemma GreedyUnfold(bank: seq<Digit>, lo: nat, r: nat, p: int)
    requires lo + r <= |bank| && r > 0
    requires p == GreedyPick(bank, lo, |bank| - r + 1)
    ensures Greedy(bank, lo, r) == [bank[p]] + Greedy(bank, p + 1, r - 1)
  {
  }

  /** One more greedy digit moves from the remaining choice to the digits already taken. */
  lemma GreedyExtend(bank: seq<Digit>, taken: seq<Digit>, lo: nat, r: nat, p: int, d: Digit)
    requires lo + r <= |bank| && r > 0
    requires p == GreedyPick(bank, lo, |bank| - r + 1) && d == bank[p]
    ensures taken + Greedy(bank, lo, r) == (taken + [d]) + Greedy(bank, p + 1, r - 1)
  {
    GreedyUnfold(bank, lo, r, p);
    assert taken + ([d] + Greedy(bank, p + 1, r - 1)) == (taken + [d]) + Greedy(bank, p + 1, r - 1);
  }

  /** The greedy digits are, digit by digit, the best of every selection of `r` positions from `lo` on. */
  lemma {:induction false} GreedyOptimal(bank: seq<Digit>, lo: nat, r: nat, idx: seq<int>)
    requires lo + r <= |bank|
    requires |idx| == r && Selection(idx, lo, |bank|)
    ensures LexLe(Picked(bank, idx), Greedy(bank, lo, r))
    decreases r
  {
    if r > 0 {
      var n := |bank|;
      var p := GreedyPick(bank, lo, n - r + 1);
      var q := idx[0];
      var tail := idx[1..];
      SelectionRoom(idx, lo, n);
      GreedyPickBest(bank, lo, n - r + 1, q);
      PickedCons(bank, idx);
      GreedyUnfold(bank, lo, r, p);
      var xs, ys := Picked(bank, tail), Greedy(bank, p + 1, r - 1);
      if bank[q] == bank[p] {
        SelectionWeaken(tail, q + 1, p + 1, n);
        GreedyOptimal(bank, p + 1, r - 1, tail);
      }
      LexLeCons(bank[q], bank[p], xs, ys);
    }
  }

  /** The positions the greedy choice takes. */
  ghost function GreedyPositions(bank: seq<Digit>, lo: nat, r: nat): (idx: seq<int>)
    requires lo + r <= |bank|
    ensures |idx| == r && Selection(idx, lo, |bank|)
    decreases r
  {
    if r == 0 then []
    else
      var p := GreedyPick(bank, lo, |bank| - r + 1);
      var rest := GreedyPositions(bank, p + 1, r - 1);
      SelectionCons(p, rest, lo, |bank|);
      [p] + rest
  }

  /** The ratings at the greedy positions are the greedy digits. */
  lemma {:induction false} GreedyPositionsPicked(bank: seq<Digit>, lo: nat, r: nat)
    requires lo + r <= |bank|
    ensures Selection(GreedyPositions(bank, lo, r), 0, |bank|)
    ensures Picked(bank, GreedyPositions(bank, lo, r)) == Greedy(bank, lo, r)
    decreases r
  {
    var idx := GreedyPositions(bank, lo, r);
    SelectionWeaken(idx, lo, 0, |bank|);
    if r > 0 {
      var p := GreedyPick(bank, lo, |bank| - r + 1);
      var rest := GreedyPositions(bank, p + 1, r - 1);
      GreedyPositionsPicked(bank, p + 1, r - 1);
      assert idx[1..] == rest;
      GreedyUnfold(bank, lo, r, p);
      PickedCons(bank, idx);
    }
  }

  /** What `find_max_joltage_k_batteries` returns: 0 when the bank is too short. */
  function MaxJoltageK(bank: seq<Digit>, k: nat): nat
  {
    if k > |bank| then 0 else Number(Greedy(bank, 0, k))
  }

  /** A bank shorter than `k` gives 0; otherwise the result has at most `k` digits. */
  lemma MaxJoltageKBounds(bank: seq<Digit>, k: nat)
    ensures k > |bank| ==> MaxJoltageK(bank, k) == 0
    ensures k <= |bank| ==> MaxJoltageK(bank, k) < Pow10(k)
  {
    if k <= |bank| {
      NumberBound(Greedy(bank, 0, k));
    }
  }

  /** The greedy result is the largest number any order-preserving choice of `k` batteries reads. */
  lemma MaxJoltageKOptimal(bank: seq<Digit>, k: nat)
    requires k <= |bank|
    ensures exists idx :: |idx| == k && Selection(idx, 0, |bank|) && MaxJoltageK(bank, k) == Number(Picked(bank, idx))
    ensures forall idx :: |idx| == k && Selection(idx, 0, |bank|) ==> Number(Picked(bank, idx)) <= MaxJoltageK(bank, k)
  {
    GreedyPositionsPicked(bank, 0, k);
    forall idx | |idx| == k && Selection(idx, 0, |bank|)
      ensures Number(Picked(bank, idx)) <= MaxJoltageK(bank, k)
    {
      GreedyOptimal(bank, 0, k, idx);
      LexLeNumber(Picked(bank, idx), Greedy(bank, 0, k));
    }
  }

  /**
   * `find_max_joltage_k_batteries`: for each of the `k` places take the first largest
   * rating that still leaves enough batteries for the remaining places. The picked
   * positions form a selection whose ratings are the digits of the result.
   */
  method FindMaxJoltageK(bank: seq<Digit>, k: nat) returns (joltage: nat)
    requires k >= 1
    ensures joltage == MaxJoltageK(bank, k)
  {
    var n := |bank|;
    if k > n {
      return 0;
    }
    var result: seq<Digit> := [];
    var start: nat := 0;
    for i := 0 to k
      invariant |result| == i
      invariant start + (k - i) <= n
      invariant result + Greedy(bank, start, k - i) == Greedy(bank, 0, k)
    {
      var remainingNeeded := k - i - 1;
      var end := n - remainingNeeded;
      var maxDigit := MaxIn(bank, start, end);
      var maxIndex := IndexOf(bank, maxDigit, start, end);
      assert maxIndex == GreedyPick(bank, start, end);
      GreedyExtend(bank, result, start, k - i, maxIndex, maxDigit);
      result := result + [maxDigit];
      start := maxIndex + 1;
    }
    assert result + Greedy(bank, start, 0) == result;
    joltage := Number(result);
  }

  // ---------------------------------------------------------------------------
  // Both parts

  function SumPairMax(banks: seq<seq<Digit>>): nat
  {
    if banks == [] then 0 else SumPairMax(banks[..|banks| - 1]) + PairMax(banks[|banks| - 1])
  }

  function SumMaxJoltageK(banks: seq<seq<Digit>>, k: nat): nat
  {
    if banks == [] then 0 else SumMaxJoltageK(banks[..|banks| - 1], k) + MaxJoltageK(banks[|banks| - 1], k)
  }

  /** The summing loop of part 1: the best pair of every bank. */
  method TotalPairMax(banks: seq<seq<Digit>>) returns (total: nat)
    ensures total == SumPairMax(banks)
    ensures total <= 99 * |banks|
  {
    total := 0;
    for b := 0 to |banks|
      invariant total == SumPairMax(banks[..b])
      invariant total <= 99 * b
    {
      var best := FindMaxJoltage(banks[b]);
      assert banks[..b + 1][..b] == banks[..b];
      total := total + best;
    }
    assert banks[..|banks|] == banks;
  }

  const Batteries: nat := 12

  /** The summing loop of part 2: the best choice of twelve batteries in every bank. */
  method TotalMaxJoltageK(banks: seq<seq<Digit>>) returns (total: nat)
    ensures total == SumMaxJoltageK(banks, Batteries)
  {
    total := 0;
    for b := 0 to |banks|
      invariant total == SumMaxJoltageK(banks[..b], Batteries)
    {
      var best := FindMaxJoltageK(banks[b], Batteries);
      assert banks[..b + 1][..b] == banks[..b];
      total := total + best;
    }
    assert banks[..|banks|] == banks;
  }

  // ---------------------------------------------------------------------------
  // The two parts on the text of the input

  /** The ratings of a line of digit characters. */
  function Ratings(line: string): (bank: seq<Digit>)
    requires Text.AllDigits(line)
    ensures |bank| == |line|
  {
    seq(|line|, k requires 0 <= k < |line| => Text.DigitOf(line[k]))
  }

  /**
   * Whether a line passes `int()` when each battery is read. A line shorter than
   * `minimum` reads none: part 1 forms no pair from fewer than two characters and
   * part 2 gives up on fewer than twelve.
   */
  predicate LineOk(line: string, minimum: nat)
  {
    |line| < minimum || Text.AllDigits(line)
  }

  /** The banks of the lines, a line that reads no battery standing for the empty bank. */
  function Banks(lines: seq<string>): (banks: seq<seq<Digit>>)
    ensures |banks| == |lines|
    ensures forall k :: 0 <= k < |lines| && Text.AllDigits(lines[k]) ==> banks[k] == Ratings(lines[k])
  {
    seq(|lines|, k requires 0 <= k < |lines| => if Text.AllDigits(lines[k]) then Ratings(lines[k]) else [])
  }

  /** Part 1: a line of two or more characters with a non-digit is a `ValueError`; otherwise the sum of the best pairs. */
  method Part1(data: string) returns (r: Result<nat>)
    ensures r.Ok? <==> forall k :: 0 <= k < |Text.Lines(data)| ==> LineOk(Text.Lines(data)[k], 2)
    ensures r.Err? ==> r.error == ParseError
    ensures r.Ok? ==> r.value == SumPairMax(Banks(Text.Lines(data)))
  {
    var lines := Text.Lines(data);
    if exists k :: 0 <= k < |lines| && !LineOk(lines[k], 2) {
      return Err(ParseError);
    }
    var total := TotalPairMax(Banks(lines));
    return Ok(total);
  }

  /** Part 2: a line of twelve or more characters with a non-digit fails; otherwise the sum of the best twelve-battery choices. */
  method Part2(data: string) returns (r: Result<nat>)
    ensures r.Ok? <==> forall k :: 0 <= k < |Text.Lines(data)| ==> LineOk(Text.Lines(data)[k], Batteries)
    ensures r.Err? ==> r.error == ParseError
    ensures r.Ok? ==> r.value == SumMaxJoltageK(Banks(Text.Lines(data)), Batteries)
  {
    var lines := Text.Lines(data);
    if exists k :: 0 <= k < |lines| && !LineOk(lines[k], Batteries) {
      return Err(ParseError);
    }
    var total := TotalMaxJoltageK(Banks(lines));
    return Ok(total);
  }
}
