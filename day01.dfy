/**
 * Day 1: a dial numbered 0..99 starts at 50 and is turned by a list of rotations
 * such as "L68" or "R48". Part 1 counts the rotations that leave the dial at 0;
 * part 2 counts every click, during any rotation, at which the dial shows 0.
 */
module Day01 {
  import opened Wrappers
  import Text

  const DialSize: nat := 100
  const StartPosition: nat := 50

  datatype Rotation = Rotation(direction: char, distance: nat)

  /**
   * `direction = line[0]`, `distance = int(line[1:])`, for an unsigned digit string:
   * an empty line is an `IndexError`, a bad distance a `ValueError`.
   */
  function ParseRotation(line: string): (r: Result<Rotation>)
    ensures r.Ok? <==> |line| >= 2 && Text.AllDigits(line[1..])
    ensures line == [] ==> r == Err(IndexError)
    ensures line != [] && r.Err? ==> r == Err(ParseError)
    ensures r.Ok? ==> r.value.direction == line[0] && Text.ParseNat(line[1..]) == Some(r.value.distance)
  {
    if |line| >= 1 then
      match Text.ParseNat(line[1..])
      case Some(d) => Ok(Rotation(line[0], d))
      case None => Err(ParseError)
    else Err(IndexError)
  }

  /**
   * `part1`/`part2` read the lines in order and stop at the first that does not parse:
   * the rotations of all lines, or the error of the first bad line.
   */
  function ParseRotations(lines: seq<string>): (r: Result<seq<Rotation>>)
    ensures r.Ok? <==> forall k :: 0 <= k < |lines| ==> ParseRotation(lines[k]).Ok?
    ensures r.Ok? ==> |r.value| == |lines| && forall k :: 0 <= k < |lines| ==> ParseRotation(lines[k]) == Ok(r.value[k])
    ensures r.Err? ==> exists k :: 0 <= k < |lines| && ParseRotation(lines[k]) == Err(r.error) &&
                                   forall j :: 0 <= j < k ==> ParseRotation(lines[j]).Ok?
    decreases |lines|
  {
    if lines == [] then Ok([])
    else
      var tail := ParseRotations(lines[1..]);
      assert forall k :: 0 < k < |lines| ==> lines[k] == lines[1..][k - 1];
      match ParseRotation(lines[0])
      case Err(e) => Err(e)
      case Ok(first) =>
        if tail.Err? then
          Err(tail.error)
        else Ok([first] + tail.value)
  }

  lemma ParseFormattedRotation(r: Rotation)
    ensures ParseRotation([r.direction] + Text.Decimal(r.distance)) == Ok(r)
  {
    var line := [r.direction] + Text.Decimal(r.distance);
    assert line[1..] == Text.Decimal(r.distance);
    Text.ParseNatDecimal(r.distance);
  }

  /** Where the dial points after one rotation; any letter other than 'L' turns right. */
  function Turn(position: int, r: Rotation): (p: int)
    ensures 0 <= p < DialSize
  {
    if r.direction == 'L' then (position - r.distance) % DialSize
    else (position + r.distance) % DialSize
  }

  // ---------------------------------------------------------------------------
  // The dial click by click: the reference the arithmetic is checked against.

  function Click(p: nat, left: bool): (q: nat)
    requires p < DialSize
    ensures q < DialSize
  {
    if left then (if p == 0 then DialSize - 1 else p - 1)
    else (if p == DialSize - 1 then 0 else p + 1)
  }

  /** The dial position after `d` single clicks. */
  function ClickPosition(p: nat, left: bool, d: nat): (q: nat)
    requires p < DialSize
    ensures q < DialSize
    decreases d
  {
    if d == 0 then p else ClickPosition(Click(p, left), left, d - 1)
  }

  /** How many of the `d` clicks starting at `p` leave the dial at 0. */
  function ZeroClicks(p: nat, left: bool, d: nat): nat
    requires p < DialSize
    decreases d
  {
    if d == 0 then 0
    else (if Click(p, left) == 0 then 1 else 0) + ZeroClicks(Click(p, left), left, d - 1)
  }

  /** Reducing modulo 100 is the same as clicking one step at a time. */
  lemma {:induction false} TurnIsClicks(p: nat, r: Rotation)
    requires p < DialSize
    ensures Turn(p, r) == ClickPosition(p, r.direction == 'L', r.distance)
    decreases r.distance
  {
    if r.distance > 0 {
      var left := r.direction == 'L';
      var q := Click(p, left);
      TurnIsClicks(q, Rotation(r.direction, r.distance - 1));
      if left && p == 0 {
        ShiftMod(-(r.distance as int));
      } else if !left && p == DialSize - 1 {
        ShiftMod(r.distance - 1);
      }
    }
  }

  lemma ShiftMod(x: int)
    ensures (x + DialSize) % DialSize == x % DialSize
  {
  }

  /** Part 2's count for a right turn: `(position + distance) // 100`. */
  lemma {:induction false} RightCrossings(p: nat, d: nat)
    requires p < DialSize
    ensures (p + d) / DialSize == ZeroClicks(p, false, d)
    decreases d
  {
    if d > 0 {
      RightCrossings(Click(p, false), d - 1);
    }
  }

  /** Part 2's count for a left turn: `distance // 100` from 0, else `(distance - position + 100) // 100`. */
  lemma {:induction false} LeftCrossings(p: nat, d: nat)
    requires p < DialSize
    ensures (if p == 0 then d / DialSize else (d - p + DialSize) / DialSize) == ZeroClicks(p, true, d)
    decreases d
  {
    if d > 0 {
      LeftCrossings(Click(p, true), d - 1);
    }
  }

  // ---------------------------------------------------------------------------
  // Whole input

  /** The number of rotations in `rs` that end at 0, starting from `p`. */
  function ZeroLandings(p: int, rs: seq<Rotation>): nat
    decreases rs
  {
    if rs == [] then 0
    else (if Turn(p, rs[0]) == 0 then 1 else 0) + ZeroLandings(Turn(p, rs[0]), rs[1..])
  }

  /** Where the dial points after all of `rs`, starting from `p`. */
  function FinalPosition(p: int, rs: seq<Rotation>): int
    decreases rs
  {
    if rs == [] then p else FinalPosition(Turn(p, rs[0]), rs[1..])
  }

  /** Every click of every rotation in `rs` that leaves the dial at 0. */
  function TotalZeroClicks(p: nat, rs: seq<Rotation>): nat
    requires p < DialSize
    decreases rs
  {
    if rs == [] then 0
    else ZeroClicks(p, rs[0].direction == 'L', rs[0].distance) + TotalZeroClicks(Turn(p, rs[0]), rs[1..])
  }

  lemma {:induction false} ZeroLandingsSplit(p: int, rs: seq<Rotation>, i: nat)
    requires i < |rs|
    ensures ZeroLandings(p, rs[..i + 1]) ==
            ZeroLandings(p, rs[..i]) + (if Turn(FinalPosition(p, rs[..i]), rs[i]) == 0 then 1 else 0)
    ensures FinalPosition(p, rs[..i + 1]) == Turn(FinalPosition(p, rs[..i]), rs[i])
    decreases i
  {
    if i > 0 {
      var rest := rs[1..];
      assert rs[..i + 1][1..] == rest[..i] && rs[..i][1..] == rest[..i - 1];
      ZeroLandingsSplit(Turn(p, rs[0]), rest, i - 1);
    }
  }

  lemma {:induction false} TotalZeroClicksSplit(p: nat, rs: seq<Rotation>, i: nat)
    requires p < DialSize && i < |rs|
    requires 0 <= FinalPosition(p, rs[..i]) < DialSize
    ensures TotalZeroClicks(p, rs[..i + 1]) ==
            TotalZeroClicks(p, rs[..i]) +
            ZeroClicks(FinalPosition(p, rs[..i]), rs[i].direction == 'L', rs[i].distance)
    decreases i
  {
    if i > 0 {
      var rest := rs[1..];
      assert rs[..i + 1][1..] == rest[..i] && rs[..i][1..] == rest[..i - 1];
      assert FinalPosition(p, rs[..i]) == FinalPosition(Turn(p, rs[0]), rest[..i - 1]);
      TotalZeroClicksSplit(Turn(p, rs[0]), rest, i - 1);
    }
  }

  /** The counting loop of part 1: the number of rotations that leave the dial at 0. */
  method CountLandings(rotations: seq<Rotation>) returns (count: nat)
    ensures count == ZeroLandings(StartPosition, rotations)
    ensures count <= |rotations|
  {
    var position: int := StartPosition;
    count := 0;
    var i := 0;
    while i < |rotations|
      invariant 0 <= i <= |rotations|
      invariant 0 <= position < DialSize
      invariant position == FinalPosition(StartPosition, rotations[..i])
      invariant count == ZeroLandings(StartPosition, rotations[..i])
      invariant count <= i
    {
      ZeroLandingsSplit(StartPosition, rotations, i);
      position := Turn(position, rotations[i]);
      if position == 0 {
        count := count + 1;
      }
      i := i + 1;
    }
    assert rotations[..i] == rotations;
  }

  predicate LeftOrRight(r: Rotation) { r.direction == 'L' || r.direction == 'R' }

  /**
   * The counting loop of part 2: the number of clicks at which the dial shows 0. The
   * direction test for the count (`== 'R'`) and the one for the move (`== 'L'`) are
   * the source's own.
   */
  method CountZeroClicks(rotations: seq<Rotation>) returns (count: nat)
    ensures (forall k :: 0 <= k < |rotations| ==> LeftOrRight(rotations[k])) ==>
              count == TotalZeroClicks(StartPosition, rotations)
  {
    var position: nat := StartPosition;
    count := 0;
    var i := 0;
    ghost var wellFormed := true;
    while i < |rotations|
      invariant 0 <= i <= |rotations|
      invariant position < DialSize
      invariant position == FinalPosition(StartPosition, rotations[..i])
      invariant wellFormed <==> forall k :: 0 <= k < i ==> LeftOrRight(rotations[k])
      invariant wellFormed ==> count == TotalZeroClicks(StartPosition, rotations[..i])
    {
      var r := rotations[i];
      ZeroLandingsSplit(StartPosition, rotations, i);
      TotalZeroClicksSplit(StartPosition, rotations, i);
      if r.direction == 'R' {
        RightCrossings(position, r.distance);
        count := count + (position + r.distance) / DialSize;
      } else {
        LeftCrossings(position, r.distance);
        if position == 0 {
          count := count + r.distance / DialSize;
        } else {
          count := count + (r.distance - position + DialSize) / DialSize;
        }
      }
      wellFormed := wellFormed && LeftOrRight(r);
      position := Turn(position, r);
      i := i + 1;
    }
    assert rotations[..i] == rotations;
  }

  /** Part 1 on the input text: the first bad line's error, or the number of rotations ending at 0. */
  method Part1(data: string) returns (r: Result<nat>)
    ensures ParseRotations(Text.Lines(data)).Err? ==> r == Err(ParseRotations(Text.Lines(data)).error)
    ensures ParseRotations(Text.Lines(data)).Ok? ==>
              r == Ok(ZeroLandings(StartPosition, ParseRotations(Text.Lines(data)).value))
  {
    var rotations := ParseRotations(Text.Lines(data));
    if rotations.Err? {
      return Err(rotations.error);
    }
    var count := CountLandings(rotations.value);
    return Ok(count);
  }

  /** Part 2 on the input text: the first bad line's error, or for L/R rotations the number of clicks at 0. */
  method Part2(data: string) returns (r: Result<nat>)
    ensures ParseRotations(Text.Lines(data)).Err? ==> r == Err(ParseRotations(Text.Lines(data)).error)
    ensures ParseRotations(Text.Lines(data)).Ok? ==> r.Ok?
    ensures var rotations := ParseRotations(Text.Lines(data));
      rotations.Ok? && (forall k :: 0 <= k < |rotations.value| ==> LeftOrRight(rotations.value[k])) ==>
        r == Ok(TotalZeroClicks(StartPosition, rotations.value))
  {
    var rotations := ParseRotations(Text.Lines(data));
    if rotations.Err? {
      return Err(rotations.error);
    }
    var count := CountZeroClicks(rotations.value);
    return Ok(count);
  }
}
