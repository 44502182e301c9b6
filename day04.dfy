/**
 * Day 4: a rectangular grid of '@' (a roll of paper) and '.' cells. A roll is
 * accessible when fewer than four of its eight neighbours hold rolls. Part 1 counts
 * the accessible rolls; part 2 removes all accessible rolls at once, round after
 * round, and counts how many are removed before no roll is accessible.
 */
module Day04 {
  import opened Grids
  import Text

  /** An in-bounds cell holding a roll. */
  predicate IsRoll(g: Grid, r: int, c: int)
    requires Rectangular(g)
  {
    0 <= r < |g| && 0 <= c < Cols(g) && g[r][c] == '@'
  }

  /** The eight neighbour offsets, in the order the solver visits them. */
  const Directions: seq<(int, int)> :=
    [(-1, -1), (-1, 0), (-1, 1), (0, -1), (0, 1), (1, -1), (1, 0), (1, 1)]

  /** The rolls among the up to eight cells around `(r, c)`, never `(r, c)` itself. */
  ghost function AdjacentRolls(g: Grid, r: int, c: int): set<(int, int)>
    requires Rectangular(g)
  {
    set a, b | r - 1 <= a <= r + 1 && c - 1 <= b <= c + 1 && (a, b) != (r, c) && IsRoll(g, a, b) :: (a, b)
  }

  /** The rolls at the first `k` offsets from `(r, c)`. */
  ghost function RollsAtOffsets(g: Grid, r: int, c: int, k: nat): set<(int, int)>
    requires Rectangular(g) && k <= |Directions|
  {
    set j | 0 <= j < k && IsRoll(g, r + Directions[j].0, c + Directions[j].1) ::
      (r + Directions[j].0, c + Directions[j].1)
  }

  /** The cell offset `k` reaches. */
  function Neighbour(r: int, c: int, k: nat): (int, int)
    requires k < |Directions|
  {
    (r + Directions[k].0, c + Directions[k].1)
  }

  /** Offset `k` reaches a cell that no earlier offset reaches. */
  lemma OffsetFresh(g: Grid, r: int, c: int, k: nat)
    requires Rectangular(g) && k < |Directions|
    ensures Neighbour(r, c, k) !in RollsAtOffsets(g, r, c, k)
  {
    assert forall j :: 0 <= j < k ==> Directions[j] != Directions[k];
  }

  /** Offset `k` adds its cell exactly when that cell holds a roll. */
  lemma OffsetGrow(g: Grid, r: int, c: int, k: nat)
    requires Rectangular(g) && k < |Directions|
    ensures RollsAtOffsets(g, r, c, k + 1) ==
            RollsAtOffsets(g, r, c, k) + (if IsRoll(g, r + Directions[k].0, c + Directions[k].1) then {Neighbour(r, c, k)} else {})
  {
  }

  /** So the count goes up by one exactly at the offsets that reach a roll. */
  lemma OffsetStep(g: Grid, r: int, c: int, k: nat)
    requires Rectangular(g) && k < |Directions|
    ensures |RollsAtOffsets(g, r, c, k + 1)| ==
            |RollsAtOffsets(g, r, c, k)| + (if IsRoll(g, r + Directions[k].0, c + Directions[k].1) then 1 else 0)
  {
    OffsetFresh(g, r, c, k);
    OffsetGrow(g, r, c, k);
  }

  lemma OffsetsCoverWindow(g: Grid, r: int, c: int)
    requires Rectangular(g)
    ensures RollsAtOffsets(g, r, c, |Directions|) == AdjacentRolls(g, r, c)
  {
    forall p | p in AdjacentRolls(g, r, c) ensures p in RollsAtOffsets(g, r, c, |Directions|) {
      var j := (p.0 - r + 1) * 3 + (p.1 - c + 1);
      var k := if j < 4 then j else j - 1;
      assert p == (r + Directions[k].0, c + Directions[k].1);
    }
  }

  /** `count_adjacent_rolls`: how many in-bounds neighbours of `(row, col)` hold rolls. */
  method CountAdjacentRolls(g: Grid, row: int, col: int) returns (count: nat)
    requires Rectangular(g)
    ensures count == |AdjacentRolls(g, row, col)|
    ensures count <= 8
  {
    var rows := |g|;
    var cols := if rows > 0 then |g[0]| else 0;
    count := 0;
    for k := 0 to |Directions|
      invariant count == |RollsAtOffsets(g, row, col, k)|
      invariant count <= k
    {
      var (dr, dc) := Directions[k];
      var newRow, newCol := row + dr, col + dc;
      OffsetStep(g, row, col, k);
      if 0 <= newRow < rows && 0 <= newCol < cols {
        if g[newRow][newCol] == '@' {
          count := count + 1;
        }
      }
    }
    OffsetsCoverWindow(g, row, col);
  }

  // ----------------------------------------------------------------------------
  // Accessible rolls and the row-major scan

  /** A roll with fewer than four rolls among its neighbours. */
  ghost predicate Accessible(g: Grid, r: int, c: int)
    requires Rectangular(g)
  {
    IsRoll(g, r, c) && |AdjacentRolls(g, r, c)| < 4
  }

  /** Every cell holding a roll. */
  ghost function RollSet(g: Grid): set<(int, int)>
    requires Rectangular(g)
  {
    set r, c | 0 <= r < |g| && 0 <= c < Cols(g) && IsRoll(g, r, c) :: (r, c)
  }

  /** Every accessible roll. */
  ghost function AccessibleSet(g: Grid): set<(int, int)>
    requires Rectangular(g)
  {
    set r, c | 0 <= r < |g| && 0 <= c < Cols(g) && Accessible(g, r, c) :: (r, c)
  }

  /** The accessible rolls a row-major scan has passed before reaching `(row, col)`. */
  ghost function AccessibleBefore(g: Grid, row: int, col: int): set<(int, int)>
    requires Rectangular(g)
  {
    set r, c | 0 <= r < |g| && 0 <= c < Cols(g) && (r < row || (r == row && c < col)) &&
               Accessible(g, r, c) :: (r, c)
  }

  /** Passing cell `(row, col)` adds it to the scanned set exactly when it is accessible. */
  lemma ScanStep(g: Grid, row: int, col: int)
    requires Rectangular(g) && 0 <= row < |g| && 0 <= col < Cols(g)
    ensures AccessibleBefore(g, row, col + 1) ==
            AccessibleBefore(g, row, col) + (if Accessible(g, row, col) then {(row, col)} else {})
    ensures |AccessibleBefore(g, row, col + 1)| ==
            |AccessibleBefore(g, row, col)| + (if Accessible(g, row, col) then 1 else 0)
  {
    assert (row, col) !in AccessibleBefore(g, row, col);
  }

  /** The end of one row is the start of the next. */
  lemma ScanRowEnd(g: Grid, row: int)
    requires Rectangular(g)
    ensures AccessibleBefore(g, row, Cols(g)) == AccessibleBefore(g, row + 1, 0)
  {
  }

  /** The scan starts with nothing and ends with every accessible roll. */
  lemma ScanEnds(g: Grid)
    requires Rectangular(g)
    ensures AccessibleBefore(g, 0, 0) == {}
    ensures AccessibleBefore(g, |g|, 0) == AccessibleSet(g)
  {
  }

  /** The scan of `part1`: the number of accessible rolls. */
  method CountAccessible(g: Grid) returns (accessibleCount: nat)
    requires Rectangular(g)
    ensures accessibleCount == |AccessibleSet(g)|
  {
    accessibleCount := 0;
    for row := 0 to |g|
      invariant accessibleCount == |AccessibleBefore(g, row, 0)|
    {
      for col := 0 to |g[row]|
        invariant accessibleCount == |AccessibleBefore(g, row, col)|
      {
        ScanStep(g, row, col);
        if g[row][col] == '@' {
          var adjacent := CountAdjacentRolls(g, row, col);
          if adjacent < 4 {
            accessibleCount := accessibleCount + 1;
          }
        }
      }
      ScanRowEnd(g, row);
    }
    ScanEnds(g);
  }

  /** The cells a list of positions names. */
  ghost function Elements(ps: seq<(int, int)>): set<(int, int)>
  {
    set p | p in ps
  }

  lemma ElementsAppend(ps: seq<(int, int)>, p: (int, int))
    ensures Elements(ps + [p]) == Elements(ps) + {p}
  {
  }

  /** The scan of part 2's loop: every accessible roll, once each, in row-major order. */
  method FindAccessible(g: Grid) returns (positions: seq<(int, int)>)
    requires Rectangular(g)
    ensures Elements(positions) == AccessibleSet(g)
    ensures |positions| == |AccessibleSet(g)|
  {
    positions := [];
    for row := 0 to |g|
      invariant Elements(positions) == AccessibleBefore(g, row, 0)
      invariant |positions| == |AccessibleBefore(g, row, 0)|
    {
      for col := 0 to |g[row]|
        invariant Elements(positions) == AccessibleBefore(g, row, col)
        invariant |positions| == |AccessibleBefore(g, row, col)|
      {
        ScanStep(g, row, col);
        if g[row][col] == '@' {
          var adjacent := CountAdjacentRolls(g, row, col);
          if adjacent < 4 {
            ElementsAppend(positions, (row, col));
            positions := positions + [(row, col)];
          }
        }
      }
      ScanRowEnd(g, row);
    }
    ScanEnds(g);
  }

  // ----------------------------------------------------------------------------
  // Part 2: removing the accessible rolls round after round

  /** The grid with every cell of `S` replaced by '.'. */
  ghost function Cleared(g: Grid, S: set<(int, int)>): Grid
  {
    seq(|g|, r requires 0 <= r < |g| =>
      seq(|g[r]|, c requires 0 <= c < |g[r]| => if (r, c) in S then '.' else g[r][c]))
  }

  /** One round: every accessible roll removed at once. */
  ghost function Round(g: Grid): Grid
    requires Rectangular(g)
  {
    Cleared(g, AccessibleSet(g))
  }

  /**
   * Within a round every cell is judged on the grid as it was before the round: an
   * accessible roll becomes '.', and every other cell, roll or not, is left alone.
   */
  lemma RoundCell(g: Grid, r: int, c: int)
    requires Rectangular(g) && 0 <= r < |g| && 0 <= c < Cols(g)
    ensures |Round(g)| == |g| && |Round(g)[r]| == |g[r]|
    ensures Round(g)[r][c] == if Accessible(g, r, c) then '.' else g[r][c]
    ensures Round(g)[r][c] != g[r][c] ==> g[r][c] == '@' && Round(g)[r][c] == '.'
  {
  }

  /** Two grids of the same shape with the same cells are equal. */
  lemma GridExt(a: Grid, b: Grid)
    requires |a| == |b| && forall r :: 0 <= r < |a| ==> |a[r]| == |b[r]|
    requires forall r, c :: 0 <= r < |a| && 0 <= c < |a[r]| ==> a[r][c] == b[r][c]
    ensures a == b
  {
    forall r | 0 <= r < |a| ensures a[r] == b[r] {
      assert forall c :: 0 <= c < |a[r]| ==> a[r][c] == b[r][c];
    }
  }

  lemma CardDifference(A: set<(int, int)>, B: set<(int, int)>)
    requires B <= A
    ensures |A - B| == |A| - |B|
  {
    assert A * B == B;
  }

  /**
   * A round keeps the grid's shape and removes exactly the accessible rolls, each of
   * which was a roll.
   */
  lemma RoundRolls(g: Grid)
    requires Rectangular(g)
    ensures Rectangular(Round(g)) && |Round(g)| == |g| && Cols(Round(g)) == Cols(g)
    ensures AccessibleSet(g) <= RollSet(g)
    ensures RollSet(Round(g)) == RollSet(g) - AccessibleSet(g)
    ensures |RollSet(Round(g))| == |RollSet(g)| - |AccessibleSet(g)|
  {
    var h := Round(g);
    assert Rectangular(h);
    assert RollSet(h) == RollSet(g) - AccessibleSet(g);
    CardDifference(RollSet(g), AccessibleSet(g));
  }

  /** How many rolls the rounds remove before a round finds none accessible. */
  ghost function TotalRemoved(g: Grid): nat
    requires Rectangular(g)
    decreases |RollSet(g)|
  {
    if AccessibleSet(g) == {} then 0
    else
      RoundRolls(g);
      |AccessibleSet(g)| + TotalRemoved(Round(g))
  }

  /** The grid left when a round finds no accessible roll. */
  ghost function Settled(g: Grid): Grid
    requires Rectangular(g)
    decreases |RollSet(g)|
  {
    if AccessibleSet(g) == {} then g
    else
      RoundRolls(g);
      Settled(Round(g))
  }

  /**
   * The rolls removed are exactly those missing from the settled grid, which has no
   * accessible roll left; at least the first round's rolls are removed, and no more
   * than the grid holds.
   */
  lemma {:induction false} TotalRemovedSettles(g: Grid)
    requires Rectangular(g)
    ensures Rectangular(Settled(g)) && |Settled(g)| == |g| && Cols(Settled(g)) == Cols(g)
    ensures AccessibleSet(Settled(g)) == {}
    ensures RollSet(Settled(g)) <= RollSet(g)
    ensures TotalRemoved(g) + |RollSet(Settled(g))| == |RollSet(g)|
    ensures |AccessibleSet(g)| <= TotalRemoved(g) <= |RollSet(g)|
    decreases |RollSet(g)|
  {
    if AccessibleSet(g) != {} {
      RoundRolls(g);
      TotalRemovedSettles(Round(g));
    }
  }

  /** The accessible rolls, and so the cells a scan lists, lie inside the grid. */
  lemma PositionsInBounds(g: Grid, positions: seq<(int, int)>)
    requires Rectangular(g) && Elements(positions) == AccessibleSet(g)
    ensures forall p :: p in positions ==> 0 <= p.0 < |g| && 0 <= p.1 < Cols(g)
  {
    forall p | p in positions ensures 0 <= p.0 < |g| && 0 <= p.1 < Cols(g) {
      assert p in Elements(positions);
    }
  }

  /** A round that finds accessible rolls removes them and shrinks the set of rolls. */
  lemma RoundStep(g: Grid, h: Grid)
    requires Rectangular(g) && AccessibleSet(g) != {} && h == Round(g)
    ensures Rectangular(h) && |RollSet(h)| < |RollSet(g)|
    ensures TotalRemoved(g) == |AccessibleSet(g)| + TotalRemoved(h)
  {
    RoundRolls(g);
  }

  /** The removal loop of part 2: every listed cell becomes '.'. */
  method ClearCells(g: Grid, positions: seq<(int, int)>) returns (h: Grid)
    requires Rectangular(g)
    requires forall p :: p in positions ==> 0 <= p.0 < |g| && 0 <= p.1 < Cols(g)
    ensures h == Cleared(g, Elements(positions))
  {
    h := g;
    for i := 0 to |positions|
      invariant |h| == |g| && forall r :: 0 <= r < |g| ==> |h[r]| == |g[r]|
      invariant forall r, c :: 0 <= r < |g| && 0 <= c < |g[r]| ==>
                  h[r][c] == if (r, c) in Elements(positions[..i]) then '.' else g[r][c]
    {
      var (row, col) := positions[i];
      ElementsAppend(positions[..i], (row, col));
      assert positions[..i + 1] == positions[..i] + [(row, col)];
      h := h[row := h[row][col := '.']];
    }
    assert positions[..|positions|] == positions;
    GridExt(h, Cleared(g, Elements(positions)));
  }

  /**
   * The loop of `part2`: repeat rounds until none finds an accessible roll, adding up
   * how many each round removes.
   */
  method RemoveAll(lines: Grid) returns (totalRemoved: nat)
    requires Rectangular(lines)
    ensures totalRemoved == TotalRemoved(lines)
  {
    var grid := lines;
    totalRemoved := 0;
    while true
      invariant Rectangular(grid)
      invariant totalRemoved + TotalRemoved(grid) == TotalRemoved(lines)
      decreases |RollSet(grid)|
    {
      var accessiblePositions := FindAccessible(grid);
      if |accessiblePositions| == 0 {
        break;
      }
      PositionsInBounds(grid, accessiblePositions);
      var next := ClearCells(grid, accessiblePositions);
      RoundStep(grid, next);
      grid := next;
      totalRemoved := totalRemoved + |accessiblePositions|;
    }
  }

  /** `part1`: the grid is the input split at newlines, without stripping. */
  method Part1(data: string) returns (accessibleCount: nat)
    requires Rectangular(Text.Split(data, "\n"))
    ensures accessibleCount == |AccessibleSet(Text.Split(data, "\n"))|
  {
    accessibleCount := CountAccessible(Text.Split(data, "\n"));
  }

  /** `part2`: the grid is the input split at newlines, without stripping. */
  method Part2(data: string) returns (totalRemoved: nat)
    requires Rectangular(Text.Split(data, "\n"))
    ensures totalRemoved == TotalRemoved(Text.Split(data, "\n"))
  {
    totalRemoved := RemoveAll(Text.Split(data, "\n"));
  }
}
