/**
 * Day 7: a tachyon beam enters a rectangular grid at 'S' and moves down one row
 * at a time. '.' and 'S' cells let it through; a splitter '^' stops it and starts
 * two beams in the columns left and right of the splitter, on the splitter's row;
 * any other cell absorbs it. Part 1 counts the splitters some beam reaches; part 2
 * counts the timelines, where a single particle takes both ways at every splitter.
 */
module Day07 {
  import opened Wrappers
  import opened Grids
  import Text

  type Pos = (int, int)

  // ----------------------------------------------------------------------------
  // parse_grid

  /** `line.find(c)`: the first index of `c` in `line`, or -1. */
  function Find(line: string, c: char): (i: int)
    ensures -1 <= i < |line|
    ensures i == -1 <==> c !in line
    ensures i >= 0 ==> line[i] == c && c !in line[..i]
  {
    if line == [] then -1
    else if line[0] == c then 0
    else
      var j := Find(line[1..], c);
      assert line == [line[0]] + line[1..];
      if j == -1 then -1
      else
        assert line[..j + 1] == [line[0]] + line[1..][..j];
        j + 1
  }

  /** `p` is where `parse_grid` finds the start: the first 'S' of the first line holding one. */
  predicate IsStart(lines: seq<string>, p: Pos)
  {
    0 <= p.0 < |lines| && 0 <= p.1 < |lines[p.0]| && lines[p.0][p.1] == 'S' &&
    'S' !in lines[p.0][..p.1] &&
    forall k :: 0 <= k < p.0 ==> 'S' !in lines[k]
  }

  /** No line holds an 'S'. */
  predicate NoStart(lines: seq<string>)
  {
    forall k :: 0 <= k < |lines| ==> 'S' !in lines[k]
  }

  /** Two positions of `c` in `line` with no `c` before either are the same. */
  lemma FirstOccurrence(line: string, c: char, i: nat, j: nat)
    requires i < |line| && j < |line| && line[i] == c && line[j] == c
    requires c !in line[..i] && c !in line[..j]
    ensures i == j
  {
    assert forall k :: 0 <= k < i ==> line[..i][k] == line[k];
    assert forall k :: 0 <= k < j ==> line[..j][k] == line[k];
  }

  /** There is only one place `parse_grid` can report. */
  lemma StartUnique(lines: seq<string>, p: Pos, q: Pos)
    requires IsStart(lines, p) && IsStart(lines, q)
    ensures p == q
  {
    assert lines[p.0][p.1] in lines[p.0];
    assert lines[q.0][q.1] in lines[q.0];
    FirstOccurrence(lines[p.0], 'S', p.1, q.1);
  }

  /** `parse_grid` on the lines of the input: the start position, or `ValueError`. */
  method ParseGrid(lines: seq<string>) returns (r: Result<Pos>)
    ensures r.Ok? ==> IsStart(lines, r.value)
    ensures r.Err? <==> NoStart(lines)
    ensures r.Err? ==> r.error == NotFound
  {
    for rowIdx := 0 to |lines|
      invariant forall k :: 0 <= k < rowIdx ==> 'S' !in lines[k]
    {
      var colIdx := Find(lines[rowIdx], 'S');
      if colIdx != -1 {
        return Ok((rowIdx, colIdx));
      }
    }
    return Err(NotFound);
  }

  // ----------------------------------------------------------------------------
  // simulate_beam_splitting: the beams that are reached

  /** The cell a beam at `p` moves into. */
  function Below(p: Pos): Pos
  {
    (p.0 + 1, p.1)
  }

  /**
   * The beams that continue once a beam has entered the in-grid cell `t`, in the
   * order the solver queues them: `t` itself through '.' or 'S', the in-bounds
   * neighbours left then right of a '^', none after any other cell.
   */
  function Pushed(g: Grid, t: Pos): (beams: seq<Pos>)
    requires Rectangular(g) && InGrid(g, t)
    ensures |beams| <= 2
    ensures forall b :: b in beams ==> b.0 == t.0 && InGrid(g, b)
  {
    var cell := g[t.0][t.1];
    if cell == '.' || cell == 'S' then [t]
    else if cell == '^' then
      (if 0 <= t.1 - 1 < Cols(g) then [(t.0, t.1 - 1)] else []) +
      (if 0 <= t.1 + 1 < Cols(g) then [(t.0, t.1 + 1)] else [])
    else []
  }

  /** A cell that lets a beam straight through. */
  predicate Passes(g: Grid, t: Pos)
    requires Rectangular(g) && InGrid(g, t)
  {
    g[t.0][t.1] == '.' || g[t.0][t.1] == 'S'
  }

  /** A splitter cell. */
  predicate IsSplitter(g: Grid, t: Pos)
    requires Rectangular(g) && InGrid(g, t)
  {
    g[t.0][t.1] == '^'
  }

  /**
   * A beam at `p` enters the in-grid cell below it and continues as the beam `b`:
   * in that cell if it passes, or beside it, inside the grid, if it is a splitter.
   */
  predicate Continues(g: Grid, p: Pos, b: Pos)
    requires Rectangular(g)
  {
    var t := Below(p);
    InGrid(g, t) && b.0 == t.0 &&
    ((Passes(g, t) && b.1 == t.1) ||
     (IsSplitter(g, t) && (b.1 == t.1 - 1 || b.1 == t.1 + 1) && 0 <= b.1 < Cols(g)))
  }

  /** The beams a cell continues as are exactly those the solver queues for it, as `Pushed` lists them. */
  lemma PushedContinues(g: Grid, t: Pos, b: Pos)
    requires Rectangular(g) && InGrid(g, t)
    ensures b in Pushed(g, t) <==> Continues(g, (t.0 - 1, t.1), b)
  {
  }

  /** Column `c` on the row below `p`. */
  function BelowAt(p: Pos, c: int): Pos
  {
    (p.0 + 1, c)
  }

  /** The beams that the beams of `beams` continue as, one row further down. */
  ghost function Next(g: Grid, beams: set<Pos>): set<Pos>
    requires Rectangular(g)
  {
    set p, c | p in beams && p.1 - 1 <= c <= p.1 + 1 && Continues(g, p, BelowAt(p, c)) :: BelowAt(p, c)
  }

  /** A beam of `Next` is what some beam of `beams` continues as. */
  lemma NextElim(g: Grid, beams: set<Pos>, b: Pos) returns (p: Pos)
    requires Rectangular(g) && b in Next(g, beams)
    ensures p in beams && Continues(g, p, b)
  {
    var q, c :| q in beams && q.1 - 1 <= c <= q.1 + 1 && Continues(g, q, BelowAt(q, c)) && b == BelowAt(q, c);
    p := q;
  }

  /** What a beam of `beams` continues as is a beam of `Next`. */
  lemma NextIntro(g: Grid, beams: set<Pos>, p: Pos, b: Pos)
    requires Rectangular(g) && p in beams && Continues(g, p, b)
    ensures b in Next(g, beams)
  {
    assert b == BelowAt(p, b.1);
  }

  /** The beams on row `r`: the start beam on the start row, then whatever the beams one row up continue as. */
  ghost function BeamsOnRow(g: Grid, start: Pos, r: int): set<Pos>
    requires Rectangular(g)
    decreases r - start.0
  {
    if r < start.0 then {}
    else if r == start.0 then {start}
    else Next(g, BeamsOnRow(g, start, r - 1))
  }

  /** A beam on a row below the start is what a beam one row up continues as. */
  lemma RowBack(g: Grid, start: Pos, r: int, b: Pos) returns (p: Pos)
    requires Rectangular(g) && r >= start.0 && b in BeamsOnRow(g, start, r + 1)
    ensures p in BeamsOnRow(g, start, r) && Continues(g, p, b)
  {
    p := NextElim(g, BeamsOnRow(g, start, r), b);
  }

  /** What a beam on row `r` continues as is a beam on row `r + 1`. */
  lemma RowForward(g: Grid, start: Pos, r: int, p: Pos, b: Pos)
    requires Rectangular(g) && r >= start.0 && p in BeamsOnRow(g, start, r) && Continues(g, p, b)
    ensures b in BeamsOnRow(g, start, r + 1)
  {
    NextIntro(g, BeamsOnRow(g, start, r), p, b);
  }

  /** The beams of row `r` lie on row `r`, at or below the start row. */
  lemma {:induction false} BeamsRow(g: Grid, start: Pos, r: int, b: Pos)
    requires Rectangular(g) && b in BeamsOnRow(g, start, r)
    ensures b.0 == r && r >= start.0
    decreases r - start.0
  {
    if r > start.0 {
      var q := r - 1;
      var p := RowBack(g, start, q, b);
      BeamsRow(g, start, q, p);
    }
  }

  /** Some beam is at `b`. */
  ghost predicate Reached(g: Grid, start: Pos, b: Pos)
    requires Rectangular(g)
  {
    b in BeamsOnRow(g, start, b.0)
  }

  /** Every splitter cell of the grid. */
  ghost function SplitterCells(g: Grid): set<Pos>
    requires Rectangular(g)
  {
    set r, c | 0 <= r < |g| && 0 <= c < Cols(g) && g[r][c] == '^' :: (r, c)
  }

  /** The splitters a beam moves into: what part 1 counts. */
  ghost function SplittersHit(g: Grid, start: Pos): set<Pos>
    requires Rectangular(g)
  {
    set t | t in SplitterCells(g) && Reached(g, start, (t.0 - 1, t.1))
  }

  /** At most the number of splitters in the grid are hit. */
  lemma SplittersHitBound(g: Grid, start: Pos)
    requires Rectangular(g)
    ensures |SplittersHit(g, start)| <= |SplitterCells(g)|
  {
    SubsetCard(SplittersHit(g, start), SplitterCells(g));
  }

  lemma {:induction false} SubsetCard<T>(a: set<T>, b: set<T>)
    requires a <= b
    ensures |a| <= |b|
    decreases |a|
  {
    if a != {} {
      var x :| x in a;
      SubsetCard(a - {x}, b - {x});
    }
  }

  // ----------------------------------------------------------------------------
  // simulate_beam_splitting: the worklist loop

  /** Every cell of the grid: a finite set that holds every position the loop marks visited. */
  ghost function Cells(g: Grid): set<Pos>
  {
    set r, c | 0 <= r < |g| && 0 <= c < Cols(g) :: (r, c)
  }

  /** Marking a new in-grid cell visited leaves fewer unvisited cells. */
  lemma VisitShrinks(g: Grid, visited: set<Pos>, t: Pos)
    requires InGrid(g, t) && t !in visited
    ensures |Cells(g) - (visited + {t})| < |Cells(g) - visited|
  {
    assert t == (t.0, t.1);
    assert t in Cells(g);
    assert Cells(g) - visited == (Cells(g) - (visited + {t})) + {t};
  }

  /** The splitters among the visited cells other than the start. */
  ghost function Hits(g: Grid, start: Pos, visited: set<Pos>): set<Pos>
    requires Rectangular(g)
  {
    set t | t in visited && t != start && InGrid(g, t) && g[t.0][t.1] == '^'
  }

  /**
   * What the loop state holds at every step: queued beams are reached beams,
   * visited cells other than the start are cells a reached beam moves into, and
   * `activated` is the set of splitters among them.
   */
  ghost predicate Sound(g: Grid, start: Pos, queue: seq<Pos>, visited: set<Pos>, activated: set<Pos>)
    requires Rectangular(g)
  {
    (forall i :: 0 <= i < |queue| ==> Reached(g, start, queue[i])) &&
    (forall t :: t in visited && t != start ==> InGrid(g, t) && Reached(g, start, (t.0 - 1, t.1))) &&
    activated == Hits(g, start, visited)
  }

  /** A beam is taken care of: still queued, leaving the grid, or moving into a visited cell. */
  ghost predicate Handled(g: Grid, queue: seq<Pos>, visited: set<Pos>, b: Pos)
  {
    b in queue || !InGrid(g, Below(b)) || Below(b) in visited
  }

  /** Nothing is lost: the start beam, and every beam that continues from a visited cell other than the start, are taken care of. */
  ghost predicate Closed(g: Grid, start: Pos, queue: seq<Pos>, visited: set<Pos>)
    requires Rectangular(g)
  {
    Handled(g, queue, visited, start) &&
    forall p, b :: Below(p) in visited && Below(p) != start && Continues(g, p, b) ==>
      Handled(g, queue, visited, b)
  }

  /** Popping a beam that leaves the grid or moves into a visited cell keeps both invariants. */
  lemma PopDone(g: Grid, start: Pos, queue: seq<Pos>, visited: set<Pos>, activated: set<Pos>, queue': seq<Pos>)
    requires Rectangular(g) && queue != [] && queue' == queue[1..]
    requires Sound(g, start, queue, visited, activated) && Closed(g, start, queue, visited)
    requires !InGrid(g, Below(queue[0])) || Below(queue[0]) in visited
    ensures Sound(g, start, queue', visited, activated) && Closed(g, start, queue', visited)
    ensures |queue'| < |queue|
  {
    forall i | 0 <= i < |queue[1..]| ensures Reached(g, start, queue[1..][i]) {
      assert queue[1..][i] == queue[i + 1];
    }
    forall b | Handled(g, queue, visited, b) ensures Handled(g, queue[1..], visited, b) {
      if b in queue && b != queue[0] {
        var i :| 0 <= i < |queue| && queue[i] == b;
        assert queue[1..][i - 1] == b;
      }
    }
  }

  /** A beam that moves into a new cell is reached in the next generation. */
  lemma PushedReached(g: Grid, start: Pos, b: Pos, c: Pos)
    requires Rectangular(g) && Reached(g, start, b) && Continues(g, b, c)
    ensures Reached(g, start, c)
  {
    BeamsRow(g, start, b.0, b);
    RowForward(g, start, b.0, b, c);
  }

  /** The splitters among the visited cells after one more cell is visited. */
  lemma HitsAdd(g: Grid, start: Pos, visited: set<Pos>, t: Pos)
    requires Rectangular(g) && InGrid(g, t) && t != start
    ensures Hits(g, start, visited + {t}) ==
            Hits(g, start, visited) + (if g[t.0][t.1] == '^' then {t} else {})
  {
  }

  /** A beam taken care of stays so when the head of the queue moves into `t` and `pushed` is queued. */
  lemma HandledGrows(g: Grid, queue: seq<Pos>, visited: set<Pos>, pushed: seq<Pos>, x: Pos)
    requires queue != [] && Handled(g, queue, visited, x)
    ensures Handled(g, queue[1..] + pushed, visited + {Below(queue[0])}, x)
  {
    if x in queue && x != queue[0] {
      var i :| 0 <= i < |queue| && queue[i] == x;
      assert (queue[1..] + pushed)[i - 1] == x;
    }
  }

  /** Every beam of `pushed` is in the queue once `pushed` is appended to it. */
  lemma AppendedQueued(queue: seq<Pos>, pushed: seq<Pos>, x: Pos)
    requires x in pushed
    ensures x in queue + pushed
  {
    var i :| 0 <= i < |pushed| && pushed[i] == x;
    assert (queue + pushed)[|queue| + i] == x;
  }

  /** Queueing what a reached beam continues as behind reached beams leaves only reached beams queued. */
  lemma AppendReached(g: Grid, start: Pos, rest: seq<Pos>, b: Pos)
    requires Rectangular(g) && Reached(g, start, b) && InGrid(g, Below(b))
    requires forall i :: 0 <= i < |rest| ==> Reached(g, start, rest[i])
    ensures var queue := rest + Pushed(g, Below(b));
      forall i :: 0 <= i < |queue| ==> Reached(g, start, queue[i])
  {
    var pushed := Pushed(g, Below(b));
    forall i | 0 <= i < |rest + pushed| ensures Reached(g, start, (rest + pushed)[i]) {
      if i >= |rest| {
        var x := pushed[i - |rest|];
        assert (rest + pushed)[i] == x;
        PushedContinues(g, Below(b), x);
        PushedReached(g, start, b, x);
      }
    }
  }

  /** Visiting the cell a popped beam moves into, and queueing what it continues as, keeps `Sound`. */
  lemma PopVisitSound(g: Grid, start: Pos, queue: seq<Pos>, visited: set<Pos>, activated: set<Pos>)
    requires Rectangular(g) && queue != []
    requires Sound(g, start, queue, visited, activated)
    requires InGrid(g, Below(queue[0])) && Below(queue[0]) != start
    ensures
      var t := Below(queue[0]);
      var activated' := activated + (if IsSplitter(g, t) then {t} else {});
      Sound(g, start, queue[1..] + Pushed(g, t), visited + {t}, activated')
  {
    var b := queue[0];
    assert Reached(g, start, b);
    HitsAdd(g, start, visited, Below(b));
    forall i | 0 <= i < |queue[1..]| ensures Reached(g, start, queue[1..][i]) {
      assert queue[1..][i] == queue[i + 1];
    }
    AppendReached(g, start, queue[1..], b);
  }

  /** Visiting the cell a popped beam moves into, and queueing what it continues as, keeps `Closed`. */
  lemma PopVisitClosed(g: Grid, start: Pos, queue: seq<Pos>, visited: set<Pos>)
    requires Rectangular(g) && queue != []
    requires Closed(g, start, queue, visited)
    requires InGrid(g, Below(queue[0]))
    ensures
      var t := Below(queue[0]);
      Closed(g, start, queue[1..] + Pushed(g, t), visited + {t})
  {
    var t := Below(queue[0]);
    var pushed := Pushed(g, t);
    HandledGrows(g, queue, visited, pushed, start);
    forall p, x | Below(p) in visited + {t} && Below(p) != start && Continues(g, p, x)
      ensures Handled(g, queue[1..] + pushed, visited + {t}, x)
    {
      if Below(p) in visited {
        HandledGrows(g, queue, visited, pushed, x);
      } else {
        assert p == queue[0];
        PushedContinues(g, t, x);
        AppendedQueued(queue[1..], pushed, x);
      }
    }
  }

  /** Once the queue is empty, every beam on a row leaves the grid or moves into a visited cell. */
  lemma {:induction false} AllHandled(g: Grid, start: Pos, visited: set<Pos>, r: int, b: Pos)
    requires Rectangular(g) && Closed(g, start, [], visited) && b in BeamsOnRow(g, start, r)
    ensures !InGrid(g, Below(b)) || Below(b) in visited
    decreases r - start.0
  {
    if r > start.0 {
      var q := r - 1;
      var p := RowBack(g, start, q, b);
      AllHandled(g, start, visited, q, p);
      BeamsRow(g, start, q, p);
      assert Below(p) != start;
    }
  }

  /** Every activated splitter is one a beam moves into. */
  lemma ActivatedHit(g: Grid, start: Pos, visited: set<Pos>, activated: set<Pos>, t: Pos)
    requires Rectangular(g) && Sound(g, start, [], visited, activated) && t in activated
    ensures t in SplittersHit(g, start)
  {
    assert t == (t.0, t.1);
  }

  /** Once the queue is empty, every splitter a beam moves into has been activated. */
  lemma HitActivated(g: Grid, start: Pos, visited: set<Pos>, activated: set<Pos>, t: Pos)
    requires Rectangular(g) && Sound(g, start, [], visited, activated) && Closed(g, start, [], visited)
    requires t in SplittersHit(g, start)
    ensures t in activated
  {
    var b := (t.0 - 1, t.1);
    AllHandled(g, start, visited, b.0, b);
    BeamsRow(g, start, b.0, b);
    assert Below(b) == t;
  }

  /** With the queue empty, the activated splitters are exactly those some beam moves into. */
  lemma Finished(g: Grid, start: Pos, visited: set<Pos>, activated: set<Pos>)
    requires Rectangular(g)
    requires Sound(g, start, [], visited, activated) && Closed(g, start, [], visited)
    ensures activated == SplittersHit(g, start)
  {
    forall t | t in activated ensures t in SplittersHit(g, start) {
      ActivatedHit(g, start, visited, activated, t);
    }
    forall t | t in SplittersHit(g, start) ensures t in activated {
      HitActivated(g, start, visited, activated, t);
    }
  }

  /** One visiting step of the loop keeps both invariants and leaves fewer cells unvisited. */
  lemma VisitStep(g: Grid, start: Pos, queue: seq<Pos>, visited: set<Pos>, activated: set<Pos>, t: Pos,
                  queue': seq<Pos>, visited': set<Pos>, activated': set<Pos>)
    requires Rectangular(g) && queue != [] && t == Below(queue[0])
    requires Sound(g, start, queue, visited, activated) && Closed(g, start, queue, visited)
    requires InGrid(g, t) && t !in visited
    requires queue' == queue[1..] + Pushed(g, t)
    requires visited' == visited + {t}
    requires activated' == activated + (if IsSplitter(g, t) then {t} else {})
    ensures Sound(g, start, queue', visited', activated') && Closed(g, start, queue', visited')
    ensures |Cells(g) - visited'| < |Cells(g) - visited|
  {
    var b := queue[0];
    assert Reached(g, start, b);
    assert Below(b) != start by {
      BeamsRow(g, start, b.0, b);
    }
    PopVisitSound(g, start, queue, visited, activated);
    PopVisitClosed(g, start, queue, visited);
    VisitShrinks(g, visited, Below(b));
  }

  /**
   * The loop body of `simulate_beam_splitting` once a beam has entered the new
   * in-grid cell `t`: queue what it continues as, and record a splitter.
   */
  method EnterCell(g: Grid, t: Pos, queue: seq<Pos>, activated: set<Pos>) returns (queue': seq<Pos>, activated': set<Pos>)
    requires Rectangular(g) && InGrid(g, t)
    ensures queue' == queue + Pushed(g, t)
    ensures activated' == activated + (if IsSplitter(g, t) then {t} else {})
  {
    var (newRow, col) := t;
    var cols := Cols(g);
    queue', activated' := queue, activated;
    var cell := g[newRow][col];
    if cell == '.' || cell == 'S' {
      queue' := queue' + [(newRow, col)];
    } else if cell == '^' {
      activated' := activated' + {(newRow, col)};
      var leftCol := col - 1;
      var rightCol := col + 1;
      if 0 <= leftCol < cols {
        queue' := queue' + [(newRow, leftCol)];
      }
      if 0 <= rightCol < cols {
        queue' := queue' + [(newRow, rightCol)];
      }
    }
  }

  /**
   * One pass of the `while queue` loop of `simulate_beam_splitting`: pop a beam,
   * drop it if it leaves the grid or enters a visited cell, otherwise visit that
   * cell and queue what the beam continues as.
   */
  method ProcessBeam(g: Grid, start: Pos, queue: seq<Pos>, visited: set<Pos>, activated: set<Pos>)
    returns (queue': seq<Pos>, visited': set<Pos>, activated': set<Pos>)
    requires Rectangular(g) && InGrid(g, start) && queue != []
    requires Sound(g, start, queue, visited, activated) && Closed(g, start, queue, visited)
    ensures Sound(g, start, queue', visited', activated') && Closed(g, start, queue', visited')
    ensures |Cells(g) - visited'| < |Cells(g) - visited| ||
            (visited' == visited && |queue'| < |queue|)
  {
    var rows := |g|;
    var cols := Cols(g);
    var b := queue[0];
    var row, col := b.0, b.1;
    var newRow := row + 1;
    if newRow >= rows || col < 0 || col >= cols || (newRow, col) in visited {
      queue', visited', activated' := queue[1..], visited, activated;
      PopDone(g, start, queue, visited, activated, queue');
      return;
    }
    visited' := visited + {(newRow, col)};
    queue', activated' := EnterCell(g, (newRow, col), queue[1..], activated);
    VisitStep(g, start, queue, visited, activated, (newRow, col), queue', visited', activated');
  }

  /**
   * `simulate_beam_splitting`: a breadth-first worklist over beams, each cell
   * entered at most once; the number of distinct splitters the beams reach.
   */
  method SimulateBeamSplitting(g: Grid, start: Pos) returns (count: nat)
    requires Rectangular(g) && InGrid(g, start)
    ensures count == |SplittersHit(g, start)|
  {
    var queue: seq<Pos> := [start];
    var activated: set<Pos> := {};
    var visited: set<Pos> := {start};
    while queue != []
      invariant Sound(g, start, queue, visited, activated)
      invariant Closed(g, start, queue, visited)
      decreases |Cells(g) - visited|, |queue|
    {
      queue, visited, activated := ProcessBeam(g, start, queue, visited, activated);
    }
    Finished(g, start, visited, activated);
    return |activated|;
  }

  // ----------------------------------------------------------------------------
  // count_timelines

  /** `explore(row, col)` without its memo: the number of timelines from a particle at `(row, col)`. */
  function Explore(g: Grid, row: nat, col: int): (n: nat)
    requires Rectangular(g)
    ensures n >= 1
    decreases |g| - row
  {
    var newRow := row + 1;
    if newRow >= |g| then 1
    else if col < 0 || col >= Cols(g) then 1
    else
      var cell := g[newRow][col];
      if cell == '.' || cell == 'S' then Explore(g, newRow, col)
      else if cell == '^' then Explore(g, newRow, col - 1) + Explore(g, newRow, col + 1)
      else 1
  }

  /** No cell of the grid is a splitter. */
  predicate NoSplitters(g: Grid)
  {
    forall r, c :: 0 <= r < |g| && 0 <= c < |g[r]| ==> g[r][c] != '^'
  }

  /** Without splitters no beam is split. */
  lemma NoneHit(g: Grid, start: Pos)
    requires Rectangular(g) && NoSplitters(g)
    ensures SplittersHit(g, start) == {}
  {
  }

  /** Without splitters a particle never divides: one timeline from anywhere. */
  lemma {:induction false} SingleTimeline(g: Grid, row: nat, col: int)
    requires Rectangular(g) && NoSplitters(g)
    ensures Explore(g, row, col) == 1
    decreases |g| - row
  {
    if row + 1 < |g| && 0 <= col < Cols(g) {
      SingleTimeline(g, row + 1, col);
    }
  }

  /** A splitter splits: from just above a splitter two timelines at least start. */
  lemma SplitterDoubles(g: Grid, row: nat, col: int)
    requires Rectangular(g) && row + 1 < |g| && 0 <= col < Cols(g) && g[row + 1][col] == '^'
    ensures Explore(g, row, col) >= 2
  {
  }

  /** Every memo entry is the plain recursion's value at its key. */
  ghost predicate MemoSound(g: Grid, memo: map<Pos, nat>)
    requires Rectangular(g)
  {
    forall p :: p in memo ==> p.0 >= 0 && memo[p] == Explore(g, p.0, p.1)
  }

  /**
   * `explore` with the memo dictionary it shares across calls, threaded through:
   * it returns what the plain recursion returns, and the memo stays sound and only grows.
   */
  method ExploreMemo(g: Grid, row: nat, col: int, memo: map<Pos, nat>) returns (result: nat, memo': map<Pos, nat>)
    requires Rectangular(g) && MemoSound(g, memo)
    ensures result == Explore(g, row, col)
    ensures MemoSound(g, memo') && memo.Keys <= memo'.Keys
    decreases |g| - row
  {
    if (row, col) in memo {
      return memo[(row, col)], memo;
    }
    var newRow := row + 1;
    if newRow >= |g| {
      return 1, memo;
    }
    if col < 0 || col >= Cols(g) {
      return 1, memo;
    }
    var cell := g[newRow][col];
    var m := memo;
    if cell == '.' || cell == 'S' {
      result, m := ExploreMemo(g, newRow, col, m);
    } else if cell == '^' {
      var left, m1 := ExploreMemo(g, newRow, col - 1, m);
      var right, m2 := ExploreMemo(g, newRow, col + 1, m1);
      result := left + right;
      m := m2;
    } else {
      result := 1;
    }
    memo' := m[(row, col) := result];
  }

  /** `count_timelines`: explore from the start with an empty memo. */
  method CountTimelines(g: Grid, start: Pos) returns (n: nat)
    requires Rectangular(g) && start.0 >= 0
    ensures n == Explore(g, start.0, start.1) && n >= 1
  {
    var memo;
    n, memo := ExploreMemo(g, start.0, start.1, map[]);
  }

  // ----------------------------------------------------------------------------
  // part1, part2

  /** `part1` once the input is split into lines: the splitters the beam reaches, or the `ValueError` of a missing 'S'. */
  method SplitterCount(lines: seq<string>) returns (r: Result<nat>)
    requires Rectangular(lines)
    ensures r.Err? <==> NoStart(lines)
    ensures forall p :: IsStart(lines, p) ==> r == Ok(|SplittersHit(lines, p)|)
  {
    var start := ParseGrid(lines);
    if start.Err? {
      return Err(start.error);
    }
    var count := SimulateBeamSplitting(lines, start.value);
    forall p | IsStart(lines, p) ensures p == start.value {
      StartUnique(lines, p, start.value);
    }
    return Ok(count);
  }

  /** `part2` once the input is split into lines: the number of timelines, or the `ValueError` of a missing 'S'. */
  method TimelineCount(lines: seq<string>) returns (r: Result<nat>)
    requires Rectangular(lines)
    ensures r.Err? <==> NoStart(lines)
    ensures forall p :: IsStart(lines, p) ==> r == Ok(Explore(lines, p.0, p.1))
  {
    var start := ParseGrid(lines);
    if start.Err? {
      return Err(start.error);
    }
    var n := CountTimelines(lines, start.value);
    forall p | IsStart(lines, p) ensures p == start.value {
      StartUnique(lines, p, start.value);
    }
    return Ok(n);
  }

  /** `part1`: `parse_grid` splits the stripped input into lines. */
  method Part1(data: string) returns (r: Result<nat>)
    requires Rectangular(Text.Lines(data))
    ensures r.Err? <==> NoStart(Text.Lines(data))
    ensures forall p :: IsStart(Text.Lines(data), p) ==> r == Ok(|SplittersHit(Text.Lines(data), p)|)
  {
    r := SplitterCount(Text.Lines(data));
  }

  /** `part2`: `parse_grid` splits the stripped input into lines. */
  method Part2(data: string) returns (r: Result<nat>)
    requires Rectangular(Text.Lines(data))
    ensures r.Err? <==> NoStart(Text.Lines(data))
    ensures forall p :: IsStart(Text.Lines(data), p) ==> r == Ok(Explore(Text.Lines(data), p.0, p.1))
  {
    r := TimelineCount(Text.Lines(data));
  }
}
