/** Character grids as the grid solvers hold them: a list of equally long rows. */
module Grids {

  type Grid = seq<string>

  /** Every row as long as the first: the grids the solvers are given. */
  predicate Rectangular(g: Grid)
  {
    forall r :: 0 <= r < |g| ==> |g[r]| == |g[0]|
  }

  /** `len(grid[0]) if rows > 0 else 0`. */
  function Cols(g: Grid): nat
  {
    if |g| > 0 then |g[0]| else 0
  }

  /** A cell inside the grid. */
  predicate InGrid(g: Grid, p: (int, int))
  {
    0 <= p.0 < |g| && 0 <= p.1 < Cols(g)
  }
}
