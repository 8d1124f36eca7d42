/** The invariants of the proof that a fill reads only cells it has
    already written (module `Independence`). They live in a module of their
    own so that the lemmas stating them keep them folded. */
module Stages {
  import opened Terrain

  // ---------------------------------------------------------------------
  // "Settled" cells hold the same in-range value in two runs started from
  // two arbitrary grids. The corners settle the lattice of the top chunk
  // size; each level reads only settled cells, so it settles the centres
  // and then the edge midpoints, which together with the old lattice form
  // the lattice of the halved chunk size. At chunk size 1 every cell is
  // settled: the result does not depend on the grid the fill started from,
  // and every cell lies in `[height_min, height_max]`.
  // ---------------------------------------------------------------------

  ghost predicate Settled(a: Grid, b: Grid, p: Params, y: int, x: int)
  {
    0 <= y < |a| && y < |b| && 0 <= x < |a[y]| && x < |b[y]| &&
    a[y][x] == b[y][x] && p.lo <= a[y][x] <= p.hi
  }

  /** All cells whose coordinates are multiples of `c` are settled. */
  ghost predicate LatticeSettled(a: Grid, b: Grid, p: Params, c: int)
    requires c >= 1
  {
    forall y, x {:trigger Settled(a, b, p, y, x)} ::
      0 <= y < p.size && 0 <= x < p.size && y % c == 0 && x % c == 0 ==> Settled(a, b, p, y, x)
  }

  /** The chunk centres the diamond step has visited before `(y0, x0)` are settled. */
  ghost predicate CentresSettled(a: Grid, b: Grid, p: Params, c: int, y0: int, x0: int)
    requires c >= 2
  {
    forall y, x {:trigger Settled(a, b, p, y, x)} ::
      (0 <= y < p.size && 0 <= x < p.size && y % c == c / 2 && x % c == c / 2 &&
       (y - c / 2 < y0 || (y - c / 2 == y0 && x - c / 2 < x0))) ==> Settled(a, b, p, y, x)
  }

  /** The cells the square step has visited before `(y0, x0)` are settled. */
  ghost predicate EdgesSettled(a: Grid, b: Grid, p: Params, c: int, y0: int, x0: int)
    requires c >= 2
  {
    forall y, x {:trigger Settled(a, b, p, y, x)} ::
      (0 <= y < p.size && 0 <= x < p.size && y % (c / 2) == 0 && x % c == (y + c / 2) % c &&
       (y < y0 || (y == y0 && x < x0))) ==> Settled(a, b, p, y, x)
  }

  /** Two states of two runs in lock step. */
  ghost predicate Paired(s1: State, s2: State, p: Params)
  {
    IsSquare(s1.grid, p.size) && IsSquare(s2.grid, p.size) && s1.next == s2.next && p.lo <= p.hi
  }

  /** Part way through the diamond step of chunk size `c`: the lattice and
      the centres visited before `(y0, x0)` are settled. */
  ghost predicate DiamondStage(s1: State, s2: State, p: Params, c: int, y0: int, x0: int)
    requires c >= 2
  {
    Paired(s1, s2, p) && LatticeSettled(s1.grid, s2.grid, p, c) &&
    CentresSettled(s1.grid, s2.grid, p, c, y0, x0)
  }

  /** Part way through the square step: the diamond step is complete and
      the cells visited before `(y0, x0)` are settled. */
  ghost predicate SquareStage(s1: State, s2: State, p: Params, c: int, y0: int, x0: int)
    requires c >= 2
  {
    DiamondStage(s1, s2, p, c, p.size - 1, 0) && EdgesSettled(s1.grid, s2.grid, p, c, y0, x0)
  }

  /** The four corners of the chunk centred at `(y, x)`, which the diamond
      step reads, hold the same values in `a` and `b`. */
  ghost predicate CornersAgree(a: Grid, b: Grid, p: Params, y: int, x: int, h: int)
    requires IsSquare(a, p.size) && IsSquare(b, p.size)
    requires 0 <= h <= y && y + h < p.size && h <= x && x + h < p.size
  {
    a[y - h][x - h] == b[y - h][x - h] && a[y - h][x + h] == b[y - h][x + h] &&
    a[y + h][x - h] == b[y + h][x - h] && a[y + h][x + h] == b[y + h][x + h]
  }

  /** The neighbours of `(y, x)` that the square step counts hold the same
      values in `a` and `b`. */
  ghost predicate NeighboursAgree(a: Grid, b: Grid, p: Params, y: int, x: int, h: int)
    requires IsSquare(a, p.size) && IsSquare(b, p.size)
    requires 0 <= y < p.size && 0 <= x < p.size && 1 <= h
  {
    (x - h > 0 ==> a[y][x - h] == b[y][x - h]) && (x + h < p.size ==> a[y][x + h] == b[y][x + h]) &&
    (y - h > 0 ==> a[y - h][x] == b[y - h][x]) && (y + h < p.size ==> a[y + h][x] == b[y + h][x])
  }

  /** A diamond-step rule stays in `[height_min, height_max]` and reads no
      cell but the four corners. */
  ghost predicate DiamondRuleOk(rule: CellRule, p: Params, h: int)
  {
    (forall g, y, x, d :: p.lo <= rule(g, y, x, d) <= p.hi) &&
    forall a, b, y, x, d {:trigger CornersAgree(a, b, p, y, x, h), rule(a, y, x, d)} ::
      (IsSquare(a, p.size) && IsSquare(b, p.size) && 0 <= h <= y && y + h < p.size &&
       h <= x && x + h < p.size && CornersAgree(a, b, p, y, x, h)) ==> rule(a, y, x, d) == rule(b, y, x, d)
  }

  /** A square-step rule stays in `[height_min, height_max]` and reads no
      cell but the counted neighbours. */
  ghost predicate SquareRuleOk(rule: CellRule, p: Params, h: int)
  {
    (forall g, y, x, d :: p.lo <= rule(g, y, x, d) <= p.hi) &&
    forall a, b, y, x, d {:trigger NeighboursAgree(a, b, p, y, x, h), rule(a, y, x, d)} ::
      (IsSquare(a, p.size) && IsSquare(b, p.size) && 0 <= y < p.size && 0 <= x < p.size && 1 <= h &&
       NeighboursAgree(a, b, p, y, x, h)) ==> rule(a, y, x, d) == rule(b, y, x, d)
  }
}
