/** The diamond-square fill of `DiamondSquare.diamond_square`, shared by
    both copies of the generator.

    The functional definitions below follow the source's loops one for one:
    `DiamondRow`/`DiamondPass` are the two `for` loops of the diamond step,
    `SquareRow`/`SquarePass` those of the square step, `Levels` the
    `while chunk_size > 1` loop. `random.randint` is replaced by a supplied
    function `rand`, where `rand(k, a, b)` is what the k-th call
    `random.randint(a, b)` after seeding returns; a `State` carries the grid
    and the number of calls made so far. `Fill` is the imperative loop nest,
    proved to compute `Run`. */
module Terrain {
  import opened Arith
  import opened Rounding

  /** `THeightMap`: a list of rows. */
  type Grid = seq<seq<int>>

  /** `rand(k, a, b)`: the value of the k-th `random.randint(a, b)` call after seeding. */
  type RandInt = (nat, int, int) -> int

  /** The instance fields the fill reads: `map_size`, `height_min`, `height_max`. */
  datatype Params = Params(size: int, lo: int, hi: int)

  /** The grid and the position reached in the random stream. */
  datatype State = State(grid: Grid, next: nat)

  predicate IsSquare(g: Grid, n: int)
  {
    |g| == n && forall i :: 0 <= i < |g| ==> |g[i]| == n
  }

  /** `N = 2^k + 1`, the sizes the fill is written for. */
  predicate ValidSize(n: int)
  {
    n >= 2 && IsPow2(n - 1)
  }

  /** A chunk size the `while` loop can reach: a power of two no larger than
      `N - 1`, itself a power of two (so the chunk size divides it). */
  predicate LevelOk(n: int, c: int)
  {
    IsPow2(c) && IsPow2(n - 1) && c <= n - 1
  }

  /** `init_height_map`: an `n` by `n` grid of `height_nil`. */
  function Blank(n: nat, nil: int): (g: Grid)
    ensures IsSquare(g, n)
    ensures forall i, j :: 0 <= i < n && 0 <= j < n ==> g[i][j] == nil
  {
    seq(n, _ => seq(n, _ => nil))
  }

  /** `height_map[y][x] = v`. */
  function Put(g: Grid, y: int, x: int, v: int): (r: Grid)
    requires 0 <= y < |g| && 0 <= x < |g[y]|
    ensures |r| == |g| && forall i :: 0 <= i < |g| ==> |r[i]| == |g[i]|
  {
    g[y := g[y][x := v]]
  }

  /** After `height_map[y][x] = v` cell `(y, x)` holds `v` and every other cell is unchanged. */
  lemma PutCells(g: Grid, y: int, x: int, v: int)
    requires 0 <= y < |g| && 0 <= x < |g[y]|
    ensures forall i, j :: 0 <= i < |g| && 0 <= j < |g[i]| ==>
      Put(g, y, x, v)[i][j] == if i == y && j == x then v else g[i][j]
  {
  }

  /** `max(random_scalar / 2, 0.1)`. */
  function NextScalar(s: real): real
  {
    if s / 2.0 >= 0.1 then s / 2.0 else 0.1
  }

  /** The value the diamond step stores at the centre of the chunk whose
      top-left corner is `(y, x)`; `d` is the `randint(-1, 1)` draw. */
  function DiamondValue(g: Grid, p: Params, y: int, x: int, c: int, s: real, d: int): int
    requires IsSquare(g, p.size) && 0 <= y && 0 <= x && 0 <= c && y + c < p.size && x + c < p.size
  {
    RoundAndClamp((g[y][x] + g[y][x + c] + g[y + c][x] + g[y + c][x + c]) as real / 4.0
                  + d as real * s, p.lo, p.hi)
  }

  /** How many neighbours the square step averages. The tests are those of
      the source: a strict `> 0` on the left and upper neighbours, so a left
      neighbour in column 0 or an upper neighbour in row 0 is never counted,
      while `< N` on the right and lower neighbours admits column and row
      `N - 1`. At least one neighbour is always counted, so the division in
      the square step cannot fail. */
  function NeighbourCount(n: int, y: int, x: int, h: int): (r: int)
    requires 0 <= y < n && 0 <= x < n && 1 <= h && 2 * h < n
    ensures 1 <= r <= 4
    ensures r == 4 <==> h < x && x + h < n && h < y && y + h < n
  {
    (if x - h > 0 then 1 else 0) + (if x + h < n then 1 else 0) +
    (if y - h > 0 then 1 else 0) + (if y + h < n then 1 else 0)
  }

  /** `sum_`: the total of the neighbours `NeighbourCount` counts. */
  function NeighbourSum(g: Grid, n: int, y: int, x: int, h: int): int
    requires IsSquare(g, n) && 0 <= y < n && 0 <= x < n && 1 <= h
  {
    (if x - h > 0 then g[y][x - h] else 0) + (if x + h < n then g[y][x + h] else 0) +
    (if y - h > 0 then g[y - h][x] else 0) + (if y + h < n then g[y + h][x] else 0)
  }

  /** The value the square step stores at `(y, x)`. */
  function SquareValue(g: Grid, p: Params, y: int, x: int, h: int, s: real, d: int): int
    requires IsSquare(g, p.size) && 0 <= y < p.size && 0 <= x < p.size && 1 <= h && 2 * h < p.size
  {
    RoundAndClamp(NeighbourSum(g, p.size, y, x, h) as real / NeighbourCount(p.size, y, x, h) as real
                  + d as real * s, p.lo, p.hi)
  }

  /** What a step stores in the cell it visits, as a function of the grid
      before the step, the cell `(y, x)` and the `randint(-1, 1)` draw. The
      loop functions below are written for any rule; the source's two are
      `DiamondRule` and `SquareRule`. */
  type CellRule = (Grid, int, int, int) -> int

  /** The diamond step at chunk size `2h` with scalar `s`: the chunk centre
      `(y, x)` gets `DiamondValue` of the chunk around it. A cell with no
      chunk around it is never visited; the rule gives it `height_min`. */
  function DiamondRule(p: Params, h: int, s: real): CellRule
  {
    (g: Grid, y: int, x: int, d: int) =>
      if IsSquare(g, p.size) && 0 <= h <= y && y + h < p.size && h <= x && x + h < p.size
      then DiamondValue(g, p, y - h, x - h, 2 * h, s, d)
      else p.lo
  }

  /** The square step at chunk size `2h` with scalar `s`: cell `(y, x)` gets
      `SquareValue`. A cell off the grid is never visited; the rule gives it
      `height_min`. */
  function SquareRule(p: Params, h: int, s: real): CellRule
  {
    (g: Grid, y: int, x: int, d: int) =>
      if IsSquare(g, p.size) && 0 <= y < p.size && 0 <= x < p.size && 1 <= h && 2 * h < p.size
      then SquareValue(g, p, y, x, h, s, d)
      else p.lo
  }

  /** The four corner draws, top-left, top-right, bottom-left, bottom-right. */
  function Corners(st: State, p: Params, rand: RandInt): (r: State)
    requires IsSquare(st.grid, p.size) && p.size >= 1
    ensures IsSquare(r.grid, p.size) && r.next == st.next + 4
  {
    var n, k := p.size, st.next;
    var g1 := Put(st.grid, 0, 0, rand(k, p.lo, p.hi));
    var g2 := Put(g1, 0, n - 1, rand(k + 1, p.lo, p.hi));
    var g3 := Put(g2, n - 1, 0, rand(k + 2, p.lo, p.hi));
    var g4 := Put(g3, n - 1, n - 1, rand(k + 3, p.lo, p.hi));
    State(g4, k + 4)
  }

  /** One iteration of the diamond step: the centre of the chunk whose
      top-left corner is `(y, x)` gets the rounded mean of the four corners
      plus one perturbation. */
  function DiamondStep(st: State, p: Params, c: int, y: int, x: int, rule: CellRule, rand: RandInt)
    : (r: State)
    requires IsSquare(st.grid, p.size) && c >= 2 && c % 2 == 0
    requires 0 <= y && 0 <= x && y + c < p.size && x + c < p.size
    ensures IsSquare(r.grid, p.size) && r.next == st.next + 1
  {
    var h := c / 2;
    var v := rule(st.grid, y + h, x + h, rand(st.next, -1, 1));
    State(Put(st.grid, y + h, x + h, v), st.next + 1)
  }

  /** The diamond and square steps of one level run with a chunk size that
      is even, smaller than `N`, and divides `N - 1`, so the chunks tile the
      map exactly. (`LevelOk` implies this: `LevelFits`.) */
  predicate ChunkFits(n: int, c: int)
  {
    c >= 2 && c % 2 == 0 && c < n && Aligned(n - 1, c)
  }

  lemma LevelFits(n: int, c: int)
    requires LevelOk(n, c) && c > 1
    ensures ChunkFits(n, c) && LevelOk(n, c / 2)
  {
    Pow2Halves(c);
    Pow2Divides(c, n - 1);
  }

  /** A row or column whose distance to `N - 1` is a multiple of the chunk
      size is itself a multiple, and the next one is a chunk further on. */
  lemma DistanceAligned(n: int, c: int, x: int)
    requires ChunkFits(n, c) && 0 <= x < n - 1 && Aligned(n - 1 - x, c)
    ensures x % c == 0 && x + c <= n - 1 && Aligned(n - 1 - (x + c), c)
  {
    AlignedDiff(n - 1, n - 1 - x, c);
    assert n - 1 - (n - 1 - x) == x;
    AlignedMod(x, c);
    assert n - 1 - (x + c) == n - 1 - x - c;
  }

  /** The inner `for x` loop of the diamond step, from `x` on, in row `y`.
      Its columns are those whose distance to `N - 1` is a multiple of the
      chunk size, which, as the chunk size divides `N - 1`, are the
      multiples of the chunk size (`DistanceAligned`). */
  function DiamondRow(st: State, p: Params, c: int, y: int, x: int, rule: CellRule, rand: RandInt): (r: State)
    requires IsSquare(st.grid, p.size) && c >= 2 && c % 2 == 0
    requires 0 <= y && y + c < p.size && 0 <= x && Aligned(p.size - 1 - x, c)
    ensures IsSquare(r.grid, p.size)
    decreases p.size - x
  {
    if x >= p.size - 1 then st
    else
      assert p.size - 1 - (x + c) == p.size - 1 - x - c;
      DiamondRow(DiamondStep(st, p, c, y, x, rule, rand), p, c, y, x + c, rule, rand)
  }

  /** The outer `for y` loop of the diamond step, from `y` on. */
  function DiamondPass(st: State, p: Params, c: int, y: int, rule: CellRule, rand: RandInt): (r: State)
    requires IsSquare(st.grid, p.size) && ChunkFits(p.size, c)
    requires 0 <= y && Aligned(p.size - 1 - y, c)
    ensures IsSquare(r.grid, p.size)
    decreases p.size - y
  {
    if y >= p.size - 1 then st
    else
      assert p.size - 1 - (y + c) == p.size - 1 - y - c;
      assert p.size - 1 - 0 == p.size - 1;
      DiamondPass(DiamondRow(st, p, c, y, 0, rule, rand), p, c, y + c, rule, rand)
  }

  /** One iteration of the square step: cell `(y, x)` gets the rounded mean
      of its counted neighbours plus one perturbation. */
  function SquareStep(st: State, p: Params, c: int, y: int, x: int, rule: CellRule, rand: RandInt): (r: State)
    requires IsSquare(st.grid, p.size) && 2 <= c < p.size
    requires 0 <= y < p.size && 0 <= x < p.size
    ensures IsSquare(r.grid, p.size) && r.next == st.next + 1
  {
    var v := rule(st.grid, y, x, rand(st.next, -1, 1));
    State(Put(st.grid, y, x, v), st.next + 1)
  }

  /** The inner `for x` loop of the square step, from `x` on, in row `y`. */
  function SquareRow(st: State, p: Params, c: int, y: int, x: int, rule: CellRule, rand: RandInt): (r: State)
    requires IsSquare(st.grid, p.size) && 2 <= c < p.size
    requires 0 <= y < p.size && 0 <= x
    ensures IsSquare(r.grid, p.size)
    decreases p.size - x
  {
    if x >= p.size then st
    else SquareRow(SquareStep(st, p, c, y, x, rule, rand), p, c, y, x + c, rule, rand)
  }

  /** The first column of square-step row `y`, the source's
      `(y + chunk_size_half) % chunk_size`: half a chunk on rows that are
      multiples of the chunk size, 0 on the rows between
      (`RowStartIsResidue`). */
  function RowStart(y: int, c: int): int
    requires c >= 2
  {
    if Aligned(y, c) then c / 2 else 0
  }

  lemma RowStartIsResidue(y: int, c: int)
    requires c >= 2 && c % 2 == 0 && Aligned(y, c / 2)
    ensures RowStart(y, c) == (y + c / 2) % c
  {
    var h := c / 2;
    AlignedMod(y, h);
    AlignedMod(y, c);
    HalfResidues(y, c, h);
    ShiftByHalf(y, c, h);
  }

  /** The outer `for y` loop of the square step, from `y` on, one row every
      half chunk. */
  function SquarePass(st: State, p: Params, c: int, y: int, rule: CellRule, rand: RandInt): (r: State)
    requires IsSquare(st.grid, p.size) && 2 <= c < p.size
    requires 0 <= y
    ensures IsSquare(r.grid, p.size)
    decreases p.size - y
  {
    if y >= p.size then st
    else SquarePass(SquareRow(st, p, c, y, RowStart(y, c), rule, rand), p, c, y + c / 2, rule, rand)
  }

  /** The `while chunk_size > 1` loop, from chunk size `c` and scalar `s` on. */
  function Levels(st: State, p: Params, c: int, s: real, rand: RandInt): (r: State)
    requires IsSquare(st.grid, p.size) && LevelOk(p.size, c)
    ensures IsSquare(r.grid, p.size)
    decreases c
  {
    if c <= 1 then st
    else
      LevelFits(p.size, c);
      assert p.size - 1 - 0 == p.size - 1;
      var afterDiamond := DiamondPass(st, p, c, 0, DiamondRule(p, c / 2, s), rand);
      Levels(SquarePass(afterDiamond, p, c, 0, SquareRule(p, c / 2, s), rand), p, c / 2, NextScalar(s), rand)
  }

  /** `diamond_square` on grid `g`, with the random stream at position `k`
      and the scalar starting at `roughness`. */
  function Run(g: Grid, p: Params, roughness: real, rand: RandInt, k: nat): (r: State)
    requires IsSquare(g, p.size) && ValidSize(p.size)
    ensures IsSquare(r.grid, p.size)
  {
    Levels(Corners(State(g, k), p, rand), p, p.size - 1, roughness, rand)
  }

  // One unfolding of each loop function, each proved in a small context so
  // that the settle lemmas below need not unfold the loop functions themselves.

  lemma DiamondRowUnfold(st: State, p: Params, c: int, y: int, x: int, rule: CellRule, rand: RandInt)
    requires IsSquare(st.grid, p.size) && ChunkFits(p.size, c)
    requires 0 <= y && y + c < p.size && 0 <= x < p.size - 1 && Aligned(p.size - 1 - x, c)
    ensures x + c < p.size && Aligned(p.size - 1 - (x + c), c)
    ensures DiamondRow(st, p, c, y, x, rule, rand)
         == DiamondRow(DiamondStep(st, p, c, y, x, rule, rand), p, c, y, x + c, rule, rand)
  {
    DistanceAligned(p.size, c, x);
  }

  lemma DiamondPassUnfold(st: State, p: Params, c: int, y: int, rule: CellRule, rand: RandInt)
    requires IsSquare(st.grid, p.size) && ChunkFits(p.size, c)
    requires 0 <= y < p.size - 1 && Aligned(p.size - 1 - y, c)
    ensures y + c < p.size && Aligned(p.size - 1 - (y + c), c) && Aligned(p.size - 1 - 0, c)
    ensures DiamondPass(st, p, c, y, rule, rand)
         == DiamondPass(DiamondRow(st, p, c, y, 0, rule, rand), p, c, y + c, rule, rand)
  {
    DistanceAligned(p.size, c, y);
    assert p.size - 1 - 0 == p.size - 1;
  }

  lemma SquareRowUnfold(st: State, p: Params, c: int, y: int, x: int, rule: CellRule, rand: RandInt)
    requires IsSquare(st.grid, p.size) && 2 <= c < p.size
    requires 0 <= y < p.size && 0 <= x < p.size
    ensures SquareRow(st, p, c, y, x, rule, rand)
         == SquareRow(SquareStep(st, p, c, y, x, rule, rand), p, c, y, x + c, rule, rand)
  {
  }

  lemma SquarePassUnfold(st: State, p: Params, c: int, y: int, rule: CellRule, rand: RandInt)
    requires IsSquare(st.grid, p.size) && 2 <= c < p.size
    requires 0 <= y < p.size
    ensures SquarePass(st, p, c, y, rule, rand)
         == SquarePass(SquareRow(st, p, c, y, RowStart(y, c), rule, rand), p, c, y + c / 2, rule, rand)
  {
  }

  // ---------------------------------------------------------------------
  // The roughness schedule.
  // ---------------------------------------------------------------------

  function Pow2(e: nat): (r: real)
    ensures r >= 1.0
  {
    if e == 0 then 1.0 else 2.0 * Pow2(e - 1)
  }

  /** The scalar after `levels` halvings. */
  function ScalarAfter(s: real, levels: nat): real
  {
    if levels == 0 then s else NextScalar(ScalarAfter(s, levels - 1))
  }

  /** After at least one level the scalar is `max(roughness / 2^levels, 0.1)`:
      it halves each level and never drops below 0.1. */
  lemma {:induction false} ScalarClosedForm(s: real, levels: nat)
    requires levels >= 1
    ensures ScalarAfter(s, levels) ==
      if s / Pow2(levels) >= 0.1 then s / Pow2(levels) else 0.1
    ensures ScalarAfter(s, levels) >= 0.1
  {
    if levels > 1 {
      ScalarClosedForm(s, levels - 1);
      var q := Pow2(levels - 1);
      assert Pow2(levels) == 2.0 * q;
      HalveQuotient(s, q);
    }
  }

  lemma HalveQuotient(s: real, q: real)
    requires q > 0.0
    ensures s / (2.0 * q) == (s / q) / 2.0
  {
  }

  // ---------------------------------------------------------------------
  // The loop nest itself.
  // ---------------------------------------------------------------------

  /** The body of the diamond row loop: the centre of the chunk at `(y, x)` is written. */
  method DiamondCell(g0: Grid, k0: nat, p: Params, chunk: int, y: int, x: int, rule: CellRule, rand: RandInt)
    returns (g: Grid, k: nat)
    requires IsSquare(g0, p.size) && chunk >= 2 && chunk % 2 == 0
    requires 0 <= y && 0 <= x && y + chunk < p.size && x + chunk < p.size
    ensures State(g, k) == DiamondStep(State(g0, k0), p, chunk, y, x, rule, rand)
  {
    var half := chunk / 2;
    var v := rule(g0, y + half, x + half, rand(k0, -1, 1));
    g := Put(g0, y + half, x + half, v);
    k := k0 + 1;
  }

  /** One row of the diamond step: the inner `for x` loop. */
  method DiamondRowLoop(g0: Grid, k0: nat, p: Params, chunk: int, y: int, rule: CellRule, rand: RandInt)
    returns (g: Grid, k: nat)
    requires IsSquare(g0, p.size) && ChunkFits(p.size, chunk)
    requires 0 <= y && y + chunk < p.size
    ensures State(g, k) == DiamondRow(State(g0, k0), p, chunk, y, 0, rule, rand)
  {
    var n := p.size;
    g, k := g0, k0;
    var x := 0;
    assert n - 1 - x == n - 1;
    while x < n - 1
      invariant 0 <= x && Aligned(n - 1 - x, chunk) && IsSquare(g, n)
      invariant DiamondRow(State(g, k), p, chunk, y, x, rule, rand) ==
                DiamondRow(State(g0, k0), p, chunk, y, 0, rule, rand)
      decreases n - x
    {
      g, k := DiamondCell(g, k, p, chunk, y, x, rule, rand);
      assert n - 1 - (x + chunk) == n - 1 - x - chunk;
      x := x + chunk;
    }
  }

  /** The diamond step of one level: the outer `for y` loop over rows of
      chunks, each chunk centre getting the rounded mean of its four
      corners plus a perturbation. */
  method DiamondStepLoops(g0: Grid, k0: nat, p: Params, chunk: int, rule: CellRule, rand: RandInt)
    returns (g: Grid, k: nat)
    requires IsSquare(g0, p.size) && ChunkFits(p.size, chunk)
    ensures State(g, k) == DiamondPass(State(g0, k0), p, chunk, 0, rule, rand)
  {
    var n := p.size;
    g, k := g0, k0;
    var y := 0;
    assert n - 1 - y == n - 1;
    while y < n - 1
      invariant 0 <= y && Aligned(n - 1 - y, chunk) && IsSquare(g, n)
      invariant DiamondPass(State(g, k), p, chunk, y, rule, rand) ==
                DiamondPass(State(g0, k0), p, chunk, 0, rule, rand)
      decreases n - y
    {
      DiamondPassUnfold(State(g, k), p, chunk, y, rule, rand);
      g, k := DiamondRowLoop(g, k, p, chunk, y, rule, rand);
      assert n - 1 - (y + chunk) == n - 1 - y - chunk;
      y := y + chunk;
    }
  }

  /** The body of the square row loop: cell `(y, x)` is written. */
  method SquareCell(g0: Grid, k0: nat, p: Params, chunk: int, y: int, x: int, rule: CellRule, rand: RandInt)
    returns (g: Grid, k: nat)
    requires IsSquare(g0, p.size) && 2 <= chunk < p.size
    requires 0 <= y < p.size && 0 <= x < p.size
    ensures State(g, k) == SquareStep(State(g0, k0), p, chunk, y, x, rule, rand)
  {
    var v := rule(g0, y, x, rand(k0, -1, 1));
    g := Put(g0, y, x, v);
    k := k0 + 1;
  }

  /** One row of the square step: the inner `for x` loop from `x0`. */
  method SquareRowLoop(g0: Grid, k0: nat, p: Params, chunk: int, y: int, x0: int, rule: CellRule, rand: RandInt)
    returns (g: Grid, k: nat)
    requires IsSquare(g0, p.size) && 2 <= chunk < p.size
    requires 0 <= y < p.size && 0 <= x0
    ensures State(g, k) == SquareRow(State(g0, k0), p, chunk, y, x0, rule, rand)
  {
    var n := p.size;
    g, k := g0, k0;
    var x := x0;
    while x < n
      invariant 0 <= x && IsSquare(g, n)
      invariant SquareRow(State(g, k), p, chunk, y, x, rule, rand) ==
                SquareRow(State(g0, k0), p, chunk, y, x0, rule, rand)
      decreases n - x
    {
      g, k := SquareCell(g, k, p, chunk, y, x, rule, rand);
      x := x + chunk;
    }
  }

  /** The square step of one level: the outer `for y` loop over every half
      chunk of rows, each row starting at `(y + chunk_size_half) % chunk_size`,
      computed as `RowStart` (`RowStartIsResidue`). */
  method SquareStepLoops(g0: Grid, k0: nat, p: Params, chunk: int, rule: CellRule, rand: RandInt)
    returns (g: Grid, k: nat)
    requires IsSquare(g0, p.size) && 2 <= chunk < p.size
    ensures State(g, k) == SquarePass(State(g0, k0), p, chunk, 0, rule, rand)
  {
    var n, half := p.size, chunk / 2;
    g, k := g0, k0;
    var y := 0;
    while y < n
      invariant 0 <= y && IsSquare(g, n)
      invariant SquarePass(State(g, k), p, chunk, y, rule, rand) ==
                SquarePass(State(g0, k0), p, chunk, 0, rule, rand)
      decreases n - y
    {
      SquarePassUnfold(State(g, k), p, chunk, y, rule, rand);
      g, k := SquareRowLoop(g, k, p, chunk, y, RowStart(y, chunk), rule, rand);
      y := y + half;
    }
  }

  /** The four corner assignments at the head of `diamond_square`. */
  method SetCorners(g0: Grid, k0: nat, p: Params, rand: RandInt) returns (g: Grid, k: nat)
    requires IsSquare(g0, p.size) && p.size >= 1
    ensures State(g, k) == Corners(State(g0, k0), p, rand)
  {
    var n := p.size;
    g, k := g0, k0;
    g := Put(g, 0, 0, rand(k, p.lo, p.hi));
    g := Put(g, 0, n - 1, rand(k + 1, p.lo, p.hi));
    g := Put(g, n - 1, 0, rand(k + 2, p.lo, p.hi));
    g := Put(g, n - 1, n - 1, rand(k + 3, p.lo, p.hi));
    k := k + 4;
  }

  /** The `while chunk_size > 1` loop: diamond and square steps while the
      chunk size exceeds one, halving the chunk size and the scalar (down to
      0.1) after each level. */
  method LevelLoop(g0: Grid, k0: nat, p: Params, chunk0: int, scalar0: real, rand: RandInt)
    returns (g: Grid, k: nat)
    requires IsSquare(g0, p.size) && LevelOk(p.size, chunk0)
    ensures State(g, k) == Levels(State(g0, k0), p, chunk0, scalar0, rand)
  {
    var n := p.size;
    g, k := g0, k0;
    var chunk, scalar := chunk0, scalar0;
    while chunk > 1
      invariant IsSquare(g, n) && LevelOk(n, chunk)
      invariant Levels(State(g, k), p, chunk, scalar, rand) == Levels(State(g0, k0), p, chunk0, scalar0, rand)
      decreases chunk
    {
      LevelFits(n, chunk);
      g, k := DiamondStepLoops(g, k, p, chunk, DiamondRule(p, chunk / 2, scalar), rand);
      g, k := SquareStepLoops(g, k, p, chunk, SquareRule(p, chunk / 2, scalar), rand);
      chunk := chunk / 2;
      scalar := NextScalar(scalar);
    }
  }

  /** `diamond_square`: the four corners, then the levels from chunk size
      `N - 1` and scalar `roughness`. `k` counts the random draws. */
  method Fill(g0: Grid, p: Params, roughness: real, rand: RandInt, k0: nat) returns (g: Grid, k: nat)
    requires IsSquare(g0, p.size) && ValidSize(p.size)
    ensures State(g, k) == Levels(Corners(State(g0, k0), p, rand), p, p.size - 1, roughness, rand)
  {
    g, k := SetCorners(g0, k0, p, rand);
    Pow2Divides(1, p.size - 1);
    g, k := LevelLoop(g, k, p, p.size - 1, roughness, rand);
  }
}
