/** Every cell the fill reads was written earlier in the same run: the
    result does not depend on the starting grid, and it lies in
    `[height_min, height_max]`. */
module Independence {
  import opened Arith
  import opened Rounding
  import opened Terrain
  import opened Stages

  /** The source's diamond rule reads only the four corners and, by the
      clamp, stays in range. */
  lemma DiamondRuleIsOk(p: Params, h: int, s: real)
    requires p.lo <= p.hi
    ensures DiamondRuleOk(DiamondRule(p, h, s), p, h)
  {
    var rule := DiamondRule(p, h, s);
    forall g, y, x, d
      ensures p.lo <= rule(g, y, x, d) <= p.hi
    {
      if IsSquare(g, p.size) && 0 <= h <= y && y + h < p.size && h <= x && x + h < p.size {
        assert rule(g, y, x, d) == DiamondValue(g, p, y - h, x - h, 2 * h, s, d);
      }
    }
    forall a, b, y, x, d | IsSquare(a, p.size) && IsSquare(b, p.size) && 0 <= h <= y && y + h < p.size &&
                           h <= x && x + h < p.size && CornersAgree(a, b, p, y, x, h)
      ensures rule(a, y, x, d) == rule(b, y, x, d)
    {
      DiamondValueReadsCorners(a, b, p, y, x, h, s, d);
    }
  }

  /** The diamond value of a chunk depends on its four corners only. */
  lemma DiamondValueReadsCorners(a: Grid, b: Grid, p: Params, y: int, x: int, h: int, s: real, d: int)
    requires IsSquare(a, p.size) && IsSquare(b, p.size) && 0 <= h <= y && y + h < p.size
    requires h <= x && x + h < p.size && CornersAgree(a, b, p, y, x, h)
    ensures DiamondValue(a, p, y - h, x - h, 2 * h, s, d) == DiamondValue(b, p, y - h, x - h, 2 * h, s, d)
  {
    assert y - h + 2 * h == y + h && x - h + 2 * h == x + h;
  }

  /** The source's square rule reads only the counted neighbours and, by
      the clamp, stays in range. */
  lemma SquareRuleIsOk(p: Params, h: int, s: real)
    requires p.lo <= p.hi
    ensures SquareRuleOk(SquareRule(p, h, s), p, h)
  {
  }

  /** Writing the same in-range value into both grids settles that cell and unsettles none. */
  lemma PutSettled(a: Grid, b: Grid, p: Params, y: int, x: int, v: int)
    requires IsSquare(a, p.size) && IsSquare(b, p.size) && 0 <= y < p.size && 0 <= x < p.size
    requires p.lo <= v <= p.hi
    ensures Settled(Put(a, y, x, v), Put(b, y, x, v), p, y, x)
    ensures forall yy, xx {:trigger Settled(Put(a, y, x, v), Put(b, y, x, v), p, yy, xx)} ::
      Settled(a, b, p, yy, xx) ==> Settled(Put(a, y, x, v), Put(b, y, x, v), p, yy, xx)
  {
  }

  lemma DiamondStepSettles(s1: State, s2: State, p: Params, c: int, y: int, x: int, rule: CellRule, rand: RandInt)
    requires ChunkFits(p.size, c) && DiamondRuleOk(rule, p, c / 2)
    requires 0 <= y && y % c == 0 && 0 <= x && x % c == 0 && y + c < p.size && x + c < p.size
    requires DiamondStage(s1, s2, p, c, y, x)
    ensures DiamondStage(DiamondStep(s1, p, c, y, x, rule, rand), DiamondStep(s2, p, c, y, x, rule, rand),
                         p, c, y, x + c)
  {
    var h := c / 2;
    LatticeCorners(s1.grid, s2.grid, p, c, y, x);
    var d := rand(s1.next, -1, 1);
    var v := rule(s1.grid, y + h, x + h, d);
    assert v == rule(s2.grid, y + h, x + h, d);
    CentrePutSettles(s1.grid, s2.grid, p, c, y, x, v);
  }

  /** The corners of a chunk are lattice points. */
  lemma LatticeCorners(a: Grid, b: Grid, p: Params, c: int, y: int, x: int)
    requires IsSquare(a, p.size) && IsSquare(b, p.size) && ChunkFits(p.size, c)
    requires 0 <= y && y % c == 0 && 0 <= x && x % c == 0 && y + c < p.size && x + c < p.size
    requires LatticeSettled(a, b, p, c)
    ensures CornersAgree(a, b, p, y + c / 2, x + c / 2, c / 2)
  {
    ModStep(x, c);
    ModStep(y, c);
    assert Settled(a, b, p, y, x);
    assert Settled(a, b, p, y, x + c);
    assert Settled(a, b, p, y + c, x);
    assert Settled(a, b, p, y + c, x + c);
  }

  /** Writing a settled value at the centre of the chunk at `(y, x)` keeps
      the lattice and extends the settled centres by one chunk. */
  lemma CentrePutSettles(a: Grid, b: Grid, p: Params, c: int, y: int, x: int, v: int)
    requires IsSquare(a, p.size) && IsSquare(b, p.size) && ChunkFits(p.size, c) && p.lo <= v <= p.hi
    requires 0 <= y && y % c == 0 && 0 <= x && x % c == 0 && y + c < p.size && x + c < p.size
    requires LatticeSettled(a, b, p, c) && CentresSettled(a, b, p, c, y, x)
    ensures var h := c / 2; var a', b' := Put(a, y + h, x + h, v), Put(b, y + h, x + h, v);
      LatticeSettled(a', b', p, c) && CentresSettled(a', b', p, c, y, x + c)
  {
    var n, h := p.size, c / 2;
    PutSettled(a, b, p, y + h, x + h, v);
    var a', b' := Put(a, y + h, x + h, v), Put(b, y + h, x + h, v);
    forall yy, xx | 0 <= yy < n && 0 <= xx < n && yy % c == h && xx % c == h &&
      (yy - h < y || (yy - h == y && xx - h < x + c))
      ensures Settled(a', b', p, yy, xx)
    {
      if yy - h == y && x <= xx - h {
        ShiftByHalf(xx, c, h);
        if x < xx - h {
          NextSameResidue(x, xx - h, c);
        }
      }
    }
  }


  /** A centre below row `y + c` whose chunk starts at or after row `y` has its chunk starting at row `y`. */
  lemma CentreRowBound(yy: int, y: int, c: int, h: int)
    requires h > 0 && c == 2 * h && y % c == 0 && yy % c == h && yy - h < y + c
    ensures yy - h <= y
  {
    ShiftByHalf(yy, c, h);
    if y < yy - h {
      NextSameResidue(y, yy - h, c);
    }
  }

  lemma ModBelow(a: int, c: int)
    requires 0 <= a && c > 0
    ensures a % c <= a && (a % c) % c == a % c
  {
    var q := a / c;
    assert a == c * q + a % c;
    MulSign(c, q);
    ModOfDecomposition(a % c, c, 0, a % c);
  }

  /** A finished diamond row settles every centre of that row. */
  lemma CentresNextRow(a: Grid, b: Grid, p: Params, c: int, y: int, x: int)
    requires IsSquare(a, p.size) && ChunkFits(p.size, c) && 0 <= y && y % c == 0
    requires x >= p.size - 1 && CentresSettled(a, b, p, c, y, x)
    ensures CentresSettled(a, b, p, c, y + c, 0)
  {
    var n, h := p.size, c / 2;
    forall yy, xx | 0 <= yy < n && 0 <= xx < n && yy % c == h && xx % c == h &&
      (yy - h < y + c || (yy - h == y + c && xx - h < 0))
      ensures Settled(a, b, p, yy, xx)
    {
      ModBelow(xx, c);
      CentreRowBound(yy, y, c, h);
    }
  }

  lemma {:induction false} DiamondRowSettles(s1: State, s2: State, p: Params, c: int, y: int, x: int,
                                             rule: CellRule, rand: RandInt)
    requires ChunkFits(p.size, c) && DiamondRuleOk(rule, p, c / 2)
    requires 0 <= y && y % c == 0 && y + c < p.size && 0 <= x && Aligned(p.size - 1 - x, c)
    requires DiamondStage(s1, s2, p, c, y, x)
    ensures DiamondStage(DiamondRow(s1, p, c, y, x, rule, rand), DiamondRow(s2, p, c, y, x, rule, rand),
                         p, c, y + c, 0)
    decreases p.size - x
  {
    if x >= p.size - 1 {
      CentresNextRow(s1.grid, s2.grid, p, c, y, x);
    } else {
      DiamondRowUnfold(s1, p, c, y, x, rule, rand);
      DiamondRowUnfold(s2, p, c, y, x, rule, rand);
      DistanceAligned(p.size, c, x);
      DiamondStepSettles(s1, s2, p, c, y, x, rule, rand);
      DiamondRowSettles(DiamondStep(s1, p, c, y, x, rule, rand), DiamondStep(s2, p, c, y, x, rule, rand),
                        p, c, y, x + c, rule, rand);
    }
  }

  lemma {:induction false} DiamondPassSettles(s1: State, s2: State, p: Params, c: int, y: int,
                                              rule: CellRule, rand: RandInt)
    requires ChunkFits(p.size, c) && DiamondRuleOk(rule, p, c / 2)
    requires 0 <= y && Aligned(p.size - 1 - y, c)
    requires DiamondStage(s1, s2, p, c, y, 0)
    ensures DiamondStage(DiamondPass(s1, p, c, y, rule, rand), DiamondPass(s2, p, c, y, rule, rand),
                         p, c, p.size - 1, 0)
    decreases p.size - y
  {
    if y < p.size - 1 {
      DiamondPassUnfold(s1, p, c, y, rule, rand);
      DiamondPassUnfold(s2, p, c, y, rule, rand);
      DistanceAligned(p.size, c, y);
      DiamondRowSettles(s1, s2, p, c, y, 0, rule, rand);
      DiamondPassSettles(DiamondRow(s1, p, c, y, 0, rule, rand), DiamondRow(s2, p, c, y, 0, rule, rand),
                         p, c, y + c, rule, rand);
    }
  }

  /** Every neighbour the square step reads at an edge midpoint is a lattice
      point or a chunk centre of the current level. */
  lemma SquareReadsSettled(a: Grid, b: Grid, p: Params, c: int, y: int, x: int)
    requires IsSquare(a, p.size) && IsSquare(b, p.size) && ChunkFits(p.size, c)
    requires 0 <= y < p.size && 0 <= x < p.size && y % (c / 2) == 0 && x % c == (y + c / 2) % c
    requires LatticeSettled(a, b, p, c) && CentresSettled(a, b, p, c, p.size - 1, 0)
    ensures NeighboursAgree(a, b, p, y, x, c / 2)
  {
    var n, h := p.size, c / 2;
    HalfResidues(y, c, h);
    ShiftByHalf(y, c, h);
    ShiftByHalf(x, c, h);
    if x - h > 0 { assert Settled(a, b, p, y, x - h); }
    if x + h < n { assert Settled(a, b, p, y, x + h); }
    if y - h > 0 { assert Settled(a, b, p, y - h, x); }
    if y + h < n { assert Settled(a, b, p, y + h, x); }
  }

  lemma SquareStepSettles(s1: State, s2: State, p: Params, c: int, y: int, x: int, rule: CellRule, rand: RandInt)
    requires ChunkFits(p.size, c) && SquareRuleOk(rule, p, c / 2)
    requires 0 <= y < p.size && y % (c / 2) == 0 && 0 <= x < p.size && x % c == (y + c / 2) % c
    requires SquareStage(s1, s2, p, c, y, x)
    ensures SquareStage(SquareStep(s1, p, c, y, x, rule, rand), SquareStep(s2, p, c, y, x, rule, rand),
                        p, c, y, x + c)
  {
    var n, h := p.size, c / 2;
    SquareReadsSettled(s1.grid, s2.grid, p, c, y, x);
    var d := rand(s1.next, -1, 1);
    var v := rule(s1.grid, y, x, d);
    assert v == rule(s2.grid, y, x, d);
    EdgePutSettles(s1.grid, s2.grid, p, c, y, x, v);
  }

  /** Writing a settled value at the edge midpoint `(y, x)` keeps the
      lattice and the centres and extends the settled edge midpoints by one. */
  lemma EdgePutSettles(a: Grid, b: Grid, p: Params, c: int, y: int, x: int, v: int)
    requires IsSquare(a, p.size) && IsSquare(b, p.size) && ChunkFits(p.size, c) && p.lo <= v <= p.hi
    requires 0 <= y < p.size && 0 <= x < p.size && x % c == (y + c / 2) % c
    requires LatticeSettled(a, b, p, c) && CentresSettled(a, b, p, c, p.size - 1, 0)
    requires EdgesSettled(a, b, p, c, y, x)
    ensures var a', b' := Put(a, y, x, v), Put(b, y, x, v);
      LatticeSettled(a', b', p, c) && CentresSettled(a', b', p, c, p.size - 1, 0) &&
      EdgesSettled(a', b', p, c, y, x + c)
  {
    var n, h := p.size, c / 2;
    PutSettled(a, b, p, y, x, v);
    var a', b' := Put(a, y, x, v), Put(b, y, x, v);
    forall yy, xx | 0 <= yy < n && 0 <= xx < n && yy % h == 0 && xx % c == (yy + h) % c &&
      (yy < y || (yy == y && xx < x + c))
      ensures Settled(a', b', p, yy, xx)
    {
      if yy == y && x < xx {
        NextSameResidue(x, xx, c);
      }
    }
  }


  /** A finished square row settles every cell the square step visits in it. */
  lemma EdgesNextRow(a: Grid, b: Grid, p: Params, c: int, y: int, x: int)
    requires IsSquare(a, p.size) && ChunkFits(p.size, c) && 0 <= y && y % (c / 2) == 0
    requires x >= p.size && EdgesSettled(a, b, p, c, y, x)
    ensures EdgesSettled(a, b, p, c, y + c / 2, 0)
  {
    var n, h := p.size, c / 2;
    forall yy, xx | 0 <= yy < n && 0 <= xx < n && yy % h == 0 && xx % c == (yy + h) % c && yy < y + h
      ensures Settled(a, b, p, yy, xx)
    {
      if y < yy {
        NextSameResidue(y, yy, h);
      }
    }
  }

  /** A square row starts at the first column of its residue class. */
  lemma EdgesRowStart(a: Grid, b: Grid, p: Params, c: int, y: int)
    requires IsSquare(a, p.size) && ChunkFits(p.size, c) && 0 <= y && Aligned(y, c / 2)
    requires EdgesSettled(a, b, p, c, y, 0)
    ensures y % (c / 2) == 0 && 0 <= RowStart(y, c) && RowStart(y, c) % c == (y + c / 2) % c
    ensures EdgesSettled(a, b, p, c, y, RowStart(y, c))
  {
    var n, h := p.size, c / 2;
    RowStartIsResidue(y, c);
    AlignedMod(y, h);
    ModBelow(y + h, c);
    forall yy, xx | 0 <= yy < n && 0 <= xx < n && yy % h == 0 && xx % c == (yy + h) % c &&
      (yy < y || (yy == y && xx < (y + h) % c))
      ensures Settled(a, b, p, yy, xx)
    {
      if yy == y {
        ModBelow(xx, c);
      }
    }
  }

  lemma {:induction false} SquareRowSettles(s1: State, s2: State, p: Params, c: int, y: int, x: int,
                                            rule: CellRule, rand: RandInt)
    requires ChunkFits(p.size, c) && SquareRuleOk(rule, p, c / 2)
    requires 0 <= y < p.size && y % (c / 2) == 0 && 0 <= x && x % c == (y + c / 2) % c
    requires SquareStage(s1, s2, p, c, y, x)
    ensures SquareStage(SquareRow(s1, p, c, y, x, rule, rand), SquareRow(s2, p, c, y, x, rule, rand),
                        p, c, y + c / 2, 0)
    decreases p.size - x
  {
    if x >= p.size {
      EdgesNextRow(s1.grid, s2.grid, p, c, y, x);
    } else {
      SquareRowUnfold(s1, p, c, y, x, rule, rand);
      SquareRowUnfold(s2, p, c, y, x, rule, rand);
      SquareStepSettles(s1, s2, p, c, y, x, rule, rand);
      ModStep(x, c);
      SquareRowSettles(SquareStep(s1, p, c, y, x, rule, rand), SquareStep(s2, p, c, y, x, rule, rand),
                       p, c, y, x + c, rule, rand);
    }
  }

  lemma {:induction false} SquarePassSettles(s1: State, s2: State, p: Params, c: int, y: int,
                                             rule: CellRule, rand: RandInt)
    requires ChunkFits(p.size, c) && SquareRuleOk(rule, p, c / 2)
    requires 0 <= y && Aligned(y, c / 2)
    requires SquareStage(s1, s2, p, c, y, 0)
    ensures SquareStage(SquarePass(s1, p, c, y, rule, rand), SquarePass(s2, p, c, y, rule, rand),
                        p, c, p.size, 0)
    decreases p.size - y
  {
    var n, h := p.size, c / 2;
    if y < n {
      var x0 := RowStart(y, c);
      SquarePassUnfold(s1, p, c, y, rule, rand);
      SquarePassUnfold(s2, p, c, y, rule, rand);
      EdgesRowStart(s1.grid, s2.grid, p, c, y);
      SquareRowSettles(s1, s2, p, c, y, x0, rule, rand);
      AlignedStep(y, h);
      SquarePassSettles(SquareRow(s1, p, c, y, x0, rule, rand), SquareRow(s2, p, c, y, x0, rule, rand),
                        p, c, y + h, rule, rand);
    }
  }

  /** Lattice, centres and edge midpoints of chunk size `c` make up the lattice of `c / 2`. */
  lemma LevelComplete(a: Grid, b: Grid, p: Params, c: int)
    requires ChunkFits(p.size, c)
    requires LatticeSettled(a, b, p, c) && CentresSettled(a, b, p, c, p.size - 1, 0)
    requires EdgesSettled(a, b, p, c, p.size, 0)
    ensures LatticeSettled(a, b, p, c / 2)
  {
    var n, h := p.size, c / 2;
    forall y, x | 0 <= y < n && 0 <= x < n && y % h == 0 && x % h == 0
      ensures Settled(a, b, p, y, x)
    {
      HalfResidues(y, c, h);
      HalfResidues(x, c, h);
      ShiftByHalf(y, c, h);
      if y % c == h && x % c == h {
        assert y - h < n - 1;
      }
    }
  }

  /** Before the diamond step no centre has been visited, so none is required to be settled. */
  lemma NoCentresYet(a: Grid, b: Grid, p: Params, c: int)
    requires c >= 2
    ensures CentresSettled(a, b, p, c, 0, 0)
  {
    var h := c / 2;
    forall yy, xx | 0 <= yy < p.size && 0 <= xx < p.size && yy % c == h && xx % c == h
      ensures Settled(a, b, p, yy, xx) || (yy - h >= 0 && xx - h >= 0)
    {
      ModBelow(yy, c);
      ModBelow(xx, c);
    }
  }

  lemma {:induction false} LevelsSettle(s1: State, s2: State, p: Params, c: int, s: real, rand: RandInt)
    requires Paired(s1, s2, p) && LevelOk(p.size, c)
    requires LatticeSettled(s1.grid, s2.grid, p, c)
    ensures var r1, r2 := Levels(s1, p, c, s, rand), Levels(s2, p, c, s, rand);
      Paired(r1, r2, p) && LatticeSettled(r1.grid, r2.grid, p, 1)
    decreases c
  {
    if c >= 2 {
      LevelFits(p.size, c);
      assert p.size - 1 - 0 == p.size - 1;
      NoCentresYet(s1.grid, s2.grid, p, c);
      var dr, sr := DiamondRule(p, c / 2, s), SquareRule(p, c / 2, s);
      DiamondRuleIsOk(p, c / 2, s);
      SquareRuleIsOk(p, c / 2, s);
      DiamondPassSettles(s1, s2, p, c, 0, dr, rand);
      var d1, d2 := DiamondPass(s1, p, c, 0, dr, rand), DiamondPass(s2, p, c, 0, dr, rand);
      SquarePassSettles(d1, d2, p, c, 0, sr, rand);
      var q1, q2 := SquarePass(d1, p, c, 0, sr, rand), SquarePass(d2, p, c, 0, sr, rand);
      LevelComplete(q1.grid, q2.grid, p, c);
      LevelsSettle(q1, q2, p, c / 2, NextScalar(s), rand);
    }
  }

  /** The corner draws `random.randint(height_min, height_max)` at stream positions `k .. k+3`. */
  predicate CornerDrawsInRange(rand: RandInt, k: nat, lo: int, hi: int)
  {
    lo <= rand(k, lo, hi) <= hi && lo <= rand(k + 1, lo, hi) <= hi &&
    lo <= rand(k + 2, lo, hi) <= hi && lo <= rand(k + 3, lo, hi) <= hi
  }

  lemma CornersSettle(g1: Grid, g2: Grid, p: Params, rand: RandInt, k: nat)
    requires IsSquare(g1, p.size) && IsSquare(g2, p.size) && ValidSize(p.size) && p.lo <= p.hi
    requires CornerDrawsInRange(rand, k, p.lo, p.hi)
    ensures var c1, c2 := Corners(State(g1, k), p, rand), Corners(State(g2, k), p, rand);
      Paired(c1, c2, p) && LatticeSettled(c1.grid, c2.grid, p, p.size - 1)
  {
    var n := p.size;
    var c1, c2 := Corners(State(g1, k), p, rand), Corners(State(g2, k), p, rand);
    forall y, x | 0 <= y < n && 0 <= x < n && y % (n - 1) == 0 && x % (n - 1) == 0
      ensures Settled(c1.grid, c2.grid, p, y, x)
    {
      MultiplesUpTo(y, n - 1);
      MultiplesUpTo(x, n - 1);
    }
  }

  /** The grid `diamond_square` leaves behind does not depend on the grid it
      started from: two runs on the same random stream agree cell for cell
      and consume the same draws. This is why `generate` may discard the
      fresh grid of `init_height_map` and fill the old one. */
  lemma RunIgnoresPriorGrid(g1: Grid, g2: Grid, p: Params, roughness: real, rand: RandInt, k: nat)
    requires IsSquare(g1, p.size) && IsSquare(g2, p.size) && ValidSize(p.size) && p.lo <= p.hi
    requires CornerDrawsInRange(rand, k, p.lo, p.hi)
    ensures Run(g1, p, roughness, rand, k) == Run(g2, p, roughness, rand, k)
  {
    RunSettles(g1, g2, p, roughness, rand, k);
  }

  /** After `diamond_square` every cell holds a value in `[height_min, height_max]`;
      in particular no cell is left at `height_nil` when that lies below `height_min`. */
  lemma RunWithinBounds(g: Grid, p: Params, roughness: real, rand: RandInt, k: nat)
    requires IsSquare(g, p.size) && ValidSize(p.size) && p.lo <= p.hi
    requires CornerDrawsInRange(rand, k, p.lo, p.hi)
    ensures var r := Run(g, p, roughness, rand, k).grid;
      forall y, x :: 0 <= y < p.size && 0 <= x < p.size ==> p.lo <= r[y][x] <= p.hi
  {
    RunSettles(g, g, p, roughness, rand, k);
  }

  /** `Fill` computes `Run`: the corner draws, then the levels. */
  lemma FillIsRun(g: Grid, p: Params, roughness: real, rand: RandInt, k: nat)
    requires IsSquare(g, p.size) && ValidSize(p.size) && p.lo <= p.hi
    requires CornerDrawsInRange(rand, k, p.lo, p.hi)
    ensures Run(g, p, roughness, rand, k) == Levels(Corners(State(g, k), p, rand), p, p.size - 1, roughness, rand)
  {
    RunSettles(g, g, p, roughness, rand, k);
  }

  lemma RunSettles(g1: Grid, g2: Grid, p: Params, roughness: real, rand: RandInt, k: nat)
    requires IsSquare(g1, p.size) && IsSquare(g2, p.size) && ValidSize(p.size) && p.lo <= p.hi
    requires CornerDrawsInRange(rand, k, p.lo, p.hi)
    ensures var r1, r2 := Run(g1, p, roughness, rand, k), Run(g2, p, roughness, rand, k);
      r1 == r2 && forall y, x :: 0 <= y < p.size && 0 <= x < p.size ==> p.lo <= r1.grid[y][x] <= p.hi
    ensures Run(g1, p, roughness, rand, k) == Levels(Corners(State(g1, k), p, rand), p, p.size - 1, roughness, rand)
  {
    var n := p.size;
    CornersSettle(g1, g2, p, rand, k);
    var c1, c2 := Corners(State(g1, k), p, rand), Corners(State(g2, k), p, rand);
    LevelsSettle(c1, c2, p, n - 1, roughness, rand);
    var r1, r2 := Run(g1, p, roughness, rand, k), Run(g2, p, roughness, rand, k);
    forall y, x | 0 <= y < n && 0 <= x < n
      ensures r1.grid[y][x] == r2.grid[y][x] && p.lo <= r1.grid[y][x] <= p.hi
    {
      assert Settled(r1.grid, r2.grid, p, y, x);
    }
    forall y | 0 <= y < n
      ensures r1.grid[y] == r2.grid[y]
    {
    }
  }
}
