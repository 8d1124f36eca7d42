/** `DiamondSquare.round_and_clamp`: round to the nearest integer, a tie
    going to the ceiling, then clamp into `[height_min, height_max]`.
    Python floats are modelled as `real`. */
module Rounding {

  /** `math.floor`. */
  function Floor(v: real): (r: int)
    ensures r as real <= v < r as real + 1.0
  {
    v.Floor
  }

  /** `math.ceil`. */
  function Ceil(v: real): (r: int)
    ensures v <= r as real < v + 1.0
  {
    if v == v.Floor as real then v.Floor else v.Floor + 1
  }

  /** The rounding half of `round_and_clamp`: the floor is taken only when
      the ceiling is strictly farther away, so a tie goes up. */
  function RoundHalfUp(v: real): (r: int)
  {
    var f, c := Floor(v), Ceil(v);
    if c as real - v > v - f as real then f else c
  }

  /** `round_and_clamp` on an instance whose bounds are `lo` and `hi`. */
  function RoundAndClamp(v: real, lo: int, hi: int): (r: int)
    ensures lo <= hi ==> lo <= r <= hi
  {
    var rounded := RoundHalfUp(v);
    if rounded < lo then lo
    else if rounded > hi then hi
    else rounded
  }

  /** The rounding step is the familiar "add one half and take the floor". */
  lemma RoundHalfUpIsFloorOfHalfMore(v: real)
    ensures RoundHalfUp(v) == Floor(v + 0.5)
  {
    var f := Floor(v);
    if v == f as real {
      assert Ceil(v) == f;
      assert f as real <= v + 0.5 < f as real + 1.0;
    } else if v - f as real < 0.5 {
      assert Ceil(v) == f + 1;
      assert f as real <= v + 0.5 < f as real + 1.0;
    } else {
      assert Ceil(v) == f + 1;
      assert (f + 1) as real <= v + 0.5 < (f + 1) as real + 1.0;
    }
  }

  /** Rounding lands within one half of the input, and an exact half goes up. */
  lemma RoundHalfUpNearest(v: real)
    ensures -0.5 < RoundHalfUp(v) as real - v <= 0.5
    ensures v - Floor(v) as real == 0.5 ==> RoundHalfUp(v) == Floor(v) + 1
  {
    RoundHalfUpIsFloorOfHalfMore(v);
  }

  /** A value already in range is only rounded; one outside is pinned to the nearer bound. */
  lemma RoundAndClampCases(v: real, lo: int, hi: int)
    requires lo <= hi
    ensures lo <= RoundHalfUp(v) <= hi ==> RoundAndClamp(v, lo, hi) == RoundHalfUp(v)
    ensures v <= lo as real ==> RoundAndClamp(v, lo, hi) == lo
    ensures v >= hi as real ==> RoundAndClamp(v, lo, hi) == hi
  {
    RoundHalfUpNearest(v);
  }

  /** The two ties named for the source: 2.5 becomes 3, and -0.5 becomes 0
      before the clamp (so 1 after clamping to the default range). */
  lemma TiesRoundUp()
    ensures RoundHalfUp(2.5) == 3 && RoundAndClamp(2.5, 1, 16) == 3
    ensures RoundHalfUp(-0.5) == 0 && RoundAndClamp(-0.5, 1, 16) == 1
  {
    RoundHalfUpIsFloorOfHalfMore(2.5);
    RoundHalfUpIsFloorOfHalfMore(-0.5);
  }
}
