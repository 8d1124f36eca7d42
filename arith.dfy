/** Divisibility facts used by the diamond-square index arithmetic.
    Every chunk size is a power of two that divides `size - 1`, and every
    loop coordinate is a multiple of the chunk or of its half. */
module Arith {

  /** `n` is a power of two (1, 2, 4, ...). */
  predicate IsPow2(n: int)
    decreases if n < 1 then 0 else n
  {
    n >= 1 && (n == 1 || (n % 2 == 0 && IsPow2(n / 2)))
  }

  /** Sign facts about a product with a positive factor. */
  lemma MulSign(c: int, t: int)
    requires c > 0
    ensures t >= 1 ==> c * t >= c
    ensures t <= 0 ==> c * t <= 0
  {
  }

  /** Euclidean division is determined by any quotient/remainder pair. */
  lemma ModOfDecomposition(a: int, c: int, q: int, r: int)
    requires c > 0 && a == c * q + r && 0 <= r < c
    ensures a % c == r && a / c == q
  {
    var q', r' := a / c, a % c;
    assert a == c * q' + r';
    assert c * (q - q') == r' - r;
    MulSign(c, q - q');
    MulSign(c, q' - q);
  }

  /** An index below `n * n` splits into a quotient and a remainder, both below `n`. */
  lemma SplitIndex(k: int, n: int)
    requires 0 < n && 0 <= k < n * n
    ensures 0 <= k / n < n && 0 <= k % n < n && k == (k / n) * n + k % n
  {
    var q := k / n;
    assert k == n * q + k % n;
    assert n * (q - n + 1) == n * q - n * n + n;
    MulSign(n, q - n + 1);
  }

  /** Adding the modulus does not change the residue. */
  lemma ModStep(a: int, c: int)
    requires c > 0
    ensures (a + c) % c == a % c
  {
    ModOfDecomposition(a + c, c, a / c + 1, a % c);
  }

  /** Two distinct numbers with the same residue are at least the modulus apart. */
  lemma NextSameResidue(a: int, b: int, c: int)
    requires c > 0 && a % c == b % c && a < b
    ensures a + c <= b
  {
    var qa, qb := a / c, b / c;
    assert a == c * qa + a % c;
    assert b == c * qb + b % c;
    assert c * (qb - qa) == c * qb - c * qa;
    MulSign(c, qb - qa);
  }

  /** A multiple of `h` has residue 0 or `h` modulo `c = 2h`. */
  lemma HalfResidues(a: int, c: int, h: int)
    requires h > 0 && c == 2 * h && a % h == 0
    ensures a % c == 0 || a % c == h
  {
    var q := a / h;
    assert a == h * q;
    var q2, b := q / 2, q % 2;
    assert q == 2 * q2 + b;
    assert h * q == c * q2 + h * b;
    if b == 0 {
      ModOfDecomposition(a, c, q2, 0);
    } else {
      ModOfDecomposition(a, c, q2, h);
    }
  }

  /** Residues modulo `c = 2h` after moving by `h`. */
  lemma ShiftByHalf(a: int, c: int, h: int)
    requires h > 0 && c == 2 * h
    ensures a % c == 0 ==> (a + h) % c == h && (a - h) % c == h
    ensures a % c == h ==> (a + h) % c == 0 && (a - h) % c == 0
  {
    var q := a / c;
    assert a == c * q + a % c;
    if a % c == 0 {
      ModOfDecomposition(a + h, c, q, h);
      ModOfDecomposition(a - h, c, q - 1, h);
    } else if a % c == h {
      ModOfDecomposition(a + h, c, q + 1, 0);
      ModOfDecomposition(a - h, c, q, 0);
    }
  }

  /** Halving a power of two greater than one gives a power of two and loses nothing. */
  lemma Pow2Halves(c: int)
    requires IsPow2(c) && c > 1
    ensures c % 2 == 0 && c / 2 >= 1 && IsPow2(c / 2) && c == 2 * (c / 2)
  {
  }

  /** `a` is a non-negative multiple of `c`, stated by repeated subtraction
      so that the loop proofs need no division by a variable. */
  predicate Aligned(a: int, c: int)
    requires c >= 1
    decreases if a < 0 then 0 else a
  {
    a == 0 || (a >= c && Aligned(a - c, c))
  }

  /** `Aligned` is divisibility. */
  lemma {:induction false} AlignedMod(a: int, c: int)
    requires c >= 1
    ensures Aligned(a, c) <==> (a >= 0 && a % c == 0)
    decreases if a < 0 then 0 else a
  {
    if a == 0 {
      ModOfDecomposition(0, c, 0, 0);
    } else if 0 < a < c {
      ModOfDecomposition(a, c, 0, a);
    } else if a >= c {
      AlignedMod(a - c, c);
      ModStep(a - c, c);
    }
  }

  /** The next multiple. */
  lemma AlignedStep(a: int, c: int)
    requires c >= 1 && Aligned(a, c)
    ensures Aligned(a + c, c)
  {
    assert a + c - c == a;
  }

  /** The distance between two multiples is a multiple. */
  lemma {:induction false} AlignedDiff(a: int, b: int, c: int)
    requires c >= 1 && Aligned(a, c) && Aligned(b, c) && b <= a
    ensures Aligned(a - b, c)
    decreases if b < 0 then 0 else b
  {
    if b != 0 {
      AlignedDiff(a - c, b - c, c);
      assert a - c - (b - c) == a - b;
    }
  }

  /** A power of two divides every power of two that is at least as large. */
  lemma {:induction false} Pow2Divides(a: int, b: int)
    requires IsPow2(a) && IsPow2(b) && a <= b
    ensures b % a == 0 && Aligned(b, a)
    decreases a
  {
    if a == 1 {
      ModOfDecomposition(b, 1, b, 0);
    } else {
      Pow2Halves(a);
      Pow2Halves(b);
      Pow2Divides(a / 2, b / 2);
      var q := (b / 2) / (a / 2);
      assert b / 2 == (a / 2) * q + 0;
      assert b == a * q;
      ModOfDecomposition(b, a, q, 0);
    }
    AlignedMod(b, a);
  }

  /** In `[0, m]` the only multiples of `m` are the two ends. */
  lemma MultiplesUpTo(y: int, m: int)
    requires m > 0 && 0 <= y <= m && y % m == 0
    ensures y == 0 || y == m
  {
    if 0 < y < m {
      ModOfDecomposition(y, m, 0, y);
    }
  }
}
