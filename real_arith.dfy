/** Facts about multiplying and dividing reals that the solver does not
    find on its own. */
module RealArith {

  lemma MulMonotone(x: real, y: real, m: real)
    requires x <= y && 0.0 <= m
    ensures x * m <= y * m
  {
    assert y * m - x * m == (y - x) * m;
  }

  lemma MulStrict(x: real, y: real, m: real)
    requires x < y && 0.0 < m
    ensures x * m < y * m
  {
    assert y * m - x * m == (y - x) * m;
  }

  lemma ScaleAtMost(d: real, t: real)
    requires 0.0 <= d && 0.0 <= t <= 1.0
    ensures 0.0 <= d * t <= d
    ensures t * d == d * t
  {
    assert d - d * t == d * (1.0 - t);
  }

  /** Dividing by a positive number keeps the order. */
  lemma DivMonotone(x: real, y: real, d: real)
    requires x <= y && 0.0 < d
    ensures x / d <= y / d
  {
    assert x / d * d == x && y / d * d == y;
  }

  /** A quotient of values bounded by `d` times `lo` and `hi` lies in
      [`lo`, `hi`]. */
  lemma DivBounds(s: real, d: real, lo: real, hi: real)
    requires 0.0 < d && d * lo <= s <= d * hi
    ensures lo <= s / d <= hi
  {
    assert s / d * d == s;
    assert d * lo == lo * d && d * hi == hi * d;
    if s / d < lo {
      MulStrict(s / d, lo, d);
    }
    if hi < s / d {
      MulStrict(hi, s / d, d);
    }
  }

  /** The same for a half-open range [`lo`, `hi`). */
  lemma DivBoundsHalfOpen(q: real, d: real, lo: real, hi: real)
    requires 0.0 < d && lo * d <= q < hi * d
    ensures lo <= q / d < hi
  {
    var x := q / d;
    assert x * d == q;
    if x < lo {
      MulStrict(x, lo, d);
    }
    if x >= hi {
      MulMonotone(hi, x, d);
    }
  }
}
