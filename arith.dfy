/** Integer and real arithmetic facts that the solver does not find unaided. */
module Arith {

  /** Euclidean division by `w` has one answer: any quotient and remainder
      that rebuild `o` are the ones `/` and `%` give. */
  lemma DivModUnique(o: int, w: int, q: int, r: int)
    requires w > 0 && 0 <= r < w && o == q * w + r
    ensures o / w == q && o % w == r
  {
    var q', r' := o / w, o % w;
    assert (q - q') * w == r' - r;
    SmallMultiple(q - q', w);
  }

  /** The only multiple of w strictly between -w and w is zero. */
  lemma SmallMultiple(d: int, w: int)
    requires w > 0 && -w < d * w < w
    ensures d == 0
  {
    assert d > 0 ==> (d - 1) * w >= 0;
    assert d < 0 ==> (-d - 1) * w >= 0;
  }

  /** A product of non-negative reals is non-negative. */
  lemma MulNonNegative(a: real, b: real)
    requires a >= 0.0 && b >= 0.0
    ensures a * b >= 0.0
  {
  }

  /** Scaling a value in [0, 1] by a non-negative amplitude keeps it in
      [0, amplitude]. */
  lemma ScaleUnit(a: real, x: real)
    requires a >= 0.0 && 0.0 <= x <= 1.0
    ensures 0.0 <= a * x <= a
  {
    MulNonNegative(a, x);
    MulNonNegative(a, 1.0 - x);
  }

  /** A multiple of p below m * p is at most (m - 1) * p. */
  lemma MultipleBelow(q: int, m: int, p: int)
    requires p >= 1 && q * p < m * p
    ensures q < m && (q + 1) * p <= m * p
  {
    assert q >= m ==> (q - m) * p >= 0;
    assert q < m ==> (m - q - 1) * p >= 0;
  }

  /** Adding a[x] with x in [0, 1] to a running total in [0, t] gives a total
      in [0, t + a]. */
  lemma AccumulateUnit(total: real, t: real, a: real, x: real)
    requires 0.0 <= total <= t && a >= 0.0 && 0.0 <= x <= 1.0
    ensures 0.0 <= total + a * x <= t + a
  {
    ScaleUnit(a, x);
  }

  /** A value between 0 and a positive t, divided by t, lies in [0, 1]. */
  lemma DivUnit(a: real, t: real)
    requires t > 0.0 && 0.0 <= a <= t
    ensures 0.0 <= a / t <= 1.0
  {
    var q := a / t;
    assert q * t == a;
    assert q > 1.0 ==> (q - 1.0) * t > 0.0;
    assert q < 0.0 ==> (0.0 - q) * t > 0.0;
  }
}
