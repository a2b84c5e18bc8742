/** Three facts about multiplying reals by a positive factor,
    which the solver does not find by itself inside larger proofs. */
module RealArith {

  lemma MulLeftMono(a: real, b: real, k: real)
    requires a <= b && 0.0 < k
    ensures a * k <= b * k
  {
  }

  lemma MulStrictMono(a: real, b: real, k: real)
    requires a < b && 0.0 < k
    ensures a * k < b * k
  {
  }

  /** A whole number `m` of steps `dx > 0` that is more than half a step
      above (below) zero is at least one step above (below) it. */
  lemma WholeSteps(d: real, m: int, dx: real)
    requires 0.0 < dx && d == m as real * dx
    ensures d > -0.5 * dx ==> m >= 0 && d >= 0.0
    ensures d < 0.5 * dx ==> m <= 0 && d <= 0.0
  {
    if m < 0 {
      MulLeftMono(m as real, -1.0, dx);
    } else if m > 0 {
      MulLeftMono(1.0, m as real, dx);
    } else {
      assert d == 0.0;
    }
  }
}
