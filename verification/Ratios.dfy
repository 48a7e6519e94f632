/** Facts about real division used by the score and metric proofs. */
module Ratios {

  /** Dividing by the same positive number keeps the order. */
  lemma DivideMonotone(a: real, b: real, d: real)
    requires a <= b && 0.0 < d
    ensures a / d <= b / d
  {
  }

  /** A part over the whole lies in [0, 1]. */
  lemma ShareInUnit(part: real, whole: real)
    requires 0.0 <= part <= whole && 0.0 < whole
    ensures 0.0 <= part / whole <= 1.0
  {
  }
}
