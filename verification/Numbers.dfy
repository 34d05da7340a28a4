/** The JavaScript number operations that the engine uses, over exact `int` and `real`. */
module Numbers {
  function Min(a: int, b: int): int { if a <= b then a else b }

  function Max(a: int, b: int): int { if a >= b then a else b }

  function Abs(a: int): int { if a < 0 then -a else a }

  function RealMin(a: real, b: real): real { if a <= b then a else b }

  function RealMax(a: real, b: real): real { if a >= b then a else b }

  function RealAbs(a: real): real { if a < 0.0 then -a else a }

  /** `Math.round`: ties go up, also for negative arguments. */
  function Round(x: real): int { (x + 0.5).Floor }

  /** `Math.ceil`. */
  function Ceil(x: real): int { -((-x).Floor) }

  /** `Math.round` never reorders its arguments and leaves an integer bound where it is. */
  lemma RoundMonotone(x: real, y: real)
    requires x <= y
    ensures Round(x) <= Round(y)
  {
  }

  lemma RoundOfInt(n: int)
    ensures Round(n as real) == n
  {
  }

  /** A non-negative factor keeps the order of two reals. */
  lemma MulMonotone(x: real, y: real, k: real)
    requires x <= y && 0.0 <= k
    ensures x * k <= y * k
  {
  }

  lemma DivMonotone(x: real, y: real, k: real)
    requires x <= y && 0.0 < k
    ensures x / k <= y / k
  {
  }

  lemma DivUpper(x: real, k: real, bound: real)
    requires 0.0 < k && x <= bound * k
    ensures x / k <= bound
  {
  }
}
