/** Rounding of exact values to a fixed scale, half away from zero, as SQL `ROUND` and the
    assignment to a `NUMERIC(p, s)` column do it.  Values are counted in units of the last place. */
module Decimals {

  function Round(x: real): int {
    if x >= 0.0 then (x + 0.5).Floor else -((0.5 - x).Floor)
  }

  function Abs(x: real): real {
    if x >= 0.0 then x else -x
  }

  lemma RoundError(x: real)
    ensures Abs(Round(x) as real - x) <= 0.5
  {
  }

  /** Rounding gives the nearest whole number. */
  lemma RoundIsNearest(x: real, n: int)
    requires Abs(n as real - x) < 0.5
    ensures Round(x) == n
  {
  }

  /** Halfway between two it goes away from zero, on both sides. */
  lemma HalvesGoAway(n: nat)
    ensures Round(n as real + 0.5) == n + 1 && Round(-(n as real + 0.5)) == -(n + 1)
  {
  }
}
