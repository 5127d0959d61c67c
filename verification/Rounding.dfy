/** general_helpers.go: rounding half away from zero to RoundingPrecision = 1e6. */
module Rounding {
  const RoundingPrecision: real := 1000000.0

  /** Half of the last kept decimal. */
  const HalfUnit: real := 0.0000005

  function RoundHalfAway(x: real): int
  {
    if x >= 0.0 then (x + 0.5).Floor else -((-x + 0.5).Floor)
  }

  function Round(value: real): real
  {
    RoundHalfAway(value * RoundingPrecision) as real / RoundingPrecision
  }

  function Abs(x: real): real
  {
    if x >= 0.0 then x else -x
  }

  /** The result is the nearest multiple of 1e-6: no other multiple is closer. */
  lemma RoundNearest(value: real, k: int)
    ensures Abs(Round(value) - value) <= HalfUnit
    ensures Abs(Round(value) - value) <= Abs(k as real / RoundingPrecision - value)
  {
    var x := value * RoundingPrecision;
    var n := RoundHalfAway(x);
    assert Abs(n as real - x) <= 0.5;
    assert Abs(n as real - x) <= Abs(k as real - x) by {
      if k < n { assert k as real <= n as real - 1.0; }
      if k > n { assert k as real >= n as real + 1.0; }
    }
    assert Round(value) - value == (n as real - x) / RoundingPrecision;
    assert k as real / RoundingPrecision - value == (k as real - x) / RoundingPrecision;
  }

  lemma RoundError(value: real)
    ensures Abs(Round(value) - value) <= HalfUnit
  {
    RoundNearest(value, 0);
  }

  lemma RoundNonNegative(value: real)
    requires value >= 0.0
    ensures Round(value) >= 0.0
  {
    assert value * RoundingPrecision >= 0.0;
  }

  /** Of two nearest multiples it is the one further from zero. */
  lemma RoundAway(value: real)
    requires Abs(Round(value) - value) == HalfUnit
    ensures Abs(Round(value)) > Abs(value)
  {
    var x := value * RoundingPrecision;
    var n := RoundHalfAway(x) as real;
    assert Round(value) - value == (n - x) / RoundingPrecision;
    assert Abs(n - x) == 0.5;
    assert if x >= 0.0 then n == x + 0.5 else n == x - 0.5;
    assert value == x / RoundingPrecision;
  }
}
