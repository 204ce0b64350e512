/**
 * Numeric primitives the sampler relies on.
 *
 * Samples and gains are modelled as `real`. The transcendental functions the
 * sampler calls (`log2`, `pow`, `sqrt` and the decibel-to-gain conversion) are
 * not definable here, so they are passed around as a `MathLib` value whose
 * functions are unknown except for the few laws collected in `Lawful`.
 */
module Numerics {

  /** The transcendental functions used by the sampler, supplied from outside. */
  datatype MathLib = MathLib(
    log2: real -> real,
    pow: (real, real) -> real,
    sqrt: real -> real,
    decibelsToGain: real -> real)

  // The four operations, applied through functions so that methods and
  // functions see the same heap-independent terms.

  function Log2(m: MathLib, x: real): real { m.log2(x) }

  function Pow(m: MathLib, base: real, exponent: real): real { m.pow(base, exponent) }

  function Sqrt(m: MathLib, x: real): real { m.sqrt(x) }

  function DecibelsToGain(m: MathLib, db: real): real { m.decibelsToGain(db) }

  /** The only facts about `MathLib` the model depends on. */
  ghost predicate Lawful(m: MathLib)
  {
    && Log2(m, 1.0) == 0.0
    && Log2(m, 2.0) == 1.0
    && Pow(m, 2.0, 0.0) == 1.0
    && Pow(m, 2.0, 1.0) == 2.0
    && (forall x: real :: Pow(m, 2.0, x) > 0.0)
    && (forall x: real :: x <= 0.0 ==> Pow(m, 2.0, x) <= 1.0)
    && Sqrt(m, 0.0) == 0.0
    && (forall x: real :: x > 0.0 ==> Sqrt(m, x) > 0.0)
    && (forall db: real :: DecibelsToGain(m, db) >= 0.0)
  }

  function Abs(x: real): (r: real)
    ensures r >= 0.0
    ensures r == x || r == -x
  {
    if x < 0.0 then -x else x
  }

  /** C++ `(int)x` on a floating-point value: truncation toward zero. */
  function Trunc(x: real): (r: int)
    ensures x >= 0.0 ==> 0 <= r && r as real <= x < r as real + 1.0
    ensures x < 0.0 ==> r <= 0 && r as real - 1.0 < x <= r as real
  {
    if x >= 0.0 then x.Floor else -((-x).Floor)
  }

  /** `juce::jlimit(lower, upper, v)`: `v` clamped into `[lower, upper]`. */
  function Clamp(lower: int, upper: int, v: int): (r: int)
    requires lower <= upper
    ensures lower <= r <= upper
    ensures lower <= v <= upper ==> r == v
    ensures v < lower ==> r == lower
    ensures v > upper ==> r == upper
  {
    if v < lower then lower else if upper < v then upper else v
  }
}
