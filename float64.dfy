/**
 * JavaScript numbers as IEEE 754 binary64 bit patterns.  The two comparisons
 * the calculator makes on numbers (`b === 0` and `a < 0`) are defined here on
 * the bits; the arithmetic, `parseFloat` and `toString` are supplied by the
 * host as a `Host` value.
 */
module Float64 {
  import opened Strings

  const SignBit: int := 0x8000_0000_0000_0000
  const FractionSpan: int := 0x10_0000_0000_0000

  newtype Bits = x: int | 0 <= x < 0x1_0000_0000_0000_0000

  const PositiveZero: Bits := 0
  const NegativeZero: Bits := 0x8000_0000_0000_0000
  const NegativeInfinity: Bits := 0xFFF0_0000_0000_0000
  const CanonicalNaN: Bits := 0x7FF8_0000_0000_0000

  function ExponentField(x: Bits): int {
    (x as int % SignBit) / FractionSpan
  }

  function FractionField(x: Bits): int {
    x as int % FractionSpan
  }

  predicate IsNaN(x: Bits) {
    ExponentField(x) == 0x7FF && FractionField(x) != 0
  }

  /** `x === 0`: true of both zeros, false of NaN. */
  predicate IsZero(x: Bits) {
    x as int % SignBit == 0
  }

  /** `x < 0`: the sign bit is set and `x` is neither a zero nor NaN. */
  predicate IsNegative(x: Bits) {
    x as int >= SignBit && !IsZero(x) && !IsNaN(x)
  }

  /** The text `Number.prototype.toString` produces: never empty, never two points. */
  type NumberText = s: string | s != "" && Dots(s) <= 1 witness "0"

  /** The host's numeric library, which the model does not interpret. */
  datatype Host = Host(
    parseFloat: string -> Bits,
    toString: Bits -> NumberText,
    plus: (Bits, Bits) -> Bits,
    minus: (Bits, Bits) -> Bits,
    times: (Bits, Bits) -> Bits,
    quotient: (Bits, Bits) -> Bits,
    pow: (Bits, Bits) -> Bits,
    squareRoot: Bits -> Bits)

  /** Strict equality with 0 holds of exactly two bit patterns. */
  lemma ZeroPatterns(x: Bits)
    ensures IsZero(x) <==> x == PositiveZero || x == NegativeZero
  {
    if x as int < SignBit {
      assert x as int % SignBit == x as int;
    } else {
      assert x as int % SignBit == x as int - SignBit;
    }
  }

  /** NaN is neither equal to 0 nor below it, and negative infinity is below 0. */
  lemma ComparisonCorners()
    ensures IsNaN(CanonicalNaN) && !IsZero(CanonicalNaN) && !IsNegative(CanonicalNaN)
    ensures !IsNegative(NegativeZero) && !IsNegative(PositiveZero)
    ensures IsNegative(NegativeInfinity)
  {
    assert ExponentField(CanonicalNaN) == 0x7FF;
    assert FractionField(CanonicalNaN) == 0x8_0000_0000_0000;
    assert ExponentField(NegativeInfinity) == 0x7FF;
    assert FractionField(NegativeInfinity) == 0;
  }

  /** Minus four, as the bits of -4.0. */
  const MinusFour: Bits := 0xC010_0000_0000_0000

  /** Every NaN, whatever its sign bit, is neither equal to 0 nor below it. */
  lemma NaNIsUnordered(x: Bits)
    requires IsNaN(x)
    ensures !IsZero(x) && !IsNegative(x)
  {
  }

  /** Every value with its sign bit set and a finite exponent, other than -0, is below 0. */
  lemma FiniteNegatives(x: Bits)
    requires x as int >= SignBit && ExponentField(x) < 0x7FF && !IsZero(x)
    ensures IsNegative(x)
  {
  }

  lemma MinusFourIsNegative()
    ensures IsNegative(MinusFour)
  {
    assert ExponentField(MinusFour) == 0x401;
    FiniteNegatives(MinusFour);
  }
}
