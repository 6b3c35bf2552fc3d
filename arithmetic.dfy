/** The arithmetic primitives of calculator.ts; `divide` and `sqrt` throw, here they fail. */
module Arithmetic {
  import opened Wrappers
  import opened Float64

  datatype Error = DivisionByZero | NegativeRadicand

  function Add(h: Host, a: Bits, b: Bits): Bits { h.plus(a, b) }

  function Subtract(h: Host, a: Bits, b: Bits): Bits { h.minus(a, b) }

  function Multiply(h: Host, a: Bits, b: Bits): Bits { h.times(a, b) }

  function Power(h: Host, a: Bits, b: Bits): Bits { h.pow(a, b) }

  function Divide(h: Host, a: Bits, b: Bits): (r: Result<Bits, Error>)
    ensures r.Failure? <==> IsZero(b)
    ensures r.Failure? ==> r.error == DivisionByZero
    ensures r.Success? ==> r.value == h.quotient(a, b)
  {
    if IsZero(b) then Failure(DivisionByZero) else Success(h.quotient(a, b))
  }

  function Sqrt(h: Host, a: Bits): (r: Result<Bits, Error>)
    ensures r.Failure? <==> IsNegative(a)
    ensures r.Failure? ==> r.error == NegativeRadicand
    ensures r.Success? ==> r.value == h.squareRoot(a)
  {
    if IsNegative(a) then Failure(NegativeRadicand) else Success(h.squareRoot(a))
  }

  /** Division fails on +0 and -0 and on nothing else (not on NaN). */
  lemma DivideFailsExactlyOnZeros(h: Host, a: Bits, b: Bits)
    ensures Divide(h, a, b).Failure? <==> b == PositiveZero || b == NegativeZero
    ensures Divide(h, a, CanonicalNaN).Success?
  {
    ZeroPatterns(b);
    ComparisonCorners();
  }

  /** The square root rejects negative infinity, and accepts both zeros, NaN and every value with a clear sign bit. */
  lemma SqrtDomain(h: Host, a: Bits)
    ensures Sqrt(h, NegativeInfinity) == Failure(NegativeRadicand)
    ensures Sqrt(h, NegativeZero).Success? && Sqrt(h, PositiveZero).Success?
    ensures Sqrt(h, CanonicalNaN).Success?
    ensures a as int < SignBit ==> Sqrt(h, a).Success?
    ensures IsNaN(a) ==> Sqrt(h, a).Success?
    ensures Sqrt(h, MinusFour) == Failure(NegativeRadicand)
  {
    ComparisonCorners();
    MinusFourIsNegative();
    if IsNaN(a) {
      NaNIsUnordered(a);
    }
  }
}
