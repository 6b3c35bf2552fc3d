/** Small facts about the display strings the calculator builds. */
module Strings {

  /** The number of decimal points in `s`. */
  function Dots(s: string): nat {
    if s == [] then 0 else (if s[0] == '.' then 1 else 0) + Dots(s[1..])
  }

  lemma {:induction false} DotsAppend(a: string, b: string)
    ensures Dots(a + b) == Dots(a) + Dots(b)
  {
    if a == [] {
      assert a + b == b;
    } else {
      assert (a + b)[0] == a[0];
      assert (a + b)[1..] == a[1..] + b;
      DotsAppend(a[1..], b);
    }
  }

  /** `Dots` counts exactly the points that `includes(".")` finds. */
  lemma {:induction false} DotsZeroIffNoPoint(s: string)
    ensures Dots(s) == 0 <==> '.' !in s
  {
    if s != [] {
      assert s == [s[0]] + s[1..];
      DotsZeroIffNoPoint(s[1..]);
    }
  }

  /** A one-character string holding a decimal digit: the `data-number` of a digit button. */
  predicate IsDigit(d: string) {
    |d| == 1 && '0' <= d[0] <= '9'
  }

  /** `ds` with its leading '0' characters removed. */
  function StripLeadingZeros(ds: string): (r: string)
    ensures |r| <= |ds| && r == ds[|ds| - |r|..]
    ensures r == [] || r[0] != '0'
    ensures forall i :: 0 <= i < |ds| - |r| ==> ds[i] == '0'
  {
    if ds != [] && ds[0] == '0' then StripLeadingZeros(ds[1..]) else ds
  }
}
