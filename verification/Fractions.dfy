/** Go's guarded division of two counts, over exact reals. Confidences, similarities,
    success rates and retrieval scores are all such fractions: the code divides two whole
    numbers when the second is positive and reports 0 otherwise. What is needed of them is
    where a fraction lies relative to 0 and 1, and that more in the denominator gives less.
    Rounding to float64 is not modelled. */
module Fractions {

  /** part / whole, or 0 when there is nothing to divide by. */
  function Ratio(part: int, whole: int): real {
    if whole > 0 then part as real / whole as real else 0.0
  }

  lemma SignOfProduct(x: real, w: real)
    requires w > 0.0
    ensures x * w > 0.0 <==> x > 0.0
    ensures x * w == 0.0 <==> x == 0.0
  {
    if x < 0.0 {
      assert -x * w > 0.0;
    }
  }

  /** Where a quotient lies, read off its numerator. */
  lemma Quotient(p: real, w: real)
    requires w > 0.0
    ensures p / w * w == p
    ensures (p / w > 0.0 <==> p > 0.0) && (p / w == 0.0 <==> p == 0.0)
    ensures (p / w > 1.0 <==> p > w) && (p / w == 1.0 <==> p == w)
  {
    var q := p / w;
    assert q * w == p;
    assert (q - 1.0) * w == p - w;
    SignOfProduct(q, w);
    SignOfProduct(q - 1.0, w);
  }

  lemma RatioBounds(part: int, whole: int)
    requires whole > 0
    ensures Ratio(part, whole) * whole as real == part as real
    ensures (Ratio(part, whole) > 0.0 <==> part > 0) && (Ratio(part, whole) == 0.0 <==> part == 0)
    ensures (Ratio(part, whole) > 1.0 <==> part > whole) && (Ratio(part, whole) == 1.0 <==> part == whole)
  {
    Quotient(part as real, whole as real);
  }

  /** Dividing by more gives less. */
  lemma RatioOfMore(part: int, whole: int, more: int)
    requires 0 < part && 0 < whole <= more
    ensures Ratio(part, whole) == Ratio(part, more) <==> whole == more
  {
    RatioBounds(part, whole);
    RatioBounds(part, more);
    var q := Ratio(part, whole);
    SignOfProduct((more - whole) as real, q);
    assert q * more as real - q * whole as real == (more - whole) as real * q;
  }
}
