/** Exact non-negative fractions, standing for the floats the search service
    computes (`len(a) / len(b)`); they are compared by cross-multiplication. */
module Ratios {

  datatype Fraction = Fraction(num: nat, den: nat)

  type Ratio = f: Fraction | f.den > 0 witness Fraction(0, 1)

  const Zero: Ratio := Fraction(0, 1)

  predicate Le(a: Ratio, b: Ratio)
  {
    a.num * b.den <= b.num * a.den
  }

  predicate Same(a: Ratio, b: Ratio)
  {
    a.num * b.den == b.num * a.den
  }

  /** The value is 1. */
  predicate IsOne(a: Ratio)
  {
    a.num == a.den
  }

  lemma MulLe(x: nat, y: nat, z: nat)
    requires x <= y
    ensures x * z <= y * z
  {
  }

  lemma MulCancel(x: nat, y: nat, z: nat)
    requires z > 0 && x * z <= y * z
    ensures x <= y
  {
  }

  lemma {:induction false} LeTransitive(a: Ratio, b: Ratio, c: Ratio)
    requires Le(a, b) && Le(b, c)
    ensures Le(a, c)
  {
    MulLe(a.num * b.den, b.num * a.den, c.den);
    MulLe(b.num * c.den, c.num * b.den, a.den);
    assert a.num * b.den * c.den <= b.num * a.den * c.den;
    assert b.num * c.den * a.den <= c.num * b.den * a.den;
    assert (a.num * c.den) * b.den <= (c.num * a.den) * b.den;
    MulCancel(a.num * c.den, c.num * a.den, b.den);
  }

  lemma {:induction false} LeTotal(a: Ratio, b: Ratio)
    ensures Le(a, b) || Le(b, a)
  {
  }

  /** A value strictly above one that equals `k` does not equal `k`. */
  lemma {:induction false} AboveSameIsNotSame(a: Ratio, h: Ratio, k: Ratio)
    requires !Le(a, h) && Same(h, k)
    ensures !Same(a, k)
  {
    MulLe(h.num * a.den, a.num * h.den, k.den);
    assert h.num * a.den * k.den < a.num * h.den * k.den;
    assert h.num * k.den * a.den == k.num * h.den * a.den;
  }
}
