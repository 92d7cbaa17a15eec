/** Products behind a name, so that proofs reason about them through these facts only. */
module Reals {

  function Times(x: real, y: real): real {
    x * y
  }

  lemma TimesDistributes(x: real, a: real, b: real)
    ensures Times(x, a) + Times(x, b) == Times(x, a + b)
    ensures Times(a, x) + Times(b, x) == Times(a + b, x)
  {
  }

  lemma TimesIsNonNegative(x: real, y: real)
    requires x >= 0.0 && y >= 0.0
    ensures Times(x, y) >= 0.0
    ensures x > 0.0 && y > 0.0 ==> Times(x, y) > 0.0
  {
  }

  lemma TimesOrder(width: real, f1: real, f2: real)
    requires f1 <= f2
    ensures width >= 0.0 ==> Times(width, f1) <= Times(width, f2)
    ensures width < 0.0 && f1 < f2 ==> Times(width, f1) > Times(width, f2)
    ensures width > 0.0 && f1 < f2 ==> Times(width, f1) < Times(width, f2)
  {
  }

  lemma FractionBack(width: real, x: real, span: real)
    requires span != 0.0
    ensures Times(Times(width, x / span), span) == Times(width, x)
  {
    var f := x / span;
    assert f * span == x;
    Regroup(width, f, span);
  }

  lemma Regroup(a: real, b: real, c: real)
    ensures Times(Times(a, b), c) == Times(a, Times(b, c))
  {
  }

  lemma TimesCancels(x: real, y: real, span: real)
    requires span > 0.0 && Times(x, span) == Times(y, span)
    ensures x == y
  {
    TimesOrder(span, if x < y then x else y, if x < y then y else x);
  }

  lemma FractionOrder(x1: real, x2: real, span: real)
    requires span > 0.0
    ensures x1 <= x2 ==> x1 / span <= x2 / span
    ensures x1 < x2 ==> x1 / span < x2 / span
  {
  }
}
