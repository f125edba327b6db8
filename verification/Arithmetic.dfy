/** Multiples, and how often one number goes into another. */
module Arithmetic {

  lemma {:induction false} TimesGrow(a: int, b: int, d: int)
    requires a <= b && d > 0
    ensures a * d <= b * d
    decreases b - a
  {
  }

  lemma {:induction false} TimesOneMore(n: int, d: int)
    ensures (n + 1) * d == n * d + d
  {
  }

  lemma {:induction false} DividesInto(k: int, d: int, w: int)
    requires d > 0 && k * d <= w
    ensures k <= w / d
  {
    var q := w / d;
    assert w == q * d + w % d;
    TimesOneMore(q, d);
    if k > q { TimesGrow(q + 1, k, d); }
  }
}
