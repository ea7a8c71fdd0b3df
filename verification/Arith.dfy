/** The few facts about products and floor division that the clock and the yield formula need. */
module Arith {

  lemma {:induction false} MulNonneg(k: int, d: int)
    requires k >= 0 && d >= 0
    ensures k * d >= 0
  {
  }

  lemma {:induction false} Scale(x: int, y: int, d: int)
    requires d > 0 && x < y
    ensures x * d + d <= y * d
  {
    var k := y - x - 1;
    MulNonneg(k, d);
    assert y * d == (x + 1 + k) * d == x * d + d + k * d;
  }

  lemma {:induction false} DivMod(a: int, d: int)
    requires d > 0
    ensures a == (a / d) * d + a % d && 0 <= a % d < d
  {
  }

  lemma {:induction false} QuotientUnique(a: int, d: int, q: int, r: int)
    requires d > 0 && a == q * d + r && 0 <= r < d
    ensures a / d == q
  {
    DivMod(a, d);
    var p := a / d;
    if p < q { Scale(p, q, d); } else if q < p { Scale(q, p, d); }
  }

  lemma {:induction false} FloorMonotone(a: int, b: int, d: int)
    requires d > 0 && a <= b
    ensures a / d <= b / d
  {
    DivMod(a, d);
    DivMod(b, d);
    if b / d < a / d { Scale(b / d, a / d, d); }
  }

  /** Flooring two parts loses at most one unit against flooring their sum. */
  lemma {:induction false} FloorSplit(a: int, b: int, d: int)
    requires d > 0
    ensures a / d + b / d <= (a + b) / d <= a / d + b / d + 1
  {
    DivMod(a, d);
    DivMod(b, d);
    var q, r := a / d + b / d, a % d + b % d;
    assert (a / d) * d + (b / d) * d == q * d;
    if r < d {
      QuotientUnique(a + b, d, q, r);
    } else {
      assert (q + 1) * d == q * d + d;
      QuotientUnique(a + b, d, q + 1, r - d);
    }
  }
}
