/** Small facts about division used by the counting laws. */
module Arithmetic {

  lemma {:induction false} SmallMultiple(d: int, a: int)
    requires a > 0
    ensures d >= 1 ==> d * a >= a
    ensures d <= -1 ==> d * a <= -a
  {
  }

  lemma {:induction false} DivModUnique(x: int, a: int, q: int, r: int)
    requires a > 0 && x == q * a + r && 0 <= r < a
    ensures x / a == q && x % a == r
  {
    var d := x / a - q;
    assert d * a == r - x % a;
    SmallMultiple(d, a);
  }

  lemma {:induction false} Succ(k: nat, a: nat)
    requires a > 0
    ensures k % a == a - 1 ==> (k + 1) % a == 0 && (k + 1) / a == k / a + 1
    ensures k % a != a - 1 ==> (k + 1) % a == k % a + 1 && (k + 1) / a == k / a
  {
    if k % a == a - 1 {
      DivModUnique(k + 1, a, k / a + 1, 0);
    } else {
      DivModUnique(k + 1, a, k / a, k % a + 1);
    }
  }

  /** A product bounded by `t` bounds its factor by a quotient. */
  lemma {:induction false} FactorBound(k: int, a: int, t: int)
    requires a > 0 && k * a <= t
    ensures k <= t / a
  {
    assert (k - t / a) * a <= t % a;
    SmallMultiple(k - t / a, a);
  }

  lemma {:induction false} MulNonNegative(d: int, a: int)
    requires d >= 0 && a >= 0
    ensures d * a >= 0
  {
  }

  /** `a * (s / a + 1)` is the first multiple of `a` above `s`. */
  lemma {:induction false} FirstMultipleAbove(a: int, s: int, k: int)
    requires a > 0 && s >= 0
    ensures var q := a * (s / a + 1);
            && q > s && q >= a && q % a == 0
            && (k % a == 0 && k > s ==> k >= q)
  {
    var d, m := s / a, k / a;
    MulNonNegative(d, a);
    DivModUnique(a * (d + 1), a, d + 1, 0);
    if k % a == 0 && k > s {
      if m <= d {
        MulNonNegative(d - m, a);
        assert false;
      }
      MulNonNegative(m - (d + 1), a);
    }
  }

  /** A larger divisor gives no larger quotient. */
  lemma {:induction false} QuotientShrinks(t: int, a: int, b: int)
    requires t >= 0 && 0 < a <= b
    ensures 0 <= t / b <= t / a
  {
    FactorBound(0, b, t);
    MulNonNegative(t / b, b - a);
    FactorBound(t / b, a, t);
  }
}
