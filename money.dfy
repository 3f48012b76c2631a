/** Currency rounding as the controller writes it: `Math.round(x * 100) / 100`. */
module Money {

  /** True when `x` is a whole number of cents. */
  predicate IsCents(x: real) {
    (x * 100.0).Floor as real == x * 100.0
  }

  /**
   * `Math.round(x * 100) / 100`. JavaScript's `Math.round` rounds halves toward
   * positive infinity, i.e. it is `floor(v + 1/2)`. The contract pins the result
   * down completely: the unique whole number of cents in the half-open interval
   * (x - 0.005, x + 0.005].
   */
  function Round2(x: real): (r: real)
    ensures IsCents(r)
    ensures x - 0.005 < r <= x + 0.005
    ensures x >= 0.0 ==> r >= 0.0
  {
    var k := (x * 100.0 + 0.5).Floor;
    assert (k as real) * 100.0 / 100.0 == k as real;
    (k as real) / 100.0
  }

  /** Two amounts of whole cents within the same half-cent window are equal. */
  lemma CentsWindowUnique(x: real, a: real, b: real)
    requires IsCents(a) && IsCents(b)
    requires x - 0.005 < a <= x + 0.005
    requires x - 0.005 < b <= x + 0.005
    ensures a == b
  {
    var ka := (a * 100.0).Floor;
    var kb := (b * 100.0).Floor;
    assert ka as real == a * 100.0;
    assert kb as real == b * 100.0;
    assert -1.0 < (ka - kb) as real < 1.0;
  }

  /** Two amounts in whole cents add up to whole cents. */
  lemma CentsAdd(a: real, b: real)
    requires IsCents(a) && IsCents(b)
    ensures IsCents(a + b)
  {
    var ka := (a * 100.0).Floor;
    var kb := (b * 100.0).Floor;
    assert a * 100.0 == ka as real && b * 100.0 == kb as real;
    var k := ka + kb;
    assert (a + b) * 100.0 == k as real;
    assert ((a + b) * 100.0).Floor == k;
  }

  /** An amount that is already in cents is left alone. */
  lemma {:induction false} Round2OfCents(x: real)
    requires IsCents(x)
    ensures Round2(x) == x
  {
    CentsWindowUnique(x, Round2(x), x);
  }

  /** Rounding twice is rounding once. */
  lemma Round2Idempotent(x: real)
    ensures Round2(Round2(x)) == Round2(x)
  {
    Round2OfCents(Round2(x));
  }

  /** Adding whole cents commutes with rounding: the stored cost basis moves by exactly the rounded trade. */
  lemma Round2ShiftByCents(c: real, x: real)
    requires IsCents(c)
    ensures Round2(c + x) == c + Round2(x)
  {
    var kc := (c * 100.0).Floor;
    var kx := (Round2(x) * 100.0).Floor;
    assert kc as real == c * 100.0;
    assert kx as real == Round2(x) * 100.0;
    var s := c + Round2(x);
    assert s * 100.0 == (kc + kx) as real;
    assert (s * 100.0).Floor == kc + kx;
    assert IsCents(s);
    CentsWindowUnique(c + x, Round2(c + x), s);
  }

  /** Rounding never reverses the order of two amounts. */
  lemma Round2Monotone(x: real, y: real)
    requires x <= y
    ensures Round2(x) <= Round2(y)
  {
    var kx := (x * 100.0 + 0.5).Floor;
    var ky := (y * 100.0 + 0.5).Floor;
    assert kx as real <= x * 100.0 + 0.5;
    assert y * 100.0 + 0.5 < ky as real + 1.0;
    assert kx < ky + 1;
    assert Round2(x) == kx as real / 100.0;
    assert Round2(y) == ky as real / 100.0;
  }
}
