/** Amounts of money, their rounding to cents, and the few products and
    quotients the salary engine takes.

    The source rounds with `Math.round(x * 100) / 100`. `Math.round` rounds
    half toward +infinity, which over the reals is exactly
    `Floor(x * 100 + 1/2)`, negative arguments included.

    Every product or quotient of two variable amounts is behind a named
    function (PercentOf, Times, Mean, AsPercentOf), so that the facts about
    them are stated once, here, and elsewhere they are compared as terms. */
module Money {

  /** `x` is a whole number of cents. */
  predicate IsCents(x: real) {
    (x * 100.0).Floor as real == x * 100.0
  }

  function Max(a: real, b: real): (m: real) { if a >= b then a else b }
  function Min(a: real, b: real): (m: real) { if a <= b then a else b }

  /** Distance between two reals. */
  function Dist(a: real, b: real): (d: real) { if a >= b then a - b else b - a }

  /** `Math.round(x * 100) / 100`: the nearest cent, halves going up. */
  function RoundCents(x: real): (r: real)
    ensures IsCents(r)
    ensures x - 0.005 < r <= x + 0.005
    ensures x >= 0.0 ==> r >= 0.0
  {
    ((x * 100.0 + 0.5).Floor as real) / 100.0
  }

  /** `amount * rate / 100`: `rate` percent of `amount`. */
  function PercentOf(amount: real, rate: real): (part: real) {
    amount * rate / 100.0
  }

  /** `x * n`. */
  function Times(x: real, n: real): (product: real) {
    x * n
  }

  /** `total / count`. */
  function Mean(total: real, count: nat): (mean: real)
    requires count > 0
  {
    total / count as real
  }

  /** `part / whole * 100`: `part` as a percentage of `whole`. */
  function AsPercentOf(part: real, whole: real): (percent: real)
    requires whole != 0.0
  {
    part / whole * 100.0
  }

  // ---------------------------------------------------------------------
  // Rounding

  /** RoundCents is the only whole number of cents in (x - 1/200, x + 1/200]. */
  lemma RoundCentsUnique(x: real, c: real)
    requires IsCents(c) && x - 0.005 < c <= x + 0.005
    ensures c == RoundCents(x)
  {
    var k := (c * 100.0).Floor;
    var y := x * 100.0 + 0.5;
    assert k as real <= y < k as real + 1.0;
    assert y.Floor == k;
  }

  /** Rounding an amount that is already in cents changes nothing. */
  lemma RoundCentsOfCents(c: real)
    requires IsCents(c)
    ensures RoundCents(c) == c
  {
    RoundCentsUnique(c, c);
  }

  lemma RoundCentsIdempotent(x: real)
    ensures RoundCents(RoundCents(x)) == RoundCents(x)
  {
    RoundCentsOfCents(RoundCents(x));
  }

  lemma CentsClosedUnderSum(a: real, b: real)
    requires IsCents(a) && IsCents(b)
    ensures IsCents(a + b) && IsCents(a - b)
  {
    var ka, kb := (a * 100.0).Floor, (b * 100.0).Floor;
    assert a * 100.0 == ka as real && b * 100.0 == kb as real;
    var sum, difference := ka + kb, ka - kb;
    assert (a + b) * 100.0 == sum as real;
    assert (sum as real).Floor == sum;
    assert (a - b) * 100.0 == difference as real;
    assert (difference as real).Floor == difference;
  }

  /** Adding whole cents commutes with rounding. */
  lemma RoundCentsShift(x: real, c: real)
    requires IsCents(c)
    ensures RoundCents(x + c) == RoundCents(x) + c
  {
    CentsClosedUnderSum(RoundCents(x), c);
    RoundCentsUnique(x + c, RoundCents(x) + c);
  }

  /** Subtracting whole cents before rounding is the same as after. */
  lemma RoundCentsMinusCents(x: real, c: real)
    requires IsCents(c)
    ensures RoundCents(x - c) == RoundCents(x) - c
  {
    CentsClosedUnderSum(0.0, c);
    RoundCentsShift(x, 0.0 - c);
  }

  /** Summing three amounts in cents and rounding again is exact. */
  lemma RoundCentsOfSum(a: real, b: real, c: real)
    requires IsCents(a) && IsCents(b) && IsCents(c)
    ensures IsCents(a + b + c) && RoundCents(a + b + c) == a + b + c
  {
    CentsClosedUnderSum(a, b);
    CentsClosedUnderSum(a + b, c);
    RoundCentsOfCents(a + b + c);
  }

  lemma RoundCentsMonotone(x: real, y: real)
    requires x <= y
    ensures RoundCents(x) <= RoundCents(y)
  {
    assert (x * 100.0 + 0.5).Floor <= (y * 100.0 + 0.5).Floor;
  }

  /** Three shares of an amount that add up to at most the amount, each
      rounded to cents, exceed the rounded amount by one cent at most. */
  lemma ShortfallAtMostOneCent(g: real, x: real, y: real, z: real)
    requires x + y + z <= g
    ensures RoundCents(g) - (RoundCents(x) + RoundCents(y) + RoundCents(z)) >= -0.01
  {
    var total := RoundCents(x) + RoundCents(y) + RoundCents(z);
    var diff := RoundCents(g) - total;
    assert diff > -0.02;
    RoundCentsOfSum(RoundCents(x), RoundCents(y), RoundCents(z));
    CentsClosedUnderSum(RoundCents(g), total);
    assert (diff * 100.0).Floor as real == diff * 100.0;
  }

  // ---------------------------------------------------------------------
  // Products and quotients

  /** Taking `rate` percent of a non-negative amount gives at most the amount. */
  lemma PercentOfBound(amount: real, rate: real)
    requires amount >= 0.0 && 0.0 <= rate <= 100.0
    ensures 0.0 <= PercentOf(amount, rate) <= amount
  {
    assert amount * (100.0 - rate) >= 0.0;
  }

  /** Percentages of one amount add up. */
  lemma PercentOfSum(amount: real, a: real, b: real, c: real)
    ensures PercentOf(amount, a) + PercentOf(amount, b) + PercentOf(amount, c) == PercentOf(amount, a + b + c)
  {
  }

  /** Three percentages of one amount adding up to at most 100, each rounded
      to cents, exceed the rounded amount by one cent at most. */
  lemma RatesShortfallAtMostOneCent(g: real, t: real, r: real, i: real)
    requires g >= 0.0 && t >= 0.0 && r >= 0.0 && i >= 0.0 && t + r + i <= 100.0
    ensures RoundCents(g) - (RoundCents(PercentOf(g, t)) + RoundCents(PercentOf(g, r)) + RoundCents(PercentOf(g, i))) >= -0.01
  {
    PercentOfSum(g, t, r, i);
    PercentOfBound(g, t + r + i);
    ShortfallAtMostOneCent(g, PercentOf(g, t), PercentOf(g, r), PercentOf(g, i));
  }

  /** The bound above is reached: one cent at rates 50, 50 and 0 rounds to
      deductions of two cents, so the gross minus the deductions is -0.01. */
  lemma ShortfallOfOneCentIsReached()
    ensures RoundCents(0.01) - (RoundCents(PercentOf(0.01, 50.0)) + RoundCents(PercentOf(0.01, 50.0)) + RoundCents(PercentOf(0.01, 0.0))) == -0.01
  {
    assert PercentOf(0.01, 50.0) == 0.005;
    assert PercentOf(0.01, 0.0) == 0.0;
    RoundCentsUnique(0.005, 0.01);
    RoundCentsUnique(0.0, 0.0);
    RoundCentsUnique(0.01, 0.01);
  }

  lemma TimesNonNegative(x: real, n: real)
    requires x >= 0.0 && n >= 0.0
    ensures Times(x, n) >= 0.0
  {
  }

  /** A whole number of cents taken a whole number of times is whole cents. */
  lemma CentsTimesNat(c: real, n: nat)
    requires IsCents(c)
    ensures IsCents(Times(c, n as real))
  {
    var k := (c * 100.0).Floor;
    assert c * 100.0 == k as real;
    calc {
      Times(c, n as real) * 100.0;
      (c * 100.0) * n as real;
      (k as real) * (n as real);
      (k * n) as real;
    }
    assert ((k * n) as real).Floor == k * n;
  }

  lemma TimesZero(x: real)
    ensures Times(0.0, x) == 0.0
  {
  }

  lemma TimesSucc(n: real, x: real)
    ensures Times(n + 1.0, x) == Times(n, x) + x
  {
  }

  /** A mean lies between the bounds of what was summed. */
  lemma MeanBetween(total: real, count: nat, lo: real, hi: real)
    requires count > 0
    requires Times(count as real, lo) <= total <= Times(count as real, hi)
    ensures lo <= Mean(total, count) <= hi
  {
    var n := count as real;
    var q := total / n;
    assert q * n == total;
    if q < lo { assert q * n < lo * n; }
    if q > hi { assert q * n > hi * n; }
  }

  /** A share of a positive whole, as a percentage, lies in [0, 100]. */
  lemma AsPercentOfBetween(part: real, whole: real)
    requires whole > 0.0 && 0.0 <= part <= whole
    ensures 0.0 <= AsPercentOf(part, whole) <= 100.0
  {
    var q := part / whole;
    assert q * whole == part;
  }

  lemma AsPercentOfNonNegative(part: real, whole: real)
    requires part >= 0.0 && whole > 0.0
    ensures AsPercentOf(part, whole) >= 0.0
  {
    var q := part / whole;
    assert q * whole == part;
  }
}
