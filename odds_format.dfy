/** Decimal odds from a probability: the inner helper to_odd (app.py:23-25). */
module OddsFormat {
  import opened Wrappers

  /**
   * Python's round(x, 2) on the exact value: the nearest multiple of 0.01,
   * ties to the even multiple.
   */
  function Round2(x: real): (r: real)
    ensures -0.005 <= r - x <= 0.005
    ensures (r * 100.0).Floor as real == r * 100.0
    ensures x >= 1.0 ==> r >= 1.0
  {
    var n := (x * 100.0).Floor;
    var frac := x * 100.0 - n as real;
    var k := if frac > 0.5 then n + 1 else if frac < 0.5 then n else if n % 2 == 0 then n else n + 1;
    assert x >= 1.0 ==> n >= 100;
    assert (k as real / 100.0) * 100.0 == k as real;
    k as real / 100.0
  }

  /** to_odd(p): None for a non-positive probability, else 1/p rounded to two decimals. */
  function ToOdd(p: real): (odd: Option<real>)
    ensures odd.None? <==> p <= 0.0
    ensures odd.Some? ==> -0.005 <= odd.value - 1.0 / p <= 0.005
    ensures 0.0 < p <= 1.0 ==> odd.Some? && odd.value >= 1.0
  {
    if p > 0.0 then
      assert p <= 1.0 ==> 1.0 / p >= 1.0 by {
        if p <= 1.0 { assert (1.0 / p) * p == 1.0; }
      }
      Some(Round2(1.0 / p))
    else None
  }

  /** An odd the dashboard can show: absent, or a payout of at least the stake. */
  predicate SensibleOdd(odd: Option<real>)
  {
    odd.None? || odd.value >= 1.0
  }
}
