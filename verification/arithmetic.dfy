/** Division with remainder. */
module Arithmetic {
  lemma Less(a: int, b: int, period: nat)
    requires a < b
    ensures a * period + period <= b * period
  {
    assert (b - a - 1) * period >= 0;
  }

  /** It has one answer. */
  lemma Remainder(n: nat, k: nat, r: nat, period: nat)
    requires r < period && n == k * period + r
    ensures n / period == k && n % period == r
  {
    var d, m := n / period, n % period;
    assert n == d * period + m;
    if d > k {
      Less(k, d, period);
    } else if d < k {
      Less(d, k, period);
    }
  }

  lemma Distribute(a: nat, b: nat, period: nat)
    ensures (a + b) * period == a * period + b * period
  {}

  lemma Divided(n: nat, period: nat)
    requires period > 0
    ensures n == n / period * period + n % period && n % period < period
  {}
}
