/** How the sizes of the first two parts of a concatenation are made to fit. */
module Sizing {
  /** Scales the sizes of the first two parts down to a capacity, in proportion. */
  function ScaledSizes(a: nat, b: nat, max: nat): (r: (nat, nat))
    ensures r.0 + r.1 <= max || r == (a, b)
    ensures a + b <= max ==> r == (a, b)
    ensures a + b > max ==> max <= r.0 + r.1 + 1 && r.0 + r.1 <= max
    ensures a + b > max ==> r.0 * (a + b) <= a * max < (r.0 + 1) * (a + b)
    ensures a + b > max ==> r.1 * (a + b) <= b * max < (r.1 + 1) * (a + b)
  {
    if a + b > max then
      Scaling(a, b, max);
      Share(a * max, a + b);
      Share(b * max, a + b);
      (a * max / (a + b), b * max / (a + b))
    else (a, b)
  }

  /** Each part gets its own share, rounded down. */
  lemma Share(x: nat, t: nat)
    requires t > 0
    ensures 0 <= x / t && x / t * t <= x < (x / t + 1) * t
  {
    assert x == t * (x / t) + x % t;
    assert (x / t + 1) * t == t * (x / t) + t;
  }

  /** The shares leave nothing open. */
  lemma ShareIsUnique(x: nat, t: nat, p: nat, q: nat)
    requires p * t <= x < (p + 1) * t && q * t <= x < (q + 1) * t
    ensures p == q
  {
    if p < q {
      Monotone(p + 1, q, t);
    } else if q < p {
      Monotone(q + 1, p, t);
    }
  }

  lemma Monotone(p: nat, q: nat, t: nat)
    requires p <= q
    ensures p * t <= q * t
  {
    assert q * t == p * t + (q - p) * t;
  }

  /** Rounding loses at most one byte, and never exceeds the capacity. */
  lemma Scaling(a: nat, b: nat, max: nat)
    requires a + b > max
    ensures 0 <= a * max / (a + b) && 0 <= b * max / (a + b)
    ensures a * max / (a + b) + b * max / (a + b) <= max <= a * max / (a + b) + b * max / (a + b) + 1
  {
    var t := a + b;
    assert a * max + b * max == t * max;
    FloorSum(a * max, b * max, t, max);
  }

  lemma FloorSum(x: nat, y: nat, t: nat, max: nat)
    requires t > 0 && x + y == t * max
    ensures 0 <= x / t && 0 <= y / t && x / t + y / t <= max <= x / t + y / t + 1
  {
    var p, q := x / t, y / t;
    assert t * (max - p - q) == x % t + y % t;
    Squeeze(t, max - p - q);
  }

  lemma Squeeze(t: int, k: int)
    requires t > 0 && 0 <= t * k < 2 * t
    ensures 0 <= k <= 1
  {
  }
}
