/** Python's integer operators, on unbounded integers. */
module PyInt {

  /** The sign of the result is the sign of the divisor. */
  function Mod(a: int, b: int): (r: int)
    requires b != 0
    ensures b > 0 ==> 0 <= r < b
    ensures b < 0 ==> b < r <= 0
  {
    if b > 0 then a % b else -((-a) % (-b))
  }

  function Pow(b: int, e: nat): int {
    if e == 0 then 1 else b * Pow(b, e - 1)
  }

  function Pow2(n: nat): (r: nat)
    ensures r > 0
  {
    if n == 0 then 1 else 2 * Pow2(n - 1)
  }

  datatype BitOp = And | Or | Xor

  function Bit(op: BitOp, a: int, b: int): int
    requires 0 <= a <= 1 && 0 <= b <= 1
  {
    match op
    case And => a * b
    case Or => if a + b > 0 then 1 else 0
    case Xor => if a == b then 0 else 1
  }

  function Magnitude(a: int): nat {
    if a < 0 then -a - 1 else a
  }

  /** Bitwise operators see a negative number as an infinite two's complement. */
  function Bitwise(op: BitOp, a: int, b: int): int
    decreases Magnitude(a) + Magnitude(b)
  {
    if Magnitude(a) == 0 && Magnitude(b) == 0 then -Bit(op, -a, -b)
    else 2 * Bitwise(op, a / 2, b / 2) + Bit(op, a % 2, b % 2)
  }

  function ShiftLeft(a: int, count: nat): int {
    a * Pow2(count)
  }

  /** Rounds towards minus infinity. */
  function ShiftRight(a: int, count: nat): int {
    a / Pow2(count)
  }

  predicate Congruent(a: int, b: int, m: int)
    requires m > 0
  {
    (a - b) % m == 0
  }

  lemma ModCongruent(a: int, m: int)
    requires m > 0
    ensures Congruent(a % m, a, m)
  {
    MultipleOfModulus(-(a / m), m);
    assert a % m - a == m * -(a / m);
  }

  lemma MultipleOfModulus(k: int, m: int)
    requires m > 0
    ensures (m * k) % m == 0
  {
    QuotientIsUnique(m * k, k, 0, m);
  }

  lemma AddModulus(x: int, m: int)
    requires m > 0
    ensures (x + m) % m == x % m
  {
    var q, r := x / m, x % m;
    assert x + m == m * (q + 1) + r;
    QuotientIsUnique(x + m, q + 1, r, m);
  }

  /** Quotient and remainder are unique. */
  lemma QuotientIsUnique(x: int, q: int, r: int, m: int)
    requires m > 0 && x == m * q + r && 0 <= r < m
    ensures x / m == q && x % m == r
  {
    SameQuotient(m, q, r, x / m, x % m);
  }

  lemma SameQuotient(m: int, q: int, r: int, q': int, r': int)
    requires 0 <= r < m && 0 <= r' < m && m * q + r == m * q' + r'
    ensures q == q' && r == r'
  {
    if q < q' {
      AtLeastOnce(m, q' - q);
    } else if q' < q {
      AtLeastOnce(m, q - q');
    }
  }

  lemma {:induction false} AtLeastOnce(m: int, k: int)
    requires m > 0 && k >= 1
    ensures m * k >= m
  {
    if k > 1 {
      AtLeastOnce(m, k - 1);
      assert m * k == m * (k - 1) + m;
    }
  }
}
