/** The fragment of C integer semantics the firmware relies on: the widths of
    uint16_t and uint32_t, conversion to uint16_t, and signed division, which C
    truncates toward zero (Dafny's own division on negative operands is
    Euclidean, so it is written out here). */
module CInt {

  const U16Modulus: nat := 0x1_0000
  const U32Modulus: nat := 0x1_0000_0000

  /** A value a 32-bit signed `long` can hold. */
  predicate FitsLong(x: int)
  {
    -0x8000_0000 <= x < 0x8000_0000
  }

  /** A value held in a uint16_t. */
  type U16 = x: nat | x < U16Modulus

  /** Conversion of an integer to uint16_t: the value modulo 2^16. */
  function ToU16(x: int): (r: U16)
    ensures 0 <= x < U16Modulus ==> r == x
    ensures (r - x) % U16Modulus == 0
  {
    x % U16Modulus
  }

  function Abs(x: int): nat
  {
    if x < 0 then -x else x
  }

  /** Signed division as C defines it: the quotient is truncated toward zero,
      so its magnitude is the largest q with q*|b| <= |a|, and it is negative
      exactly when the operands have opposite signs and |a| >= |b|. */
  function TruncDiv(a: int, b: int): (q: int)
    requires b != 0
    ensures Abs(q) * Abs(b) <= Abs(a) < (Abs(q) + 1) * Abs(b)
    ensures q < 0 ==> (a < 0) != (b < 0)
    ensures q > 0 ==> (a < 0) == (b < 0)
  {
    var m := Abs(a) / Abs(b);
    FloorDiv(Abs(a), Abs(b));
    if (a < 0) == (b < 0) then m else -m
  }

  /** An exact multiple divides back to its factor, whatever the signs. */
  lemma TruncDivExact(b: int, c: int)
    requires b != 0
    ensures TruncDiv(b * c, b) == c
  {
    var q := TruncDiv(b * c, b);
    AbsMul(b, c);
    MulCancel(Abs(b), Abs(q), Abs(c) + 1);
    MulCancel(Abs(b), Abs(c), Abs(q) + 1);
  }

  lemma AbsMul(b: int, c: int)
    ensures Abs(b * c) == Abs(b) * Abs(c)
  {
    if b < 0 && c >= 0 {
      assert b * c == -((-b) * c);
    } else if b >= 0 && c < 0 {
      assert b * c == -(b * (-c));
    } else if b < 0 && c < 0 {
      assert b * c == (-b) * (-c);
    }
  }

  /** The quotient of natural numbers is the largest q with q * b <= a. */
  lemma FloorDiv(a: nat, b: nat)
    requires b > 0
    ensures (a / b) * b <= a < (a / b + 1) * b
  {
    var q, r := a / b, a % b;
    assert a == q * b + r && r < b;
    assert (q + 1) * b == q * b + b;
  }

  lemma MulCancel(n: nat, a: nat, b: nat)
    requires n * a < n * b
    ensures a < b
  {
  }

  lemma MulCancelLe(n: nat, a: nat, b: nat)
    requires n > 0 && n * a <= n * b
    ensures a <= b
  {
  }

  /** Dividing a total that lies between n*lo and n*hi by n gives a value in [lo, hi]. */
  lemma DivBetween(total: nat, n: nat, lo: nat, hi: nat)
    requires n > 0
    requires n * lo <= total <= n * hi
    ensures lo <= total / n <= hi
  {
    var q, r := total / n, total % n;
    assert total == n * q + r && 0 <= r < n;
    assert n * lo < n * (q + 1) by { assert n * (q + 1) == n * q + n; }
    MulCancel(n, lo, q + 1);
    assert n * q <= n * hi;
    MulCancelLe(n, q, hi);
  }

  /** Division by a positive constant is monotone. */
  lemma DivMonotone(a: nat, b: nat, d: nat)
    requires d > 0 && a <= b
    ensures a / d <= b / d
  {
    var qa, qb := a / d, b / d;
    assert d * qa <= a by { assert a == d * qa + a % d; }
    assert b < d * (qb + 1) by { assert b == d * qb + b % d; }
    MulCancel(d, qa, qb + 1);
  }
}
