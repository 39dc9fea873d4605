/** Java integer semantics that the application's arithmetic relies on.

    Dafny's `/` and `%` on `int` are Euclidean; Java's `/` truncates toward
    zero and Java's `%` takes the sign of the dividend.  A Java `byte` is a
    signed 8-bit value and a `(byte)` cast keeps the low eight bits. */
module JavaInt {

  /** A Java `byte`. */
  newtype int8 = x: int | -128 <= x < 128

  /** Java's `a / d` for a positive divisor: the quotient rounded toward zero. */
  function Div(a: int, d: int): (q: int)
    requires d > 0
    ensures a >= 0 ==> 0 <= a - q * d < d
    ensures a < 0 ==> -d < a - q * d <= 0
  {
    if a >= 0 then a / d else -((-a) / d)
  }

  /** Java's `a % d` for a positive divisor: what is left after `Div`, with the sign of `a`. */
  function Rem(a: int, d: int): (r: int)
    requires d > 0
    ensures a == Div(a, d) * d + r
    ensures a >= 0 ==> 0 <= r < d
    ensures a < 0 ==> -d < r <= 0
  {
    a - Div(a, d) * d
  }

  /** Java's narrowing cast `(byte) x`: the one byte value congruent to `x` modulo 256. */
  function ToByte(x: int): (b: int8)
    ensures (x - b as int) % 256 == 0
  {
    ((x + 128) % 256 - 128) as int8
  }

  /** Multiplying by a positive number preserves a strict order, and so reflects it. */
  lemma MulCancel(x: int, y: int, d: int)
    requires d > 0 && x * d < y * d
    ensures x < y
  {
  }

  /** One more multiple of `d` is `d` more. */
  lemma MulSucc(q: int, d: int)
    ensures (q + 1) * d == q * d + d && (q - 1) * d == q * d - d
  {
  }

  /** Multiplying by a non-negative number preserves order. */
  lemma MulMonotone(c: int, x: int, y: int)
    requires c >= 0 && x <= y
    ensures c * x <= c * y
  {
    assert c * y - c * x == c * (y - x);
  }

  /** Truncating division is monotone in the dividend. */
  lemma {:induction false} DivMonotone(a: int, b: int, d: int)
    requires d > 0 && a <= b
    ensures Div(a, d) <= Div(b, d)
  {
    var qa, qb := Div(a, d), Div(b, d);
    MulSucc(0, d);
    MulSucc(qb, d);
    if a < 0 <= b {
      // qa * d < a + d < d and qb * d > b - d >= -d
      assert qa * d < 1 * d;
      MulCancel(qa, 1, d);
      assert -1 * d < qb * d;
      MulCancel(-1, qb, d);
    } else if a >= 0 {
      assert qa * d <= a <= b < qb * d + d;
      MulCancel(qa, qb + 1, d);
    } else {
      assert qa * d < a + d <= b + d <= qb * d + d;
      MulCancel(qa, qb + 1, d);
    }
  }

  /** Dividing an exact multiple gives the multiplier back, whatever its sign. */
  lemma {:induction false} DivExact(k: int, d: int)
    requires d > 0
    ensures Div(k * d, d) == k
  {
    var q := Div(k * d, d);
    MulSucc(k, d);
    assert k * d - d < q * d < k * d + d;
    MulCancel(k - 1, q, d);
    MulCancel(q, k + 1, d);
  }
}
