/**
 Java's integer `/` and `%`.

 Java truncates integer division toward zero and gives the remainder the
 sign of the dividend; Dafny's `/` and `%` are Euclidean. The two agree on
 non-negative dividends, which is the only case the clock reaches, but the
 model spells out Java's rule so that no caller has to promise a sign.
 */
module JavaInt {

  /** Java's `a / b` for a positive divisor: the quotient truncated toward zero. */
  function JavaDiv(a: int, b: int): (q: int)
    requires b > 0
    ensures a >= 0 ==> 0 <= a - q * b < b
    ensures a < 0 ==> -b < a - q * b <= 0
  {
    if a >= 0 then a / b else -((-a) / b)
  }

  /** Java's `a % b` for a positive divisor: the remainder takes the dividend's sign. */
  function JavaRem(a: int, b: int): (r: int)
    requires b > 0
    ensures JavaDiv(a, b) * b + r == a
    ensures a >= 0 ==> 0 <= r < b
    ensures a < 0 ==> -b < r <= 0
  {
    if a >= 0 then a % b else -((-a) % b)
  }
}
