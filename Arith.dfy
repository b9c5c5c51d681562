/** Integer facts shared by the models: uniqueness of Euclidean division, and Java's truncating remainder. */
module Arith {

  lemma MulAtLeast(d: int, k: int)
    requires d > 0 && k >= 1
    ensures d * k >= d
  {
    if k > 1 {
      MulAtLeast(d, k - 1);
      assert d * k == d * (k - 1) + d;
    }
  }

  /** A quotient and remainder that reassemble x are the quotient and remainder of x. */
  lemma DivModUnique(x: int, d: int, q: int, r: int)
    requires d > 0 && 0 <= r < d && x == d * q + r
    ensures x % d == r && x / d == q
  {
    var q', r' := x / d, x % d;
    var k := q' - q;
    assert d * k == r - r' by {
      assert d * q' - d * q == d * k;
    }
    if k >= 1 {
      MulAtLeast(d, k);
    } else if k <= -1 {
      MulAtLeast(d, -k);
    }
  }

  lemma ModMinusDivisor(n: int, d: int)
    requires d > 0
    ensures (n - d) % d == n % d
  {
    DivModUnique(n - d, d, n / d - 1, n % d);
  }

  /** Java's `%` on int and long: the remainder takes the sign of the dividend. */
  function JavaRem(a: int, b: int): (r: int)
    requires b != 0
    ensures a >= 0 ==> 0 <= r < if b > 0 then b else -b
    ensures a <= 0 ==> -(if b > 0 then b else -b) < r <= 0
  {
    var m := if b > 0 then b else -b;
    if a >= 0 then a % m else -((-a) % m)
  }
}
