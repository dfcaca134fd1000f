/** Integer division as C++ performs it: the quotient is truncated toward zero,
    so a negative dividend has a non-positive remainder. */
module Arith {

  function TruncDiv(a: int, b: int): int
    requires b > 0
  {
    (if a < 0 then a + b - 1 else a) / b
  }

  function TruncMod(a: int, b: int): int
    requires b > 0
  {
    a - b * TruncDiv(a, b)
  }

  lemma MulMonotone(b: int, x: int, y: int)
    requires b > 0 && x <= y
    ensures b * x <= b * y
  {
  }

  /** Quotient and remainder are unique. */
  lemma Quotient(n: int, b: int, q: int, r: int)
    requires b > 0 && n == b * q + r && 0 <= r < b
    ensures n / b == q && n % b == r
  {
    var q' := n / b;
    assert n == b * q' + n % b;
    if q < q' {
      MulMonotone(b, q + 1, q');
    } else if q' < q {
      MulMonotone(b, q' + 1, q);
    }
  }

  /** The quotient has the sign of the dividend and the magnitude of the quotient
      of the magnitudes. */
  lemma Truncates(a: int, b: int)
    requires b > 0
    ensures TruncDiv(a, b) == if a >= 0 then a / b else -(-a / b)
    ensures if a >= 0 then 0 <= TruncMod(a, b) < b else -b < TruncMod(a, b) <= 0
  {
    if a < 0 {
      var q, r := -a / b, -a % b;
      assert -a == b * q + r;
      Quotient(a + b - 1, b, -q, b - 1 - r);
    }
  }
}
