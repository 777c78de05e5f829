/** Integer arithmetic as the dashboard's JavaScript performs it. Dafny's `/` and `%`
    are Euclidean; JavaScript's `%` truncates toward zero and `Math.ceil(a / d)` rounds up. */
module JsNum {

  function Abs(x: int): (r: int)
    ensures r >= 0 && (r == x || r == -x)
  {
    if x < 0 then -x else x
  }

  /** JavaScript's `a % b` for the positive divisors the dashboard uses: the magnitude is
      `|a| mod b` and the sign is the dividend's. */
  function Rem(a: int, b: int): (r: int)
    requires b > 0
    ensures Abs(r) == Abs(a) % b
    ensures a >= 0 ==> r >= 0
    ensures a <= 0 ==> r <= 0
  {
    if a >= 0 then a % b else -((-a) % b)
  }

  /** `Math.ceil(a / d)` for a positive divisor: the least integer `r` with `a <= d * r`. */
  function CeilDiv(a: int, d: int): (r: int)
    requires d > 0
    ensures d * (r - 1) < a <= d * r
  {
    -((-a) / d)
  }

  /** A positive multiple of a positive number is at least that number. */
  lemma MulAtLeast(x: int, m: int)
    requires x >= 1 && m > 0
    ensures x * m >= m
    decreases x
  {
    if x > 1 {
      MulAtLeast(x - 1, m);
      assert x * m == (x - 1) * m + m;
    }
  }

  /** Euclidean division is determined by quotient and remainder. */
  lemma DivModUnique(a: int, m: int, q: int, r: int)
    requires m > 0
    requires 0 <= r < m
    requires a == q * m + r
    ensures a / m == q && a % m == r
  {
    var q', r' := a / m, a % m;
    assert a == q' * m + r';
    assert (q - q') * m == q * m - q' * m;
    assert (q - q') * m == r' - r;
    if q > q' {
      MulAtLeast(q - q', m);
    } else if q < q' {
      assert (q' - q) * m == r - r';
      MulAtLeast(q' - q, m);
    }
  }

  /** The truncating remainder differs from the dividend by a multiple of the divisor. */
  lemma RemCongruent(a: int, b: int)
    requires b > 0
    ensures (a - Rem(a, b)) % b == 0
  {
    if a >= 0 {
      DivModUnique(a - a % b, b, a / b, 0);
    } else {
      var n := -a;
      assert n == (n / b) * b + n % b;
      assert a - Rem(a, b) == (-(n / b)) * b;
      DivModUnique(a - Rem(a, b), b, -(n / b), 0);
    }
  }
}
