/** The few facts about products and quotients that the solver is told one at a time. */
module Arith {

  lemma MulMono(a: nat, x: int, y: int)
    requires x <= y
    ensures a * x <= a * y
  {
  }

  lemma SmallMultiple(k: int, d: int)
    requires -d < k * d < d
    ensures k == 0
  {
  }

  /** Quotient and remainder are what they have to be. */
  lemma DivUnique(n: int, d: int, q: int, r: int)
    requires 0 < d && n == q * d + r && 0 <= r < d
    ensures n / d == q && n % d == r
  {
    var q', r' := n / d, n % d;
    assert n == q' * d + r';
    assert (q - q') * d == r' - r;
    SmallMultiple(q - q', d);
  }

  function Abs(x: int): (r: int)
    ensures r >= 0
  {
    if x < 0 then -x else x
  }

  /** C's division. */
  function Quot(a: int, b: int): int
    requires b != 0
  {
    var q := Abs(a) / Abs(b);
    (if (a < 0) == (b < 0) then 1 else -1) * q
  }

  lemma QuotNear(a: int, b: int)
    requires b != 0
    ensures -Abs(b) < a - Quot(a, b) * b < Abs(b)
  {
    var q, r := Abs(a) / Abs(b), Abs(a) % Abs(b);
    assert Abs(a) == q * Abs(b) + r;
    assert Quot(a, b) * b == (if a < 0 then -(q * Abs(b)) else q * Abs(b));
  }

  lemma QuotExact(a: int, b: int)
    requires b != 0
    ensures Quot(a * b, b) == a
  {
    QuotNear(a * b, b);
    var k := a - Quot(a * b, b);
    assert k * b == a * b - Quot(a * b, b) * b;
    if b > 0 {
      SmallMultiple(k, b);
    } else {
      assert k * (-b) == -(k * b);
      SmallMultiple(k, -b);
    }
  }
}
