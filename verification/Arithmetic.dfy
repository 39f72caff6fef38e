/** Division with remainder, and powers of ten. */
module Arithmetic {
  lemma Multiples(a: nat, b: nat, d: nat)
    requires a >= b
    ensures a * d >= b * d
  {}

  lemma Quotient(x: nat, d: nat, q: nat, r: nat)
    requires d > 0 && x == q * d + r && r < d
    ensures x / d == q && x % d == r
  {
    var q' := x / d;
    if q' > q {
      Multiples(q', q + 1, d);
    } else if q' < q {
      Multiples(q, q' + 1, d);
    }
  }

  /** Multiples of 64 do not matter modulo 64. */
  lemma Modulo64(x: int, k: int)
    ensures (x + 64 * k) % 64 == x % 64
  {}

  function Pow10(w: nat): (r: nat)
    ensures r > 0
  {
    if w == 0 then 1 else 10 * Pow10(w - 1)
  }

  lemma PowersOfTen()
    ensures Pow10(8) == 100_000_000 && Pow10(10) == 10_000_000_000
  {
    assert Pow10(2) == 100;
    assert Pow10(4) == 10_000;
    assert Pow10(6) == 1_000_000;
  }
}
