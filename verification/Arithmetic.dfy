/** Facts about products and quotients. */
module Arithmetic {

  function Max(a: int, b: int): int {
    if a < b then b else a
  }

  lemma DivUnique(a: nat, d: nat, q: nat, r: nat)
    requires d >= 1 && r < d && a == d * q + r
    ensures a / d == q
  {
    var q0, r0 := a / d, a % d;
    assert a == d * q0 + r0;
    Distribute(d, q, q0);
    if q0 < q {
      AtLeast(d, q - q0);
    } else if q0 > q {
      AtLeast(d, q0 - q);
      Distribute(d, q0, q);
    }
  }

  lemma Distribute(d: int, a: int, b: int)
    ensures d * (a - b) == d * a - d * b
  {
  }

  lemma AtLeast(d: nat, x: nat)
    requires x >= 1
    ensures d * x >= d
  {
    Distribute(d, x, 1);
  }

  lemma DivAtLeast(a: nat, d: nat, q: nat)
    requires d >= 1 && a >= d * q
    ensures a / d >= q
  {
    var q0 := a / d;
    assert a < d * q0 + d;
    if q0 < q {
      AtLeast(d, q - q0);
      Distribute(d, q, q0);
    }
  }

  lemma TimesMonotone(d: nat, a: nat, b: nat)
    requires a <= b
    ensures d * a <= d * b
  {
    Distribute(d, b, a);
  }
}
