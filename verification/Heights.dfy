/** Block heights as decimal strings, compared the way strings are. */
module Heights {
  import opened Arithmetic

  function Digit(d: nat): char
    requires d < 10
  {
    '0' + d as char
  }

  function Decimal(n: nat): (s: string)
    ensures |s| >= 1
  {
    if n < 10 then [Digit(n)] else Decimal(n / 10) + [Digit(n % 10)]
  }

  function Pow10(k: nat): (p: nat)
    ensures p >= 1
  {
    if k == 0 then 1 else 10 * Pow10(k - 1)
  }

  /** The `>` of strings: the first different character decides, and a longer string is greater than its prefix. */
  predicate Greater(a: string, b: string) {
    if a == [] then false
    else if b == [] then true
    else if a[0] != b[0] then a[0] > b[0]
    else Greater(a[1..], b[1..])
  }

  lemma {:induction false} GreaterSelf(a: string)
    ensures !Greater(a, a)
  {
    if a == [] {
    } else {
      GreaterSelf(a[1..]);
    }
  }

  lemma {:induction false} GreaterAppend(a: string, b: string, c: char, d: char)
    requires |a| == |b|
    ensures Greater(a + [c], b + [d]) <==> Greater(a, b) || (a == b && c > d)
  {
    if a == [] {
      assert a + [c] == [c] && b + [d] == [d];
    } else {
      assert (a + [c])[1..] == a[1..] + [c] && (b + [d])[1..] == b[1..] + [d];
      GreaterAppend(a[1..], b[1..], c, d);
      assert a == [a[0]] + a[1..] && b == [b[0]] + b[1..];
    }
  }

  // One more character on a string that is no shorter.
  lemma {:induction false} GreaterLonger(a: string, b: string, c: char)
    requires |a| >= |b|
    ensures Greater(a + [c], b) <==> Greater(a, b) || a == b
  {
    if b == [] {
      assert a + [c] != [];
    } else {
      assert (a + [c])[1..] == a[1..] + [c];
      GreaterLonger(a[1..], b[1..], c);
      assert a == [a[0]] + a[1..] && b == [b[0]] + b[1..];
    }
  }

  lemma {:induction false} DecimalLength(n: nat)
    ensures n < Pow10(|Decimal(n)|)
    ensures n > 0 ==> Pow10(|Decimal(n)| - 1) <= n
  {
    if n < 10 {
    } else {
      DecimalLength(n / 10);
    }
  }

  lemma {:induction false} LengthMonotone(a: nat, b: nat)
    requires a <= b
    ensures |Decimal(a)| <= |Decimal(b)|
  {
    if a < 10 || b < 10 {
    } else {
      LengthMonotone(a / 10, b / 10);
    }
  }

  /** Strings of the same length compare as their numbers. */
  lemma {:induction false} SameLength(a: nat, b: nat)
    requires |Decimal(a)| == |Decimal(b)|
    ensures Greater(Decimal(a), Decimal(b)) <==> a > b
    ensures Decimal(a) == Decimal(b) <==> a == b
  {
    if a < 10 {
      assert b < 10;
    } else {
      assert b >= 10;
      SameLength(a / 10, b / 10);
      GreaterAppend(Decimal(a / 10), Decimal(b / 10), Digit(a % 10), Digit(b % 10));
      if Decimal(a) == Decimal(b) {
        assert Decimal(a)[..|Decimal(a)| - 1] == Decimal(a / 10) && Decimal(b)[..|Decimal(b)| - 1] == Decimal(b / 10);
      }
    }
  }

  /** A longer string is greater just when its leading digits are at least the other number. */
  lemma {:induction false} LongerGreater(a: nat, b: nat)
    requires |Decimal(a)| > |Decimal(b)|
    ensures Greater(Decimal(a), Decimal(b)) <==> a / Pow10(|Decimal(a)| - |Decimal(b)|) >= b
  {
    GreaterLonger(Decimal(a / 10), Decimal(b), Digit(a % 10));
    var k := |Decimal(a)| - |Decimal(b)|;
    assert |Decimal(a / 10)| == |Decimal(a)| - 1;
    DivDiv(a, Pow10(k - 1));
    if k == 1 {
      SameLength(a / 10, b);
    } else {
      LongerGreater(a / 10, b);
    }
  }

  lemma DivDiv(a: nat, p: nat)
    requires p >= 1
    ensures a / (10 * p) == a / 10 / p
  {
    var q, r := a / 10, a % 10;
    var q', r' := q / p, q % p;
    assert q == p * q' + r';
    assert a == 10 * p * q' + (10 * r' + r) by {
      assert a == 10 * q + r;
      assert 10 * q == 10 * (p * q') + 10 * r';
    }
    DivUnique(a, 10 * p, q', 10 * r' + r);
  }

  // Whether a height compares greater than another as a string.
  predicate Above(height: nat, target: nat) {
    Greater(Decimal(height), Decimal(target))
  }

  // 0 or a power of ten.
  predicate Round(n: nat) {
    n == 0 || n == Pow10(|Decimal(n)| - 1)
  }

  /** Every height above the target and up to the last one compares greater exactly when the last height has no more
      digits, or the target is 0 or a power of ten. */
  lemma AllGreater(last: nat, target: nat)
    requires target <= last
    ensures (forall h | target < h <= last :: Above(h, target))
            <==> |Decimal(last)| == |Decimal(target)| || Round(target)
  {
    LengthMonotone(target, last);
    if |Decimal(last)| == |Decimal(target)| || Round(target) {
      forall h | target < h <= last
        ensures Above(h, target)
      {
        LengthMonotone(target, h);
        LengthMonotone(h, last);
        if |Decimal(h)| == |Decimal(target)| {
          SameLength(h, target);
        } else {
          RoundBelow(h, target);
        }
      }
    } else {
      NextLength(last, target);
    }
  }

  lemma RoundBelow(h: nat, target: nat)
    requires |Decimal(h)| > |Decimal(target)| && Round(target)
    ensures Above(h, target)
  {
    LongerGreater(h, target);
    if target != 0 {
      var k, d := |Decimal(h)| - |Decimal(target)|, |Decimal(target)| - 1;
      DecimalLength(h);
      assert h > 0;
      PowSum(k, d);
      DivAtLeast(h, Pow10(k), target);
    }
  }

  lemma {:induction false} PowSum(k: nat, d: nat)
    ensures Pow10(k + d) == Pow10(k) * Pow10(d)
  {
    if k == 0 {
    } else {
      PowSum(k - 1, d);
    }
  }

  // The first height with one digit more is not greater than a target that is not round.
  lemma NextLength(last: nat, target: nat)
    requires target <= last && |Decimal(last)| > |Decimal(target)| && !Round(target)
    ensures var h := Pow10(|Decimal(target)|); target < h <= last && !Above(h, target)
  {
    var d := |Decimal(target)|;
    DecimalLength(target);
    DecimalLength(last);
    PowMonotone(d, |Decimal(last)| - 1);
    PowLength(d);
    LongerGreater(Pow10(d), target);
    assert Pow10(1) == 10;
    DivUnique(Pow10(d), 10, Pow10(d - 1), 0);
  }

  lemma {:induction false} PowMonotone(a: nat, b: nat)
    requires a <= b
    ensures Pow10(a) <= Pow10(b)
  {
    if a == b {
    } else {
      PowMonotone(a, b - 1);
    }
  }

  lemma {:induction false} PowLength(k: nat)
    ensures |Decimal(Pow10(k))| == k + 1
  {
    if k == 0 {
    } else {
      PowLength(k - 1);
    }
  }
}
