/** Sums over finite sets. */
module Sums {

  ghost function Sum<K(!new)>(s: set<K>, f: K -> int): int
    decreases |s|
  {
    if s == {} then 0
    else
      var k :| k in s;
      f(k) + Sum(s - {k}, f)
  }

  /** Any element may be taken out first. */
  lemma {:induction false} SumRemove<K(!new)>(s: set<K>, f: K -> int, k: K)
    requires k in s
    ensures Sum(s, f) == f(k) + Sum(s - {k}, f)
    decreases |s|
  {
    var first :| first in s && Sum(s, f) == f(first) + Sum(s - {first}, f);
    if first == k {
    } else {
      SumRemove(s - {first}, f, k);
      SumRemove(s - {k}, f, first);
      assert s - {first} - {k} == s - {k} - {first};
    }
  }

  lemma SumAdd<K(!new)>(s: set<K>, f: K -> int, k: K)
    requires k !in s
    ensures Sum(s + {k}, f) == f(k) + Sum(s, f)
  {
    SumRemove(s + {k}, f, k);
    assert s + {k} - {k} == s;
  }

  lemma {:induction false} SumSame<K(!new)>(s: set<K>, f: K -> int, g: K -> int)
    requires forall k | k in s :: f(k) == g(k)
    ensures Sum(s, f) == Sum(s, g)
    decreases |s|
  {
    if s == {} {
    } else {
      var k :| k in s;
      SumRemove(s, f, k);
      SumRemove(s, g, k);
      SumSame(s - {k}, f, g);
    }
  }

  /** Changing the value of one element changes the sum by the difference. */
  lemma SumChange<K(!new)>(s: set<K>, f: K -> int, g: K -> int, k: K)
    requires forall other | other in s && other != k :: f(other) == g(other)
    ensures Sum(s, g) == Sum(s, f) + (if k in s then g(k) - f(k) else 0)
  {
    if k in s {
      SumRemove(s, f, k);
      SumRemove(s, g, k);
      SumSame(s - {k}, f, g);
    } else {
      SumSame(s, f, g);
    }
  }

  /** The sum of sums. */
  lemma {:induction false} SumPlus<K(!new)>(s: set<K>, f: K -> int, g: K -> int, h: K -> int)
    requires forall k | k in s :: h(k) == f(k) + g(k)
    ensures Sum(s, h) == Sum(s, f) + Sum(s, g)
    decreases |s|
  {
    if s == {} {
    } else {
      var k :| k in s;
      SumRemove(s, f, k);
      SumRemove(s, g, k);
      SumRemove(s, h, k);
      SumPlus(s - {k}, f, g, h);
    }
  }
}
