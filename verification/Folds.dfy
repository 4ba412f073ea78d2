/** Runs of steps that may fail: a run stops at the first failure. */
module Folds {

  // A step makes of a state and an item, at a number, a state, and tells whether it succeeded.
  type Step<!S, !B> = (S, B, nat) -> (S, bool)

  /** The steps over a sequence of items; the first has the given number. */
  ghost function Fold<S, B>(f: Step<S, B>, s: S, items: seq<B>, first: nat): (S, bool) {
    if items == [] then (s, true)
    else
      var n := |items| - 1;
      var (before, ok) := Fold(f, s, items[..n], first);
      if ok then f(before, items[n], first + n) else (before, false)
  }

  // The state before the last item.
  ghost function Before<S, B>(f: Step<S, B>, s: S, items: seq<B>, first: nat): S
    requires items != []
  {
    Fold(f, s, items[..|items| - 1], first).0
  }

  // The sum of what each step adds, by the state before it.
  ghost function SumOver<S, B>(f: Step<S, B>, g: (S, B, nat) -> int, s: S, items: seq<B>, first: nat): int {
    if items == [] then 0
    else
      var n := |items| - 1;
      SumOver(f, g, s, items[..n], first) + g(Before(f, s, items, first), items[n], first + n)
  }

  // A step of which something holds.
  ghost predicate Ever<S, B>(f: Step<S, B>, p: (S, B, nat) -> bool, s: S, items: seq<B>, first: nat) {
    if items == [] then false
    else
      var n := |items| - 1;
      Ever(f, p, s, items[..n], first) || p(Before(f, s, items, first), items[n], first + n)
  }

  // After a failure no step is taken.
  lemma {:induction false} FailureStays<S, B>(f: Step<S, B>, s: S, items: seq<B>, n: nat, first: nat)
    requires n <= |items| && !Fold(f, s, items[..n], first).1
    ensures Fold(f, s, items, first) == Fold(f, s, items[..n], first)
  {
    if n == |items| {
      assert items[..n] == items;
    } else {
      assert items[..|items| - 1][..n] == items[..n];
      FailureStays(f, s, items[..|items| - 1], n, first);
    }
  }

  // One item more.
  lemma More<S, B>(f: Step<S, B>, s: S, items: seq<B>, n: nat, first: nat, before: S)
    requires n < |items| && Fold(f, s, items[..n], first) == (before, true)
    ensures Fold(f, s, items[..n + 1], first) == f(before, items[n], first + n)
  {
    assert items[..n + 1][..n] == items[..n];
  }

  /** What every step keeps, every run keeps. */
  lemma {:induction false} FoldKeeps<S(!new), B(!new)>(f: Step<S, B>, good: S -> bool, s: S, items: seq<B>, first: nat)
    requires good(s) && first > 0
    requires forall t, b, h: nat | good(t) && h > 0 :: good(f(t, b, h).0)
    ensures good(Fold(f, s, items, first).0)
  {
    if items == [] {
    } else {
      FoldKeeps(f, good, s, items[..|items| - 1], first);
    }
  }

  /** What every step adds, a run adds up. */
  lemma {:induction false} FoldAdds<S(!new), B(!new)>(f: Step<S, B>, good: S -> bool, total: S -> int,
                                                      g: (S, B, nat) -> int, s: S, items: seq<B>, first: nat)
    requires good(s) && first > 0 && Fold(f, s, items, first).1
    requires forall t, b, h: nat | good(t) && h > 0 :: good(f(t, b, h).0)
    requires forall t, b, h: nat | good(t) && h > 0 && f(t, b, h).1 :: total(f(t, b, h).0) == total(t) + g(t, b, h)
    ensures total(Fold(f, s, items, first).0) == total(s) + SumOver(f, g, s, items, first)
  {
    if items == [] {
    } else {
      FoldKeeps(f, good, s, items[..|items| - 1], first);
      FoldAdds(f, good, total, g, s, items[..|items| - 1], first);
    }
  }

  /** What a step never takes away, and adds nothing to exactly when something does not hold of it. */
  lemma {:induction false} SumSign<S(!new), B(!new)>(f: Step<S, B>, good: S -> bool, g: (S, B, nat) -> int,
                                                     p: (S, B, nat) -> bool, s: S, items: seq<B>, first: nat)
    requires good(s) && first > 0 && Fold(f, s, items, first).1
    requires forall t, b, h: nat | good(t) && h > 0 :: good(f(t, b, h).0)
    requires forall t, b, h: nat | good(t) && h > 0 && f(t, b, h).1 ::
               g(t, b, h) >= 0 && (g(t, b, h) == 0 <==> !p(t, b, h))
    ensures SumOver(f, g, s, items, first) >= 0
    ensures SumOver(f, g, s, items, first) == 0 <==> !Ever(f, p, s, items, first)
  {
    if items == [] {
    } else {
      FoldKeeps(f, good, s, items[..|items| - 1], first);
      SumSign(f, good, g, p, s, items[..|items| - 1], first);
    }
  }

  /** What holds after a step exactly when it did before and something does not hold of the step, holds after a run
      exactly when it did before and that never holds. */
  lemma {:induction false} FoldExact<S(!new), B(!new)>(f: Step<S, B>, good: S -> bool, exact: S -> bool,
                                                       p: (S, B, nat) -> bool, s: S, items: seq<B>, first: nat)
    requires good(s) && first > 0 && Fold(f, s, items, first).1
    requires forall t, b, h: nat | good(t) && h > 0 :: good(f(t, b, h).0)
    requires forall t, b, h: nat | good(t) && h > 0 && f(t, b, h).1 :: exact(f(t, b, h).0) <==> exact(t) && !p(t, b, h)
    ensures exact(Fold(f, s, items, first).0) <==> exact(s) && !Ever(f, p, s, items, first)
  {
    if items == [] {
    } else {
      FoldKeeps(f, good, s, items[..|items| - 1], first);
      FoldExact(f, good, exact, p, s, items[..|items| - 1], first);
    }
  }

  /** How each step relates its two states, unless something holds of it, a run relates its ends. */
  lemma {:induction false} FoldRelates<S(!new), B(!new)>(f: Step<S, B>, good: S -> bool, related: (S, S) -> bool,
                                                         p: (S, B, nat) -> bool, s: S, items: seq<B>, first: nat)
    requires good(s) && first > 0 && Fold(f, s, items, first).1 && !Ever(f, p, s, items, first)
    requires forall t, b, h: nat | good(t) && h > 0 :: good(f(t, b, h).0)
    requires forall t, b, h: nat | good(t) && h > 0 && f(t, b, h).1 && !p(t, b, h) :: related(t, f(t, b, h).0)
    requires forall t :: related(t, t)
    requires forall t, u, v | related(t, u) && related(u, v) :: related(t, v)
    ensures related(s, Fold(f, s, items, first).0)
  {
    if items == [] {
    } else {
      FoldKeeps(f, good, s, items[..|items| - 1], first);
      FoldRelates(f, good, related, p, s, items[..|items| - 1], first);
    }
  }

  /** What holds of no step that is related to the start and has a fair item, never holds in a run of fair items. */
  lemma {:induction false} FoldNever<S(!new), B(!new)>(f: Step<S, B>, good: S -> bool, related: (S, S) -> bool,
                                                       fair: B -> bool, p: (S, B, nat) -> bool, s: S, items: seq<B>,
                                                       first: nat)
    requires good(s) && first > 0 && Fold(f, s, items, first).1 && forall i | 0 <= i < |items| :: fair(items[i])
    requires forall t, b, h: nat | good(t) && h > 0 :: good(f(t, b, h).0)
    requires forall t, b, h: nat | good(t) && h > 0 && f(t, b, h).1 :: related(t, f(t, b, h).0)
    requires forall t :: related(t, t)
    requires forall t, u, v | related(t, u) && related(u, v) :: related(t, v)
    requires forall t, b, h: nat | good(t) && h > 0 && related(s, t) && fair(b) :: !p(t, b, h)
    ensures !Ever(f, p, s, items, first) && related(s, Fold(f, s, items, first).0)
  {
    if items == [] {
    } else {
      FoldKeeps(f, good, s, items[..|items| - 1], first);
      FoldNever(f, good, related, fair, p, s, items[..|items| - 1], first);
    }
  }

  /** A run in two parts. */
  lemma {:induction false} FoldSplit<S, B>(f: Step<S, B>, s: S, items: seq<B>, k: nat, first: nat)
    requires k <= |items| && Fold(f, s, items, first).1
    ensures var (mid, ok) := Fold(f, s, items[..k], first);
            ok && Fold(f, s, items, first) == Fold(f, mid, items[k..], first + k)
    decreases |items|
  {
    var n := |items| - 1;
    if k == |items| {
      assert items[..k] == items && items[k..] == [];
    } else {
      FoldSplit(f, s, items[..n], k, first);
      assert items[..n][..k] == items[..k] && items[..n][k..] == items[k..][..n - k] && items[k..][n - k] == items[n];
    }
  }

  lemma {:induction false} SumSplit<S, B>(f: Step<S, B>, g: (S, B, nat) -> int, s: S, items: seq<B>, k: nat, first: nat)
    requires k <= |items| && Fold(f, s, items, first).1
    ensures SumOver(f, g, s, items, first)
            == SumOver(f, g, s, items[..k], first)
                + SumOver(f, g, Fold(f, s, items[..k], first).0, items[k..], first + k)
    decreases |items|
  {
    var n := |items| - 1;
    if k == |items| {
      assert items[..k] == items && items[k..] == [];
    } else {
      SumSplit(f, g, s, items[..n], k, first);
      FoldSplit(f, s, items[..n], k, first);
      assert items[..n][..k] == items[..k] && items[..n][k..] == items[k..][..n - k] && items[k..][n - k] == items[n];
    }
  }
}
