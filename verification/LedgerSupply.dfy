/** The coins of a chain and the supply the reward schedule announces. */
module LedgerSupply {
  import opened Rows
  import opened Folds
  import opened Slots
  import opened Ledgers
  import opened LedgerRuns
  import opened LedgerBlocks
  import R = Rounds
  import Supplies

  function AllRewards(bodies: seq<Body>): nat {
    if bodies == [] then 0 else AllRewards(bodies[..|bodies| - 1]) + bodies[|bodies| - 1].reward
  }

  // What a round's end with 101 delegates does not pay out of the pot.
  function Unpaid(pot: R.Pot): nat {
    2 * (pot.fee % DELEGATES) + 2 * (pot.reward % DELEGATES)
  }

  ghost function UnpaidAt(): (Books, Body, nat) -> int {
    (b: Books, body: Body, height: nat) => if EndsRound(height) then Unpaid(FullPot(b, body, height)) else 0
  }

  /** What the rounds that end in a run leave unpaid. */
  ghost function UnpaidOf(c: Checks, q: Rota, b: Books, bodies: seq<Body>, first: nat): int {
    SumOver(BlockStep(c, q), UnpaidAt(), b, bodies, first)
  }

  // The first height of a round, counted from 1.
  function FirstOf(round: nat): nat
    requires round >= 1
  {
    DELEGATES * (round - 1) + 1
  }

  // Books inside a round: what its blocks so far did to pot, bookkeeper and forgers.
  ghost predicate Inside(b: Books, now: Books, bodies: seq<Body>, round: nat) {
    && R.PotOf(now.pots, round) == R.Pot(AllFees(bodies), AllRewards(bodies))
    && (forall r: nat | r > round :: R.PotOf(now.pots, r) == R.PotOf(b.pots, r))
    && now.bookkeeper == b.bookkeeper && |now.forgers| == |b.forgers| + |bodies|
  }

  // Books before and after a block.
  predicate Next(b: Books, b': Books, body: Body, height: nat) {
    && b'.pots == PotsAfter(b, body, height) && b'.forgers == b.forgers + [body.delegate]
    && (!EndsRound(height) ==> b'.bookkeeper == b.bookkeeper)
  }

  ghost predicate KeepsBooks(f: Step<Books, Body>) {
    forall b, body, height: nat | f(b, body, height).1 :: Next(b, f(b, body, height).0, body, height)
  }

  lemma BlocksKeepBooks(c: Checks, q: Rota)
    ensures KeepsBooks(BlockStep(c, q))
  {
    forall b, body, height: nat | BlockStep(c, q)(b, body, height).1
      ensures Next(b, BlockStep(c, q)(b, body, height).0, body, height)
    {
      assert BlockStep(c, q)(b, body, height) == AppliedBlock(c, q, b, body, height);
    }
  }

  // One block that ends no round.
  lemma InsideMore(b: Books, now: Books, now': Books, bodies: seq<Body>, body: Body, round: nat)
    requires round >= 1 && |bodies| < DELEGATES - 1 && Inside(b, now, bodies, round)
    requires Next(now, now', body, FirstOf(round) + |bodies|)
    ensures !EndsRound(FirstOf(round) + |bodies|) && Inside(b, now', bodies + [body], round)
  {
    RoundHeights(FirstOf(round) + |bodies|, round);
    assert (bodies + [body])[..|bodies|] == bodies;
    assert (FirstOf(round) + |bodies|) % DELEGATES == 1 + |bodies| by { InRound(round - 1, 1 + |bodies|); }
  }

  lemma InRound(rounds: nat, rest: nat)
    requires rest < DELEGATES
    ensures (DELEGATES * rounds + rest) % DELEGATES == rest
  {
  }

  /** Inside a round nothing is paid and the pot is the fees and rewards of its blocks. */
  lemma {:induction false} InsideRun(f: Step<Books, Body>, q: Rota, b: Books, bodies: seq<Body>, round: nat)
    requires round >= 1 && |bodies| < DELEGATES && R.PotOf(b.pots, round) == R.Pot(0, 0)
    requires KeepsBooks(f) && Fold(f, b, bodies, FirstOf(round)).1
    ensures Inside(b, Fold(f, b, bodies, FirstOf(round)).0, bodies, round)
    ensures SumOver(f, PayoutAt(q), b, bodies, FirstOf(round)) == 0
    ensures SumOver(f, UnpaidAt(), b, bodies, FirstOf(round)) == 0
  {
    if bodies == [] {
    } else {
      var n := |bodies| - 1;
      InsideRun(f, q, b, bodies[..n], round);
      var now, now' := Fold(f, b, bodies[..n], FirstOf(round)).0, Fold(f, b, bodies, FirstOf(round)).0;
      assert bodies[..n] + [bodies[n]] == bodies;
      assert Next(now, now', bodies[n], FirstOf(round) + n);
      InsideMore(b, now, now', bodies[..n], bodies[n], round);
    }
  }

  // The block that ends a round of 101 delegates.
  lemma LastOfRound(q: Rota, b: Books, now: Books, bodies: seq<Body>, body: Body, round: nat)
    requires round >= 1 && |bodies| == DELEGATES - 1 && Inside(b, now, bodies, round)
    requires |q.arrange(now.bookkeeper, DELEGATES * round)| == DELEGATES
    ensures var pot := R.Pot(AllFees(bodies + [body]), AllRewards(bodies + [body]));
            && EndsRound(DELEGATES * round) && FullPot(now, body, DELEGATES * round) == pot
            && PaidAt(q, now, body, DELEGATES * round) == pot.fee + pot.reward - Unpaid(pot)
    ensures forall r: nat | r > round :: R.PotOf(PotsAfter(now, body, DELEGATES * round), r) == R.PotOf(b.pots, r)
  {
    RoundHeights(DELEGATES * round, round);
    InRound(round, 0);
    assert (bodies + [body])[..|bodies|] == bodies;
    assert |Forgers(now, body.delegate)| == DELEGATES;
    R.PayoutExact(AllFees(bodies + [body]));
    R.PayoutExact(AllRewards(bodies + [body]));
  }

  // Books between two rounds: no fees or rewards of the later ones yet.
  ghost predicate Between(b: Books, round: nat) {
    forall r: nat | r >= round :: R.PotOf(b.pots, r) == R.Pot(0, 0)
  }

  // A whole round.
  lemma WholeRound(f: Step<Books, Body>, q: Rota, b: Books, bodies: seq<Body>, round: nat)
    requires round >= 1 && |bodies| == DELEGATES && Between(b, round) && KeepsBooks(f)
    requires Fold(f, b, bodies, FirstOf(round)).1 && |q.arrange(b.bookkeeper, DELEGATES * round)| == DELEGATES
    ensures Between(Fold(f, b, bodies, FirstOf(round)).0, round + 1)
    ensures SumOver(f, UnpaidAt(), b, bodies, FirstOf(round)) == Unpaid(R.Pot(AllFees(bodies), AllRewards(bodies)))
    ensures SumOver(f, PayoutAt(q), b, bodies, FirstOf(round))
            == AllFees(bodies) + AllRewards(bodies) - SumOver(f, UnpaidAt(), b, bodies, FirstOf(round))
  {
    var n := DELEGATES - 1;
    assert bodies[..n] + [bodies[n]] == bodies;
    InsideRun(f, q, b, bodies[..n], round);
    var now := Fold(f, b, bodies[..n], FirstOf(round)).0;
    assert FirstOf(round) + n == DELEGATES * round;
    LastOfRound(q, b, now, bodies[..n], bodies[n], round);
  }

  /** A whole round of 101 delegates pays the fees and rewards of its blocks, all but twice what 101 does not divide:
      the coins grow by the rewards and by what unlocks append, less that. */
  lemma RoundCoins(c: Checks, q: Rota, b: Books, bodies: seq<Body>, round: nat)
    requires Valid(b.state) && round >= 1 && |bodies| == DELEGATES && Between(b, round)
    requires AppliedBlocks(c, q, b, bodies, FirstOf(round)).1
             && |q.arrange(b.bookkeeper, DELEGATES * round)| == DELEGATES
    ensures Total(AppliedBlocks(c, q, b, bodies, FirstOf(round)).0.state.view)
            == Total(b.state.view) + AllRewards(bodies) + SurplusOf(c, q, b, bodies, FirstOf(round))
               - Unpaid(R.Pot(AllFees(bodies), AllRewards(bodies)))
  {
    BlocksKeepBooks(c, q);
    WholeRound(BlockStep(c, q), q, b, bodies, round);
    RunCoins(c, q, b, bodies, FirstOf(round));
  }

  // In each of the rounds of a run from height 1 the list has 101 delegates when the round ends.
  ghost predicate FullLists(f: Step<Books, Body>, q: Rota, b: Books, bodies: seq<Body>, rounds: nat)
    requires |bodies| == DELEGATES * rounds
  {
    forall k: nat | k < rounds ::
      |q.arrange(Fold(f, b, bodies[..DELEGATES * k], 1).0.bookkeeper, DELEGATES * (k + 1))| == DELEGATES
  }

  lemma {:induction false} AllRewardsSplit(bodies: seq<Body>, k: nat)
    requires k <= |bodies|
    ensures AllRewards(bodies) == AllRewards(bodies[..k]) + AllRewards(bodies[k..])
    ensures AllFees(bodies) == AllFees(bodies[..k]) + AllFees(bodies[k..])
    decreases |bodies|
  {
    var n := |bodies| - 1;
    if k == |bodies| {
      assert bodies[..k] == bodies && bodies[k..] == [];
    } else {
      AllRewardsSplit(bodies[..n], k);
      assert bodies[..n][..k] == bodies[..k] && bodies[..n][k..] == bodies[k..][..n - k]
             && bodies[k..][n - k] == bodies[n];
    }
  }

  lemma ListsBefore(f: Step<Books, Body>, q: Rota, b: Books, bodies: seq<Body>, rounds: nat)
    requires rounds >= 1 && |bodies| == DELEGATES * rounds && FullLists(f, q, b, bodies, rounds)
    ensures var k := DELEGATES * (rounds - 1);
            && FullLists(f, q, b, bodies[..k], rounds - 1)
            && |q.arrange(Fold(f, b, bodies[..k], 1).0.bookkeeper, DELEGATES * rounds)| == DELEGATES
  {
    var k := DELEGATES * (rounds - 1);
    forall j: nat | j < rounds - 1
      ensures |q.arrange(Fold(f, b, bodies[..k][..DELEGATES * j], 1).0.bookkeeper, DELEGATES * (j + 1))| == DELEGATES
    {
      assert bodies[..k][..DELEGATES * j] == bodies[..DELEGATES * j];
    }
  }

  // Whole rounds from height 1 on.
  lemma {:induction false} WholeRounds(f: Step<Books, Body>, q: Rota, b: Books, bodies: seq<Body>, rounds: nat)
    requires |bodies| == DELEGATES * rounds && Between(b, 1) && KeepsBooks(f)
    requires Fold(f, b, bodies, 1).1 && FullLists(f, q, b, bodies, rounds)
    ensures Between(Fold(f, b, bodies, 1).0, rounds + 1)
    ensures SumOver(f, PayoutAt(q), b, bodies, 1)
            == AllFees(bodies) + AllRewards(bodies) - SumOver(f, UnpaidAt(), b, bodies, 1)
    decreases rounds
  {
    if rounds == 0 {
    } else {
      var k := DELEGATES * (rounds - 1);
      FoldSplit(f, b, bodies, k, 1);
      SumSplit(f, PayoutAt(q), b, bodies, k, 1);
      SumSplit(f, UnpaidAt(), b, bodies, k, 1);
      AllRewardsSplit(bodies, k);
      ListsBefore(f, q, b, bodies, rounds);
      WholeRounds(f, q, b, bodies[..k], rounds - 1);
      WholeRound(f, q, Fold(f, b, bodies[..k], 1).0, bodies[k..], rounds);
    }
  }

  // Each block has the reward its height is due.
  predicate Due(s: Supplies.Schedule, bodies: seq<Body>)
    requires Supplies.Proper(s)
  {
    forall i | 0 <= i < |bodies| :: bodies[i].reward == Supplies.CalculateReward(s, 1 + i)
  }

  lemma {:induction false} DueRewards(s: Supplies.Schedule, bodies: seq<Body>)
    requires Supplies.Proper(s) && Due(s, bodies)
    ensures Supplies.CalculateReward(s, 0) + AllRewards(bodies) == Supplies.RewardSum(s, |bodies| + 1)
  {
    if bodies == [] {
      assert Supplies.RewardSum(s, 1) == Supplies.RewardSum(s, 0) + Supplies.CalculateReward(s, 0);
    } else {
      DueRewards(s, bodies[..|bodies| - 1]);
    }
  }

  /** After any number of whole rounds of 101 delegates the coins have grown by the rewards of all heights, as the
      supply counts them, and by what unlocks append, less what the rounds left unpaid. */
  lemma SupplyKept(c: Checks, q: Rota, s: Supplies.Schedule, b: Books, bodies: seq<Body>, rounds: nat)
    requires Supplies.Proper(s) && Valid(b.state) && |bodies| == DELEGATES * rounds && Between(b, 1) && Due(s, bodies)
    requires AppliedBlocks(c, q, b, bodies, 1).1 && FullLists(BlockStep(c, q), q, b, bodies, rounds)
    ensures Total(AppliedBlocks(c, q, b, bodies, 1).0.state.view)
            == Total(b.state.view) + Supplies.RewardSum(s, DELEGATES * rounds + 1) - Supplies.CalculateReward(s, 0)
               + SurplusOf(c, q, b, bodies, 1) - UnpaidOf(c, q, b, bodies, 1)
  {
    BlocksKeepBooks(c, q);
    WholeRounds(BlockStep(c, q), q, b, bodies, rounds);
    RunCoins(c, q, b, bodies, 1);
    DueRewards(s, bodies);
  }
}
