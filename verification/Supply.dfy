/** The reward schedule and the coin supply it leads to. */
module Supplies {
  import opened Arithmetic

  const INITIAL_AMOUNT: nat := 40000000000000000

  datatype Schedule = Schedule(milestones: seq<nat>, offset: nat, distance: nat)

  const MAIN_SCHEDULE := Schedule([200000000, 150000000, 100000000, 50000000], 2160, 3000000)

  predicate Proper(s: Schedule) {
    |s.milestones| > 0 && s.distance > 0
  }

  function Abs(x: int): nat {
    if x < 0 then -x else x
  }

  // `dividedToIntegerBy` cuts towards zero.
  function DivToInteger(a: int, b: nat): int
    requires b > 0
  {
    if a < 0 then -((-a) / b) else a / b
  }

  function LastIndexOf(m: seq<nat>, x: nat): int {
    if m == [] then -1 else if m[|m| - 1] == x then |m| - 1 else LastIndexOf(m[..|m| - 1], x)
  }

  function CalculateMilestone(s: Schedule, height: int): int
    requires Proper(s)
  {
    var location := DivToInteger(Abs(height) - s.offset, s.distance);
    if location > |s.milestones| - 1 then LastIndexOf(s.milestones, s.milestones[|s.milestones| - 1]) else Abs(location)
  }

  lemma MilestoneInRange(s: Schedule, height: int)
    requires Proper(s) && Abs(height) >= s.offset
    ensures 0 <= CalculateMilestone(s, height) < |s.milestones|
  {
  }

  function CalculateReward(s: Schedule, height: int): nat
    requires Proper(s)
  {
    if Abs(height) < s.offset then 0
    else
      MilestoneInRange(s, height);
      s.milestones[CalculateMilestone(s, height)]
  }

  /** The rewards of the first `count` heights, from 0. */
  function RewardSum(s: Schedule, count: nat): nat
    requires Proper(s)
  {
    if count == 0 then 0 else RewardSum(s, count - 1) + CalculateReward(s, count - 1)
  }

  // The rewards of the first `n` rewarded heights.
  function RewardedSum(s: Schedule, n: nat): nat
    requires Proper(s)
  {
    if n == 0 then 0 else RewardedSum(s, n - 1) + s.milestones[Milestone(s, n - 1)]
  }

  // The milestone of the rewarded height number n.
  function Milestone(s: Schedule, n: nat): nat
    requires Proper(s)
    ensures Milestone(s, n) < |s.milestones|
  {
    var i := n / s.distance;
    if i > |s.milestones| - 1 then |s.milestones| - 1 else i
  }

  lemma {:induction false} RewardsSplit(s: Schedule, count: nat)
    requires Proper(s)
    ensures RewardSum(s, count) == if count <= s.offset then 0 else RewardedSum(s, count - s.offset)
  {
    if count == 0 {
    } else {
      RewardsSplit(s, count - 1);
    }
  }

  // A stretch of heights that all have milestone i.
  lemma {:induction false} Stretch(s: Schedule, i: nat, from: nat, n: nat)
    requires Proper(s) && i < |s.milestones|
    requires forall k | from <= k < from + n :: Milestone(s, k) == i
    ensures RewardedSum(s, from + n) == RewardedSum(s, from) + n * s.milestones[i]
  {
    if n == 0 {
    } else {
      var m := s.milestones[i];
      assert RewardedSum(s, from + n) == RewardedSum(s, from + n - 1) + m by {
        assert Milestone(s, from + n - 1) == i;
      }
      Stretch(s, i, from, n - 1);
      assert n * m == (n - 1) * m + m;
    }
  }

  /** What round i of the loop adds: the rewarded heights of milestone i. */
  lemma OneMilestone(s: Schedule, i: nat, n: nat)
    requires Proper(s) && i < |s.milestones| && (i < |s.milestones| - 1 ==> n <= s.distance)
    ensures RewardedSum(s, s.distance * i + n) == RewardedSum(s, s.distance * i) + n * s.milestones[i]
  {
    forall k | s.distance * i <= k < s.distance * i + n
      ensures Milestone(s, k) == i
    {
      if i < |s.milestones| - 1 {
        DivUnique(k, s.distance, i, k - s.distance * i);
      } else {
        DivAtLeast(k, s.distance, i);
      }
    }
    Stretch(s, i, s.distance * i, n);
  }

  /** The supply after a height is the initial amount and the rewards of all heights up to it. */
  method CalculateSupply(s: Schedule, init: int) returns (supply: nat)
    requires Proper(s)
    ensures supply == INITIAL_AMOUNT + RewardSum(s, Abs(init) + 1)
  {
    var height: int := Abs(init);
    supply := INITIAL_AMOUNT;
    RewardsSplit(s, Abs(init) + 1);
    if height < s.offset {
      return;
    }
    var rewards := CollectRewards(s, height);
    var i := 0;
    while i < |rewards|
      invariant 0 <= i <= |rewards| && supply == INITIAL_AMOUNT + Total(rewards[..i])
    {
      assert rewards[..i + 1][..i] == rewards[..i];
      supply := supply + rewards[i].0 * rewards[i].1;
      i := i + 1;
    }
    assert rewards[..i] == rewards;
  }

  function Total(rewards: seq<(nat, nat)>): nat {
    if rewards == [] then 0 else Total(rewards[..|rewards| - 1]) + rewards[|rewards| - 1].0 * rewards[|rewards| - 1].1
  }

  lemma MilestoneBounds(s: Schedule, reached: nat)
    requires Proper(s) && reached >= s.offset
    ensures 0 <= CalculateMilestone(s, reached) < |s.milestones|
    ensures s.distance * CalculateMilestone(s, reached) <= reached - s.offset
    ensures CalculateMilestone(s, reached) < |s.milestones| - 1 ==>
              reached - s.offset < s.distance * CalculateMilestone(s, reached) + s.distance
  {
    var x := reached - s.offset;
    var location := x / s.distance;
    assert x == s.distance * location + x % s.distance;
    TimesMonotone(s.distance, CalculateMilestone(s, reached), location);
  }

  // The rewarded heights below round i of the loop.
  function Done(s: Schedule, reached: nat, i: nat): nat
    requires Proper(s) && reached >= s.offset
  {
    if i <= CalculateMilestone(s, reached) then s.distance * i else reached - s.offset + 1
  }

  // How many heights round i takes.
  lemma RoundAmount(s: Schedule, reached: nat, i: nat, amount: nat, left: nat)
    requires Proper(s) && reached >= s.offset && i <= CalculateMilestone(s, reached) < |s.milestones|
    requires left == reached - s.offset + 1 - Done(s, reached, i)
    requires amount == if i < |s.milestones| - 1 && s.distance <= left then s.distance else left
    ensures Done(s, reached, i) == s.distance * i && Done(s, reached, i + 1) == s.distance * i + amount
    ensures i < |s.milestones| - 1 ==> amount <= s.distance
    ensures i < CalculateMilestone(s, reached) ==> left > s.distance
  {
    var milestone := CalculateMilestone(s, reached);
    MilestoneBounds(s, reached);
    var start := s.distance * i;
    if i < milestone {
      TimesMonotone(s.distance, i + 1, milestone);
      assert s.distance * (i + 1) == start + s.distance;
      assert left > s.distance;
    } else {
      assert i < |s.milestones| - 1 ==> left <= s.distance;
    }
  }

  lemma RoundStep(s: Schedule, reached: nat, i: nat, amount: nat, left: nat)
    requires Proper(s) && reached >= s.offset && i <= CalculateMilestone(s, reached) < |s.milestones|
    requires left == reached - s.offset + 1 - Done(s, reached, i)
    requires amount == if i < |s.milestones| - 1 && s.distance <= left then s.distance else left
    ensures Done(s, reached, i + 1) == Done(s, reached, i) + amount
    ensures RewardedSum(s, Done(s, reached, i + 1)) == RewardedSum(s, Done(s, reached, i)) + amount * s.milestones[i]
    ensures i < CalculateMilestone(s, reached) ==> left > s.distance
  {
    RoundAmount(s, reached, i, amount, left);
    OneMilestone(s, i, amount);
  }

  lemma TotalSnoc(rewards: seq<(nat, nat)>, amount: nat, multiplier: nat)
    ensures Total(rewards + [(amount, multiplier)]) == Total(rewards) + amount * multiplier
  {
    assert (rewards + [(amount, multiplier)])[..|rewards|] == rewards;
  }

  // The first loop: amounts of heights and their multipliers.
  method CollectRewards(s: Schedule, reached: nat) returns (rewards: seq<(nat, nat)>)
    requires Proper(s) && reached >= s.offset
    ensures Total(rewards) == RewardedSum(s, reached - s.offset + 1)
  {
    var milestone := CalculateMilestone(s, reached);
    MilestoneBounds(s, reached);
    var height := reached - s.offset + 1;
    rewards := [];
    var i := 0;
    while i < |s.milestones| && milestone >= i
      invariant 0 <= i <= milestone + 1 && height >= 0
      invariant i <= milestone ==> height == reached - s.offset + 1 - Done(s, reached, i) && height > 0
      invariant Total(rewards) == RewardedSum(s, Done(s, reached, i))
    {
      ghost var left := height;
      var amount: nat;
      amount, height := Measure(s, i, height);
      RoundStep(s, reached, i, amount, left);
      TotalSnoc(rewards, amount, s.milestones[i]);
      rewards := rewards + [(amount, s.milestones[i])];
      i := i + 1;
    }
  }

  // One round of it: how many of the heights left belong to milestone i.
  method Measure(s: Schedule, i: nat, left: nat) returns (amount: nat, height: nat)
    requires Proper(s) && i < |s.milestones| && left > 0
    ensures i < |s.milestones| - 1 ==> amount == (if left < s.distance then left else s.distance)
    ensures i == |s.milestones| - 1 ==> amount == left
    ensures height == if left < s.distance then left else left - s.distance
  {
    height := left;
    if height < s.distance {
      amount := height % s.distance;
    } else {
      amount := s.distance;
      height := height - s.distance;
      if height > 0 && i == |s.milestones| - 1 {
        amount := height + amount;
      }
    }
  }
}
