/** The fee and reward pots of a round and how they are paid out. */
module Rounds {
  import opened Rows
  import opened Slots
  import opened Sequences
  import opened Sums
  import opened Arithmetic

  datatype Pot = Pot(fee: nat, reward: nat)

  datatype Delegate = Delegate(producedBlocks: int, missedBlocks: int, fees: int, rewards: int)

  // The part of a block a round is about.
  datatype Forged = Forged(delegate: string, fee: nat, reward: nat)

  function PotOf(pots: map<nat, Pot>, round: nat): Pot {
    if round in pots then pots[round] else Pot(0, 0)
  }

  function Added(pots: map<nat, Pot>, round: nat, b: Forged): map<nat, Pot> {
    var p := PotOf(pots, round);
    pots[round := Pot(p.fee + b.fee, p.reward + b.reward)]
  }

  /** The pots after blocks; the first of them has height 1. */
  function Pots(blocks: seq<Forged>): map<nat, Pot> {
    if blocks == [] then map[]
    else Added(Pots(blocks[..|blocks| - 1]), CalculateRound(|blocks|), blocks[|blocks| - 1])
  }

  // Fees and rewards of the blocks with heights above lo, up to hi.
  function Between(blocks: seq<Forged>, lo: nat, hi: nat): Pot
    requires hi <= |blocks|
    decreases hi
  {
    if hi <= lo then Pot(0, 0)
    else
      var p := Between(blocks, lo, hi - 1);
      Pot(p.fee + blocks[hi - 1].fee, p.reward + blocks[hi - 1].reward)
  }

  lemma {:induction false} BetweenPrefix(blocks: seq<Forged>, lo: nat, hi: nat, n: nat)
    requires hi <= n <= |blocks|
    ensures Between(blocks[..n], lo, hi) == Between(blocks, lo, hi)
    decreases hi
  {
    if hi <= lo {
    } else {
      BetweenPrefix(blocks, lo, hi - 1, n);
    }
  }

  function Least(a: nat, b: nat): nat {
    if a < b then a else b
  }

  /** The pot of a round is the fees and rewards of exactly its heights, from 101(r-1)+1 to 101r, as far as they
      exist. */
  lemma {:induction false} PotIsRound(blocks: seq<Forged>, round: nat)
    requires round >= 1
    ensures PotOf(Pots(blocks), round) == Between(blocks, DELEGATES * (round - 1), Least(DELEGATES * round, |blocks|))
  {
    if blocks == [] {
    } else {
      var h := |blocks|;
      var lo, hi := DELEGATES * (round - 1), DELEGATES * round;
      PotIsRound(blocks[..h - 1], round);
      BetweenPrefix(blocks, lo, Least(hi, h - 1), h - 1);
      assert CalculateRound(h) == round <==> lo < h <= hi by { RoundHeights(h, round); }
      if lo < h <= hi {
        assert Between(blocks, lo, h) == Pot(Between(blocks, lo, h - 1).fee + blocks[h - 1].fee,
                                             Between(blocks, lo, h - 1).reward + blocks[h - 1].reward);
      } else {
        assert PotOf(Pots(blocks), round) == PotOf(Pots(blocks[..h - 1]), round);
      }
    }
  }

  /******* Payout *******/

  // What is paid out of a pot: an even share for each of the forged blocks, and the remainder as the code computes it.
  function Payout(pot: nat, delegates: nat, forged: nat): int
    requires delegates > 0
  {
    forged * (pot / delegates) + (pot / delegates * delegates - pot)
  }

  /** The remainder has the wrong sign: with 101 delegates and forged blocks the pot less twice its remainder is paid.
      All of it is paid exactly when the number of delegates divides it. */
  lemma PayoutExact(pot: nat)
    ensures Payout(pot, DELEGATES, DELEGATES) == pot - 2 * (pot % DELEGATES)
    ensures Payout(pot, DELEGATES, DELEGATES) == pot <==> pot % DELEGATES == 0
  {
  }

  // With fewer delegates than forged blocks.
  lemma PayoutGeneral(pot: nat, delegates: nat, forged: nat)
    requires delegates > 0
    ensures Payout(pot, delegates, forged) == forged * (pot / delegates) - pot % delegates
  {
    assert pot == delegates * (pot / delegates) + pot % delegates;
  }

  ghost function Total(gny: map<string, int>): int {
    Sum(gny.Keys, a => if a in gny then gny[a] else 0)
  }

  lemma TotalChange(gny: map<string, int>, key: string, amount: int)
    requires key in gny
    ensures Total(gny[key := gny[key] + amount]) == Total(gny) + amount
  {
    var gny' := gny[key := gny[key] + amount];
    assert gny'.Keys == gny.Keys;
    SumChange(gny.Keys, a => if a in gny then gny[a] else 0, a => if a in gny' then gny'[a] else 0, key);
  }

  // The missed blocks counted for the delegates that forged none.
  function Missed(delegates: map<string, Delegate>, missing: set<string>): map<string, Delegate> {
    map d | d in delegates :: if d in missing then delegates[d].(missedBlocks := delegates[d].missedBlocks + 1)
        else delegates[d]
  }

  // One more block produced by the forger, one more missed by the missing.
  predicate Counted(a: map<string, Delegate>, b: map<string, Delegate>, forger: string, missing: set<string>) {
    a.Keys == b.Keys && forall d | d in a ::
      && b[d].producedBlocks == a[d].producedBlocks + (if d == forger then 1 else 0)
      && b[d].missedBlocks == a[d].missedBlocks + (if d in missing then 1 else 0)
  }

  // One block produced, some missed, and payments noted.
  lemma CountedUp(a: map<string, Delegate>, produced: map<string, Delegate>, b: map<string, Delegate>, forger: string,
                  missing: set<string>)
    requires forger in a && produced == a[forger := a[forger].(producedBlocks := a[forger].producedBlocks + 1)]
    requires SameCounts(Missed(produced, missing), b)
    ensures Counted(a, b, forger, missing) && SamePay(a, produced)
  {
  }

  /** At the end of a round 101 delegates are paid, of the fees and the rewards of exactly its 101 blocks, all but twice
      what 101 does not divide. */
  lemma RoundPays(blocks: seq<Forged>, round: nat, gny: map<string, int>, forgedDelegates: seq<string>)
    requires round >= 1 && |blocks| == DELEGATES * round && |forgedDelegates| == DELEGATES
    requires forall k | k in forgedDelegates :: k in gny
    ensures var pot := Between(blocks, DELEGATES * (round - 1), |blocks|);
            && CalculateRound(|blocks|) == round && PotOf(Pots(blocks), round) == pot
            && Total(PaidOut(gny, pot, DELEGATES, forgedDelegates, forgedDelegates[DELEGATES - 1]))
               == Total(gny) + pot.fee + pot.reward - 2 * (pot.fee % DELEGATES) - 2 * (pot.reward % DELEGATES)
  {
    var pot := Between(blocks, DELEGATES * (round - 1), |blocks|);
    PotIsRound(blocks, round);
    RoundHeights(|blocks|, round);
    PaidOutTotal(gny, pot, DELEGATES, forgedDelegates, forgedDelegates[DELEGATES - 1]);
    PayoutExact(pot.fee);
    PayoutExact(pot.reward);
  }

  class RoundBook {
    // Pots by round, delegate rows and account balances by public key.
    var pots: map<nat, Pot>
    var delegates: map<string, Delegate>
    var gny: map<string, int>

    /** Applies a block of a height above 0. `list` is the round's delegates, `earlier` the delegates of the 100 blocks
        before. False is the error of a missing row or an empty list. */
    method ApplyRound(height: nat, block: Forged, list: seq<string>, earlier: seq<string>) returns (ok: bool)
      requires height > 0 && Distinct(list)
      modifies this
      ensures ok <==>
                && block.delegate in old(delegates)
                && (height % DELEGATES == 0 ==>
                      && list != []
                      && (forall d | d in list && d !in earlier + [block.delegate] :: d in old(delegates))
                      && (forall d | d in earlier + [block.delegate] :: d in old(delegates) && d in old(gny)))
      ensures ok ==> pots == Added(old(pots), CalculateRound(height), block)
      ensures ok ==> Counted(old(delegates), delegates, block.delegate,
                             if height % DELEGATES == 0 then set d | d in list && d !in earlier + [block.delegate]
                             else {})
      ensures ok && height % DELEGATES != 0 ==> gny == old(gny) && SamePay(old(delegates), delegates)
      ensures ok && height % DELEGATES == 0 ==>
                var pot, forged := PotOf(pots, CalculateRound(height)), earlier + [block.delegate];
                && gny == PaidOut(old(gny), pot, |list|, forged, block.delegate)
                && Noted(old(delegates), delegates, pot, |list|, forged, block.delegate)
    {
      if block.delegate !in delegates {
        return false;
      }
      var d := delegates[block.delegate];
      delegates := delegates[block.delegate := d.(producedBlocks := d.producedBlocks + 1)];
      var round := CalculateRound(height);
      var pot := IncreaseRoundData(round, block);
      ghost var produced := delegates;
      if height % DELEGATES != 0 {
        CountedUp(old(delegates), produced, delegates, block.delegate, {});
        return true;
      }
      if list == [] {
        return false;
      }
      ok := EndRound(pot, list, earlier + [block.delegate], block.delegate);
      if ok {
        CountedUp(old(delegates), produced, delegates, block.delegate,
                  set d | d in list && d !in earlier + [block.delegate]);
      }
    }

    // The last part of a round's last block.
    method EndRound(pot: Pot, list: seq<string>, forgedDelegates: seq<string>, last: string) returns (ok: bool)
      requires list != [] && last in forgedDelegates
      requires Distinct(list)
      modifies this`delegates, this`gny
      ensures ok <==>
                && (forall d | d in list && d !in forgedDelegates :: d in old(delegates))
                && (forall d | d in forgedDelegates :: d in old(delegates) && d in old(gny))
      ensures ok ==> gny == PaidOut(old(gny), pot, |list|, forgedDelegates, last)
      ensures ok ==> SameCounts(Missed(old(delegates), set d | d in list && d !in forgedDelegates), delegates)
      ensures ok ==> Noted(old(delegates), delegates, pot, |list|, forgedDelegates, last)
    {
      ok := CountMissed(list, forgedDelegates);
      if ok {
        ok := PayOut(pot, list, forgedDelegates, last);
      }
    }

    method IncreaseRoundData(round: nat, block: Forged) returns (pot: Pot)
      modifies this`pots
      ensures pots == Added(old(pots), round, block) && pot == PotOf(pots, round)
    {
      if round !in pots {
        pots := pots[round := Pot(0, 0)];
      }
      pots := pots[round := Pot(pots[round].fee + block.fee, pots[round].reward + block.reward)];
      pot := pots[round];
    }

    method CountMissed(list: seq<string>, forgedDelegates: seq<string>) returns (ok: bool)
      requires Distinct(list)
      modifies this`delegates
      ensures ok <==> forall d | d in list && d !in forgedDelegates :: d in old(delegates)
      ensures ok ==> delegates == Missed(old(delegates), set d | d in list && d !in forgedDelegates)
      ensures delegates.Keys == old(delegates).Keys
    {
      var i := 0;
      while i < |list|
        invariant 0 <= i <= |list|
        invariant delegates == Missed(old(delegates), set d | d in list[..i] && d !in forgedDelegates)
        invariant forall d | d in list[..i] && d !in forgedDelegates :: d in old(delegates)
      {
        assert list[..i + 1] == list[..i] + [list[i]];
        assert list[i] !in list[..i];
        if list[i] !in forgedDelegates {
          if list[i] !in delegates {
            return false;
          }
          var d := delegates[list[i]];
          delegates := delegates[list[i] := d.(missedBlocks := d.missedBlocks + 1)];
        }
        i := i + 1;
      }
      assert list[..i] == list;
      ok := true;
    }

    // Credits one delegate.
    method UpdateDelegate(publicKey: string, fee: int, reward: int) returns (ok: bool)
      modifies this`delegates, this`gny
      ensures ok <==> publicKey in old(delegates) && publicKey in old(gny)
      ensures ok ==> delegates == Rewarded(old(delegates), [publicKey], fee, reward)
      ensures ok ==> gny == Credited(old(gny), [publicKey], fee + reward)
    {
      ok := publicKey in delegates && publicKey in gny;
      if ok {
        var d := delegates[publicKey];
        assert [publicKey][..0] == [];
        delegates := delegates[publicKey := d.(fees := d.fees + fee, rewards := d.rewards + reward)];
        gny := gny[publicKey := gny[publicKey] + (fee + reward)];
      }
    }

    // Equal shares, one for each forged block.
    method ShareOut(forgedDelegates: seq<string>, fee: int, reward: int) returns (ok: bool)
      modifies this`delegates, this`gny
      ensures ok <==> forall k | k in forgedDelegates :: k in old(delegates) && k in old(gny)
      ensures ok ==> delegates == Rewarded(old(delegates), forgedDelegates, fee, reward)
      ensures ok ==> gny == Credited(old(gny), forgedDelegates, fee + reward)
    {
      ok := true;
      for i := 0 to |forgedDelegates|
        invariant ok && forall k | k in forgedDelegates[..i] :: k in old(delegates) && k in old(gny)
        invariant delegates == Rewarded(old(delegates), forgedDelegates[..i], fee, reward)
        invariant gny == Credited(old(gny), forgedDelegates[..i], fee + reward)
      {
        CreditedSnoc(old(gny), forgedDelegates[..i], forgedDelegates[i], fee + reward);
        RewardedSnoc(old(delegates), forgedDelegates[..i], forgedDelegates[i], fee, reward);
        assert forgedDelegates[..i + 1] == forgedDelegates[..i] + [forgedDelegates[i]];
        ok := UpdateDelegate(forgedDelegates[i], fee, reward);
        if !ok {
          return;
        }
      }
      assert forgedDelegates[..|forgedDelegates|] == forgedDelegates;
    }

    method PayOut(pot: Pot, list: seq<string>, forgedDelegates: seq<string>, last: string) returns (ok: bool)
      requires list != [] && last in forgedDelegates
      modifies this`delegates, this`gny
      ensures ok <==> forall k | k in forgedDelegates :: k in old(delegates) && k in old(gny)
      ensures ok ==> gny == PaidOut(old(gny), pot, |list|, forgedDelegates, last)
      ensures ok ==> SameCounts(old(delegates), delegates)
      ensures ok ==> Noted(old(delegates), delegates, pot, |list|, forgedDelegates, last)
    {
      var n := |list|;
      var feeAverage, rewardAverage := pot.fee / n, pot.reward / n;
      var feeRemainder, rewardRemainder := feeAverage * n - pot.fee, rewardAverage * n - pot.reward;
      ok := ShareOut(forgedDelegates, feeAverage, rewardAverage);
      if ok {
        ok := UpdateDelegate(last, feeRemainder, rewardRemainder);
        assert ok && gny == PaidOut(old(gny), pot, n, forgedDelegates, last);
        assert delegates == PaidRows(old(delegates), pot, n, forgedDelegates, last);
        GainsAt(old(delegates), pot, n, forgedDelegates, last);
      }
    }
  }

  // What a delegate gains from a pot: a share for each block it forged, and the last forger the remainder.
  function Gain(pot: nat, n: nat, forgedDelegates: seq<string>, last: string, key: string): int
    requires n > 0
  {
    multiset(forgedDelegates)[key] * (pot / n) + (if key == last then pot / n * n - pot else 0)
  }

  // Neither produced nor missed blocks change.
  predicate SameCounts(a: map<string, Delegate>, b: map<string, Delegate>) {
    && a.Keys == b.Keys
    && forall d | d in a :: b[d].producedBlocks == a[d].producedBlocks && b[d].missedBlocks == a[d].missedBlocks
  }

  // The rows note what each delegate gains from a pot.
  predicate Noted(a: map<string, Delegate>, b: map<string, Delegate>, pot: Pot, n: nat, forgedDelegates: seq<string>,
                  last: string)
    requires n > 0
  {
    && a.Keys == b.Keys
    && forall d | d in a ::
         && b[d].fees == a[d].fees + Gain(pot.fee, n, forgedDelegates, last, d)
         && b[d].rewards == a[d].rewards + Gain(pot.reward, n, forgedDelegates, last, d)
  }

  predicate SamePay(a: map<string, Delegate>, b: map<string, Delegate>) {
    a.Keys == b.Keys && forall d | d in a :: b[d].fees == a[d].fees && b[d].rewards == a[d].rewards
  }

  // Notes amounts in the row of each delegate in turn.
  function Rewarded(ds: map<string, Delegate>, keys: seq<string>, fee: int, reward: int): (r: map<string, Delegate>)
    ensures r.Keys == ds.Keys
  {
    if keys == [] then ds
    else
      var before, last := Rewarded(ds, keys[..|keys| - 1], fee, reward), keys[|keys| - 1];
      if last in before
      then before[last := before[last].(fees := before[last].fees + fee, rewards := before[last].rewards + reward)]
      else before
  }

  lemma RewardedSnoc(ds: map<string, Delegate>, keys: seq<string>, key: string, fee: int, reward: int)
    ensures Rewarded(ds, keys + [key], fee, reward) == Rewarded(Rewarded(ds, keys, fee, reward), [key], fee, reward)
  {
    assert (keys + [key])[..|keys|] == keys;
    assert [key][..0] == [];
  }

  /** Each delegate's row gets the share for each block it forged; the counts stay. */
  lemma {:induction false} RewardedAt(ds: map<string, Delegate>, keys: seq<string>, fee: int, reward: int, k: string)
    requires k in ds
    ensures Rewarded(ds, keys, fee, reward)[k]
            == ds[k].(fees := ds[k].fees + multiset(keys)[k] * fee,
                      rewards := ds[k].rewards + multiset(keys)[k] * reward)
  {
    if keys == [] {
    } else {
      var n := |keys| - 1;
      RewardedAt(ds, keys[..n], fee, reward, k);
      assert keys == keys[..n] + [keys[n]];
      ShareOnce(multiset(keys[..n])[k], fee);
      ShareOnce(multiset(keys[..n])[k], reward);
    }
  }

  // The rows after a payout.
  function PaidRows(ds: map<string, Delegate>, pot: Pot, n: nat, forgedDelegates: seq<string>, last: string)
    : map<string, Delegate>
    requires n > 0
  {
    Rewarded(Rewarded(ds, forgedDelegates, pot.fee / n, pot.reward / n), [last],
             pot.fee / n * n - pot.fee, pot.reward / n * n - pot.reward)
  }

  lemma GainsAt(ds: map<string, Delegate>, pot: Pot, n: nat, forgedDelegates: seq<string>, last: string)
    requires n > 0
    ensures var paid := PaidRows(ds, pot, n, forgedDelegates, last);
            SameCounts(ds, paid) && Noted(ds, paid, pot, n, forgedDelegates, last)
  {
    var fee, reward := pot.fee / n, pot.reward / n;
    var shared := Rewarded(ds, forgedDelegates, fee, reward);
    forall d | d in ds
      ensures PaidRows(ds, pot, n, forgedDelegates, last)[d]
              == ds[d].(fees := ds[d].fees + Gain(pot.fee, n, forgedDelegates, last, d),
                        rewards := ds[d].rewards + Gain(pot.reward, n, forgedDelegates, last, d))
    {
      RewardedAt(ds, forgedDelegates, fee, reward, d);
      RewardedOnce(shared, last, fee * n - pot.fee, reward * n - pot.reward, d);
    }
  }

  lemma RewardedOnce(ds: map<string, Delegate>, key: string, fee: int, reward: int, d: string)
    requires d in ds
    ensures Rewarded(ds, [key], fee, reward)[d]
            == if d == key then ds[d].(fees := ds[d].fees + fee, rewards := ds[d].rewards + reward) else ds[d]
  {
    assert [key][..0] == [];
  }

  /** A payout adds to each forger's balance just what it notes as its fees and rewards. */
  lemma PaidIsNoted(gny: map<string, int>, pot: Pot, n: nat, forgedDelegates: seq<string>, last: string, k: string)
    requires n > 0 && k in gny
    ensures PaidOut(gny, pot, n, forgedDelegates, last)[k]
            == gny[k] + Gain(pot.fee, n, forgedDelegates, last, k) + Gain(pot.reward, n, forgedDelegates, last, k)
  {
    var fee, reward := pot.fee / n, pot.reward / n;
    var shared := Credited(gny, forgedDelegates, fee + reward);
    CreditedAt(gny, forgedDelegates, fee + reward, k);
    SharesSplit(multiset(forgedDelegates)[k], fee, reward);
    CreditedOnce(shared, last, fee * n - pot.fee + (reward * n - pot.reward), k);
  }

  lemma CreditedOnce(gny: map<string, int>, key: string, amount: int, k: string)
    requires k in gny
    ensures Credited(gny, [key], amount)[k] == gny[k] + if k == key then amount else 0
  {
    assert [key][..0] == [];
  }

  // Adds an amount to the balance of each key in turn.
  function Credited(gny: map<string, int>, keys: seq<string>, amount: int): (r: map<string, int>)
    ensures r.Keys == gny.Keys
  {
    if keys == [] then gny
    else
      var before, last := Credited(gny, keys[..|keys| - 1], amount), keys[|keys| - 1];
      if last in before then before[last := before[last] + amount] else before
  }

  lemma CreditedSnoc(gny: map<string, int>, keys: seq<string>, key: string, amount: int)
    ensures Credited(gny, keys + [key], amount) == Credited(Credited(gny, keys, amount), [key], amount)
  {
    assert (keys + [key])[..|keys|] == keys;
    assert [key][..0] == [];
  }

  /** Each account gets a share for each block it forged. */
  lemma {:induction false} CreditedAt(gny: map<string, int>, keys: seq<string>, amount: int, k: string)
    requires k in gny
    ensures Credited(gny, keys, amount)[k] == gny[k] + multiset(keys)[k] * amount
  {
    if keys == [] {
    } else {
      var n := |keys| - 1;
      CreditedAt(gny, keys[..n], amount, k);
      assert keys == keys[..n] + [keys[n]];
      ShareOnce(multiset(keys[..n])[k], amount);
    }
  }

  lemma {:induction false} CreditedTotal(gny: map<string, int>, keys: seq<string>, amount: int)
    requires forall k | k in keys :: k in gny
    ensures Total(Credited(gny, keys, amount)) == Total(gny) + |keys| * amount
  {
    if keys == [] {
    } else {
      var n := |keys| - 1;
      CreditedTotal(gny, keys[..n], amount);
      assert keys[n] in keys;
      TotalChange(Credited(gny, keys[..n], amount), keys[n], amount);
      ShareOnce(n, amount);
    }
  }

  // The balances after a payout.
  function PaidOut(gny: map<string, int>, pot: Pot, n: nat, forgedDelegates: seq<string>,
                   last: string): map<string, int>
    requires n > 0
  {
    Credited(Credited(gny, forgedDelegates, pot.fee / n + pot.reward / n), [last],
             pot.fee / n * n - pot.fee + (pot.reward / n * n - pot.reward))
  }

  /** What a payout adds to all balances. */
  lemma PaidOutTotal(gny: map<string, int>, pot: Pot, n: nat, forgedDelegates: seq<string>, last: string)
    requires n > 0
    requires last in gny && forall k | k in forgedDelegates :: k in gny
    ensures Total(PaidOut(gny, pot, n, forgedDelegates, last))
            == Total(gny) + Payout(pot.fee, n, |forgedDelegates|) + Payout(pot.reward, n, |forgedDelegates|)
  {
    var shared := Credited(gny, forgedDelegates, pot.fee / n + pot.reward / n);
    CreditedTotal(gny, forgedDelegates, pot.fee / n + pot.reward / n);
    CreditedTotal(shared, [last], pot.fee / n * n - pot.fee + (pot.reward / n * n - pot.reward));
    SharesSplit(|forgedDelegates|, pot.fee / n, pot.reward / n);
  }

  lemma ShareOnce(i: nat, share: int)
    ensures (i + 1) * share == i * share + share
  {
  }

  lemma SharesSplit(n: nat, a: int, b: int)
    ensures n * (a + b) == n * a + n * b
  {
  }
}
