/** The block database: blocks and their change histories beside the session. */
module SmartDBs {
  import opened Rows
  import opened Changes
  import opened Views
  import opened EntityTrackers
  import opened DbSessions
  import opened Heights

  // The height at which deleting blocks one by one ends: the loop compares heights as strings.
  function StopHeight(last: nat, target: nat): (stop: nat)
    requires target <= last
    ensures target <= stop <= last
  {
    if Above(last, target) && last > target then StopHeight(last - 1, target) else last
  }

  /** All blocks above the target go exactly when the last height has no more digits than the target, or the target
      is 0 or a power of ten. */
  lemma {:induction false} StopsAtTarget(last: nat, target: nat)
    requires target <= last
    ensures StopHeight(last, target) == target <==> |Decimal(last)| == |Decimal(target)| || Round(target)
  {
    StopsWhenGreater(last, target);
    AllGreater(last, target);
  }

  lemma {:induction false} StopsWhenGreater(last: nat, target: nat)
    requires target <= last
    ensures StopHeight(last, target) == target <==>
              forall h | target < h <= last :: Above(h, target)
  {
    if target == last || !Above(last, target) {
    } else {
      StopsWhenGreater(last - 1, target);
      assert (forall h | target < h <= last :: Above(h, target)) <==>
               forall h | target < h <= last - 1 :: Above(h, target);
    }
  }

  /** Rolling back one block fails just when it shortens the height: from 10 to 9, from 100 to 99, and so on. */
  lemma OneBlock(last: nat)
    requires last >= 1
    ensures StopHeight(last, last - 1) == last - 1 <==> |Decimal(last)| == |Decimal(last - 1)|
  {
    StopsAtTarget(last, last - 1);
    LengthMonotone(last - 1, last);
    if |Decimal(last)| > |Decimal(last - 1)| && Round(last - 1) {
      DecimalLength(last);
      DecimalLength(last - 1);
      PowMonotone(|Decimal(last - 1)|, |Decimal(last)| - 1);
    }
  }

  // Histories up to a lower height still lead from block to block.
  lemma ChronicleKept(s: Schemas, past: map<int, Tables>, stored: map<int, seq<Change>>, kept: map<int, seq<Change>>,
                      first: int, last: int, last': int)
    requires Chronicle(s, past, stored, first, last) && last' <= last
    requires forall h | h in stored && h <= last' :: h in kept && kept[h] == stored[h]
    ensures Chronicle(s, past, kept, first, last')
  {
    forall v | first <= v <= last'
      ensures Recorded(s, past, kept, v)
    {
      assert Recorded(s, past, stored, v);
    }
  }

  class SmartDB {
    const session: DbSession
    var lastBlockHeight: int
    var currentBlock: Option<int>
    // The block history table; the block table has the same heights.
    var stored: map<int, seq<Change>>

    // Session, cache and block tables are all at the last block.
    ghost predicate Aligned()
      reads this, session, session.tracker, session.cache
    {
      && session.Synced() && session.LocksSettled() && session.tracker.HistoryOk()
      && session.tracker.currentVersion == lastBlockHeight == session.sessionSerial
      && (forall h | h in stored :: 0 <= h <= lastBlockHeight)
    }

    // The stored histories of the blocks from a height on lead from the tables of each block to those of the next.
    ghost predicate StoredFrom(first: int)
      reads this, session, session.tracker
    {
      Chronicle(session.schemas, session.tracker.past, stored, first, lastBlockHeight)
    }

    constructor (session: DbSession)
      requires session.Synced() && session.LocksSettled() && session.tracker.HistoryOk()
      requires session.tracker.currentVersion == -1 == session.sessionSerial
      ensures this.session == session && Aligned() && StoredFrom(0) && lastBlockHeight == -1 && currentBlock.None?
    {
      this.session := session;
      lastBlockHeight := -1;
      currentBlock := None;
      stored := map[];
    }

    /** Opens a block. False is the error of a height that is not the next one. */
    method BeginBlock(height: int) returns (ok: bool)
      modifies this`currentBlock
      ensures ok <==> height == lastBlockHeight + 1
      ensures currentBlock == if ok then Some(height) else old(currentBlock)
    {
      ok := height == lastBlockHeight + 1;
      if ok {
        currentBlock := Some(height);
      }
    }

    /** Stores the open block with its changes, then the changes themselves. When the database fails in between, the
        block is deleted again. */
    method CommitBlock(outage: Option<nat>, ghost first: int) returns (ok: bool)
      requires Aligned() && session.tracker.unconfirmedChanges == [] && currentBlock == Some(lastBlockHeight + 1)
      requires StoredFrom(first)
      modifies this, session`tables, session`sessionSerial, session`unconfirmedLocks, session`confirmedLocks
      modifies session.tracker, session.cache
      ensures Aligned() && session.tracker.Pending() == [] && StoredFrom(first)
      ensures ok <==> !(outage.Some? && outage.value <= |old(session.tracker.Pending())|)
      ensures ok ==>
                && lastBlockHeight == old(lastBlockHeight) + 1 && currentBlock.None?
                && session.tables == old(session.View()) && session.Held() == {}
                && stored == old(stored)[lastBlockHeight := old(session.tracker.Pending())]
      ensures !ok ==>
                && lastBlockHeight == old(lastBlockHeight) && stored == old(stored) && currentBlock == old(currentBlock)
                && session.tables == old(session.tables)
    {
      assert session.tracker.Pending() == session.tracker.confirmedChanges;
      ChronicleExtend(session.schemas, session.tracker.past, stored, first, lastBlockHeight + 1, session.tables,
                      session.tracker.confirmedChanges);
      var height := currentBlock.value;
      AppendBlock(height);
      ok := Save(height, outage);
      if ok {
        currentBlock := None;
      } else {
        DeleteLastBlock(height);
      }
      assert !ok ==> stored == old(stored);
    }

    method AppendBlock(height: int)
      modifies this`stored, this`lastBlockHeight
      ensures stored == old(stored)[height := session.tracker.confirmedChanges]
              && lastBlockHeight == old(lastBlockHeight) + 1
    {
      stored := stored[height := session.tracker.confirmedChanges];
      lastBlockHeight := lastBlockHeight + 1;
    }

    method DeleteLastBlock(height: int)
      modifies this`stored, this`lastBlockHeight
      ensures stored == old(stored) - {height} && lastBlockHeight == old(lastBlockHeight) - 1
    {
      stored := stored - {height};
      lastBlockHeight := lastBlockHeight - 1;
    }

    // The session's part of a commit.
    method Save(height: int, outage: Option<nat>) returns (ok: bool)
      requires session.Synced() && session.LocksSettled() && session.tracker.HistoryOk()
               && session.tracker.unconfirmedChanges == []
      requires session.tracker.currentVersion == height - 1 && -1 <= height - 1
      modifies session`tables, session`sessionSerial, session`unconfirmedLocks, session`confirmedLocks
      modifies session.tracker, session.cache
      ensures session.Synced() && session.LocksSettled() && session.tracker.HistoryOk()
              && session.tracker.Pending() == []
      ensures ok <==> !(outage.Some? && outage.value <= |old(session.tracker.Pending())|)
      ensures session.tracker.past
              == if ok then old(session.tracker.past)[height - 1 := old(session.tables)][height := session.tables]
                 else old(session.tracker.past)
      ensures session.tables == if ok then old(session.View()) else old(session.tables)
      ensures session.tracker.currentVersion == (if ok then height else height - 1)
      ensures session.sessionSerial == (if ok then height else old(session.sessionSerial))
              && (ok ==> session.Held() == {})
    {
      var saved := session.SaveChanges(Some(height), outage);
      ok := saved.Some?;
    }

    /** Rolls back to a height, the last one when none is given; refused is the error of a height above the last. The
        session follows as far as it can, and the blocks go as far as the string comparison lets them. Tables, cache
        and blocks are in step again exactly for no block, or for one block whose height is not shorter and whose
        history is held. */
    method RollbackBlock(height: Option<nat>, outage: Option<nat>, ghost first: int) returns (refused: bool, ok: bool)
      requires Aligned() && StoredFrom(first) && 0 <= lastBlockHeight
      requires height.Some? ==> first <= height.value + 1
      modifies this, session`tables, session`sessionSerial, session`unconfirmedLocks, session`confirmedLocks
      modifies session.tracker, session.cache
      ensures StoredFrom(first)
      ensures refused <==> height.Some? && height.value > old(lastBlockHeight)
      ensures refused || !ok ==> session.tables == old(session.tables) && session.View() == old(session.View())
      ensures refused || !ok ==>
                lastBlockHeight == old(lastBlockHeight) && stored == old(stored) && currentBlock == old(currentBlock)
      ensures !refused && ok ==>
                var last: nat := old(lastBlockHeight);
                var target := if height.Some? then height.value else last;
                && currentBlock.None? && session.Held() == {} && session.tracker.Pending() == []
                && (target < last ==> target in session.tracker.past && session.tables == session.tracker.past[target])
                && (target == last ==> session.tables == old(session.tables))
                && lastBlockHeight == StopHeight(last, target)
                && stored == (map h | h in old(stored) && h <= lastBlockHeight :: old(stored)[h])
                && (Aligned() <==> target == last
                                   || (target + 1 == last && |Decimal(last)| == |Decimal(target)|
                                       && old(session.tracker.minVersion) < last))
    {
      refused, ok := false, true;
      if height.Some? && height.value > lastBlockHeight {
        return true, false;
      }
      var target: nat := if height.Some? then height.value else lastBlockHeight;
      if target + 1 == lastBlockHeight {
        OneBlock(lastBlockHeight);
      }
      ok := Back(target, outage);
      if ok {
        DeleteAbove(target);
        ChronicleKept(session.schemas, session.tracker.past, old(stored), stored, first, old(lastBlockHeight),
                      lastBlockHeight);
        currentBlock := None;
        assert session.sessionSerial == target;
        assert session.tracker.currentVersion == target <==> old(lastBlockHeight) <= target + 1;
      }
    }

    // The session's part of a rollback.
    method Back(target: nat, outage: Option<nat>) returns (ok: bool)
      requires Aligned() && target <= lastBlockHeight
      requires Chronicle(session.schemas, session.tracker.past, stored, target + 1, lastBlockHeight)
      modifies session`tables, session`sessionSerial, session`unconfirmedLocks, session`confirmedLocks
      modifies session.tracker, session.cache
      ensures session.tracker.past == old(session.tracker.past)
      ensures !ok ==> session.tables == old(session.tables) && session.View() == old(session.View())
      ensures ok ==>
                && session.Held() == {} && session.tracker.Pending() == []
                && (target < lastBlockHeight ==>
                    target in session.tracker.past && session.tables == session.tracker.past[target])
                && (target == lastBlockHeight ==> session.tables == old(session.tables))
                && session.sessionSerial == target
                && (session.tracker.currentVersion == target <==> lastBlockHeight <= target + 1)
                && (lastBlockHeight <= target + 1 ==> session.Synced() && session.LocksSettled())
                && (lastBlockHeight <= target + 1 ==>
                      (session.tracker.HistoryOk() <==>
                       lastBlockHeight == target || old(session.tracker.minVersion) <= target))
    {
      var serial := session.RollbackChanges(target, stored, outage);
      ok := serial.Some?;
    }

    method DeleteAbove(target: nat)
      requires target <= lastBlockHeight
      modifies this`stored, this`lastBlockHeight
      ensures lastBlockHeight == StopHeight(old(lastBlockHeight), target)
      ensures stored == map h | h in old(stored) && !(lastBlockHeight < h <= old(lastBlockHeight)) :: old(stored)[h]
    {
      while Above(lastBlockHeight, target)
        invariant target <= lastBlockHeight <= old(lastBlockHeight)
        invariant StopHeight(lastBlockHeight, target) == StopHeight(old(lastBlockHeight), target)
        invariant stored == map h | h in old(stored) && !(lastBlockHeight < h <= old(lastBlockHeight)) :: old(stored)[h]
        decreases lastBlockHeight
      {
        GreaterSelf(Decimal(target));
        DeleteLastBlock(lastBlockHeight);
      }
    }
  }
}
