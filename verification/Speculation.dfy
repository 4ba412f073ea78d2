/** What every run of tasks keeps: speculation equals re-execution, and the chain is linked. */
module Speculation {
  import opened Rows
  import opened Slots
  import opened Supplies
  import opened Votes
  import opened Nodes
  import Delegates
  import LimitCaches

  /******* Invariants *******/

  // The pending changes are the effect of the pool's transactions, in order, on the committed tables.
  ghost predicate Speculates<D, P>(r: Rules<D, P>, n: Node<D, P>) {
    RunTxs(r, n.db, r.clean(n.db), n.pool, n.last.height + 1) == Some(n.pending)
  }

  // A transaction that fails above the first block changes nothing. (In the first one it may create its sender.)
  ghost predicate Atomic<D(!new), P(!new)>(r: Rules<D, P>) {
    forall db, p, tx, height | height > 1 && !r.exec(db, p, tx, height).ok :: r.exec(db, p, tx, height).pending == p
  }

  predicate Extends<D, P>(r: Rules<D, P>, last: Block, block: Block)
    requires Proper(r.schedule)
  {
    && block.height == last.height + 1 && block.prevBlockId == r.blockId(last)
    && SlotNumber(last.timestamp) < SlotNumber(block.timestamp)
    && block.reward == CalculateReward(r.schedule, block.height)
    && block.fees == FeesOfAll(block.transactions) && block.count == |block.transactions|
  }

  // Heights are consecutive from the genesis block, ids match, slots grow, rewards and fees are right.
  ghost predicate Linked<D, P>(r: Rules<D, P>, earlier: seq<Point<D>>, last: Block)
    requires Proper(r.schedule)
  {
    if earlier == [] then last.height == 0
    else
      var p := earlier[|earlier| - 1];
      Extends(r, p.block, last) && Linked(r, earlier[..|earlier| - 1], p.block)
  }

  // Transactions with different ids, none of them confirmed.
  predicate Unconfirmed(ids: set<string>, txs: seq<Tx>) {
    DistinctIds(txs) && forall i | 0 <= i < |txs| :: txs[i].id !in ids
  }

  // The transaction table has just the transactions of the chain, and none is in it twice.
  ghost predicate Unrepeated<D>(earlier: seq<Point<D>>, last: Block, ids: set<string>) {
    if earlier == [] then DistinctIds(last.transactions) && ids == IdsOf(last.transactions)
    else
      var p := earlier[|earlier| - 1];
      && Unconfirmed(p.ids, last.transactions) && ids == p.ids + IdsOf(last.transactions)
      && Unrepeated(earlier[..|earlier| - 1], p.block, p.ids)
  }

  ghost predicate PoolOk<D, P>(r: Rules<D, P>, n: Node<D, P>) {
    && Unconfirmed(n.ids, n.pool)
    && forall i | 0 <= i < |n.pool| :: n.pool[i].id == r.txId(n.pool[i])
  }

  // Votes are collected just when a block is pending. It extends the last block, unless that was taken back; the pool
  // is still the block's transactions, unless it was dropped. None of these is confirmed.
  ghost predicate ConsensusOk<D, P>(r: Rules<D, P>, n: Node<D, P>)
    requires Proper(r.schedule)
  {
    && (n.collecting <==> n.consensus.pending.Some?)
    && (n.consensus.pendingVotes.Some? ==> n.consensus.pending.Some?)
    && (n.consensus.pending.Some? ==>
          var p := n.consensus.pending.value;
          && p.height == p.block.height && p.id == r.blockId(p.block)
          && (Extends(r, n.last, p.block) || p.height > n.last.height + 1)
          && (n.pool == p.block.transactions || n.pool == [])
          && (p.height != n.last.height + 1 ==> n.pool == [])
          && Unconfirmed(n.ids, p.block.transactions))
  }

  // Where something may be pending that is not of the pool: before the first block, when the session is behind the last
  // block, and when it has no history for it.
  predicate Odd<D, P>(n: Node<D, P>) {
    n.last.height <= 0 || n.behind || n.last.height < n.lowest
  }

  // The transaction table never loses an id from block to block.
  ghost predicate Growing<D>(earlier: seq<Point<D>>, ids: set<string>) {
    earlier == []
    || (var p := earlier[|earlier| - 1]; p.ids <= ids && Growing(earlier[..|earlier| - 1], p.ids))
  }

  ghost predicate Inv<D, P>(r: Rules<D, P>, n: Node<D, P>)
    requires Proper(r.schedule)
  {
    && Linked(r, n.earlier, n.last) && Growing(n.earlier, n.ids) && PoolOk(r, n) && ConsensusOk(r, n)
    && (!n.leftover ==> Speculates(r, n))
    && (n.leftover ==> Odd(n))
  }

  // The chain has every transaction once, and the session is at its end.
  ghost predicate InOrder<D, P>(n: Node<D, P>) {
    Unrepeated(n.earlier, n.last, n.ids) && !n.behind
  }

  // Every block of the chain, run from no pending changes, makes the tables after it of those before it.
  ghost predicate Replayed<D, P>(r: Rules<D, P>, earlier: seq<Point<D>>, last: Block, db: D) {
    earlier == []
    || (var p := earlier[|earlier| - 1];
        CommitOf(r, p.db, last) == Some(db) && Replayed(r, earlier[..|earlier| - 1], p.block, p.db))
  }

  ghost predicate Reexecutable<D, P>(r: Rules<D, P>, n: Node<D, P>) {
    Replayed(r, n.earlier, n.last, n.db)
  }

  // No pool, no pending changes.
  ghost predicate Idle<D, P>(r: Rules<D, P>, n: Node<D, P>) {
    n.pool == [] && n.pending == r.clean(n.db) && !n.leftover
  }

  lemma {:induction false} LinkedHeight<D, P>(r: Rules<D, P>, earlier: seq<Point<D>>, last: Block)
    requires Proper(r.schedule) && Linked(r, earlier, last)
    ensures last.height == |earlier|
  {
    if earlier == [] {
    } else {
      LinkedHeight(r, earlier[..|earlier| - 1], earlier[|earlier| - 1].block);
    }
  }

  lemma {:induction false} StoredIds<D>(earlier: seq<Point<D>>, last: Block, ids: set<string>, i: nat)
    requires Unrepeated(earlier, last, ids) && i < |earlier|
    ensures IdsOf(earlier[i].block.transactions) <= earlier[|earlier| - 1].ids
  {
    var n := |earlier| - 1;
    if i == n {
      assert earlier[..n] != [] ==> earlier[n].ids == earlier[n - 1].ids + IdsOf(earlier[n].block.transactions);
    } else {
      StoredIds(earlier[..n], earlier[n].block, earlier[n].ids, i);
    }
  }

  /** No transaction of the last block is in an earlier one, nor twice in the block. */
  lemma NoneTwice<D>(earlier: seq<Point<D>>, last: Block, ids: set<string>, i: nat)
    requires Unrepeated(earlier, last, ids) && i < |earlier|
    ensures DistinctIds(last.transactions) && IdsOf(earlier[i].block.transactions) !! IdsOf(last.transactions)
  {
    StoredIds(earlier, last, ids, i);
  }

  /******* Accepting *******/

  lemma AcceptedKeeps<D, P>(r: Rules<D, P>, n: Node<D, P>, tx: Tx)
    requires Proper(r.schedule) && Inv(r, n) && Accepted(r, n, tx)
    ensures Inv(r, Accept(r, n, tx))
  {
    assert Accept(r, n, tx).pool[..|n.pool|] == n.pool;
    PoolGrows(r, n, tx);
  }

  lemma FailedKeeps<D(!new), P(!new)>(r: Rules<D, P>, n: Node<D, P>, tx: Tx)
    requires Proper(r.schedule) && Inv(r, n) && Atomic(r) && !Accepted(r, n, tx)
    ensures Inv(r, Accept(r, n, tx))
  {
    LinkedHeight(r, n.earlier, n.last);
    if !Refused(r, n, tx) && n.last.height + 1 > 1 {
      assert Execution(r, n, tx).pending == n.pending;
    }
  }

  lemma AcceptKeeps<D(!new), P(!new)>(r: Rules<D, P>, n: Node<D, P>, tx: Tx)
    requires Proper(r.schedule) && Inv(r, n) && Atomic(r)
    ensures Inv(r, Accept(r, n, tx))
  {
    if Accepted(r, n, tx) {
      AcceptedKeeps(r, n, tx);
    } else {
      FailedKeeps(r, n, tx);
    }
  }

  lemma PoolGrows<D, P>(r: Rules<D, P>, n: Node<D, P>, tx: Tx)
    requires PoolOk(r, n) && !Refused(r, n, tx)
    ensures Unconfirmed(n.ids, n.pool + [tx])
    ensures forall i | 0 <= i < |n.pool + [tx]| :: (n.pool + [tx])[i].id == r.txId((n.pool + [tx])[i])
  {
    forall i | 0 <= i < |n.pool|
      ensures n.pool[i].id != tx.id
    {
      assert !HasId(n.pool, tx.id);
    }
  }

  // Chain, tables and the session's place in it stay.
  predicate SameChain<D(==), P>(n: Node<D, P>, n': Node<D, P>) {
    && n'.last == n.last && n'.db == n.db && n'.ids == n.ids && n'.earlier == n.earlier
    && n'.behind == n.behind && n'.lowest == n.lowest
  }

  lemma {:induction false} RedoKeeps<D(!new), P(!new)>(r: Rules<D, P>, n: Node<D, P>, txs: seq<Tx>)
    requires Proper(r.schedule) && Inv(r, n) && Atomic(r)
    ensures var n' := Redo(r, n, txs);
            Inv(r, n') && SameChain(n, n')
    decreases |txs|
  {
    if txs == [] {
    } else {
      AcceptKeeps(r, n, txs[0]);
      if Accepted(r, n, txs[0]) {
        RedoKeeps(r, Accept(r, n, txs[0]), txs[1..]);
      }
    }
  }

  /** What failed or was refused is refused again, and trying it again changes nothing. */
  lemma FailedRefused<D, P>(r: Rules<D, P>, n: Node<D, P>, tx: Tx)
    requires !Accepted(r, n, tx)
    ensures Refused(r, Accept(r, n, tx), tx) && Accept(r, Accept(r, n, tx), tx) == Accept(r, n, tx)
  {
    LimitCaches.StoredHeld(n.failed, r.failedLimit, tx.id);
  }

  // The first k of some transactions entered the pool, and the next one is remembered as failed.
  predicate EnteredFirst<D, P>(n: Node<D, P>, pool: seq<Tx>, txs: seq<Tx>, k: int) {
    0 <= k <= |txs| && n.pool == pool + txs[..k] && (k < |txs| ==> txs[k].id in n.failed)
  }

  /** What enters again is a first part of the transactions, in their order, and if it is not all of them the next one
      failed or was refused. */
  lemma {:induction false} RedoPool<D, P>(r: Rules<D, P>, n: Node<D, P>, txs: seq<Tx>)
    ensures exists k :: EnteredFirst(Redo(r, n, txs), n.pool, txs, k)
    decreases |txs|
  {
    var n' := Redo(r, n, txs);
    if txs == [] {
      assert EnteredFirst(n', n.pool, txs, 0);
    } else if Accepted(r, n, txs[0]) {
      var one := Accept(r, n, txs[0]);
      RedoPool(r, one, txs[1..]);
      var k :| EnteredFirst(n', one.pool, txs[1..], k);
      assert txs[..k + 1] == [txs[0]] + txs[1..][..k];
      assert n.pool + txs[..k + 1] == one.pool + txs[1..][..k];
      assert k + 1 < |txs| ==> txs[k + 1] == txs[1..][k];
      assert EnteredFirst(n', n.pool, txs, k + 1);
    } else {
      LimitCaches.StoredHeld(n.failed, r.failedLimit, txs[0].id);
      assert EnteredFirst(n', n.pool, txs, 0);
    }
  }

  /******* Blocks *******/

  lemma RejectKeeps<D, P>(r: Rules<D, P>, n: Node<D, P>)
    requires Proper(r.schedule) && Linked(r, n.earlier, n.last) && Growing(n.earlier, n.ids) && ConsensusOk(r, n)
             && n.pool == []
    ensures Inv(r, Reject(r, n)) && Inv(r, Dropped(r, n)) && Idle(r, Dropped(r, n))
    ensures !n.behind ==> Idle(r, Reject(r, n))
  {
  }

  lemma AppendKeeps<D, P>(r: Rules<D, P>, n: Node<D, P>, block: Block, db: D)
    requires Proper(r.schedule) && Linked(r, n.earlier, n.last) && Growing(n.earlier, n.ids)
             && Extends(r, n.last, block) && n.pool == []
    requires Unconfirmed(n.ids, block.transactions)
    ensures var n' := Cleanup(Append(r, n, block, db));
            Inv(r, n') && Idle(r, n') && (InOrder(n) ==> InOrder(n'))
            && !n'.behind
    ensures var n' := Cleanup(Append(r, n, block, db));
            Reexecutable(r, n') <==> Reexecutable(r, n) && CommitOf(r, n.db, block) == Some(db)
  {
    var n' := Append(r, n, block, db);
    assert n'.earlier[..|n.earlier|] == n.earlier;
  }

  lemma CheckedExtends<D, P>(r: Rules<D, P>, n: Node<D, P>, block: Block, votes: Option<ManyVotes>, now: int)
    requires Proper(r.schedule) && CheckBlock(r, n, block, votes, now) && block.height == n.last.height + 1
             && n.last.height >= 0
    ensures Extends(r, n.last, block) && Unconfirmed(n.ids, block.transactions)
  {
  }

  // What processing a block of another node does. On clean tables a stored block is re-executable.
  ghost predicate Ran<D, P>(r: Rules<D, P>, n: Node<D, P>, n': Node<D, P>, block: Block)
    requires Proper(r.schedule)
  {
    && Inv(r, n') && n'.pool == []
    && (if n'.last == n.last then SameChain(n, n')
        else n'.last == block && block.height == n.last.height + 1 && !n'.behind && Idle(r, n'))
    && (Idle(r, n) && !n.behind ==> Idle(r, n'))
    && (InOrder(n) ==> InOrder(n'))
    && (Reexecutable(r, n') <==>
          Reexecutable(r, n) && (n'.last != n.last ==> CommitOf(r, n.db, block) == Some(n'.db)))
    && (Idle(r, n) && n'.last != n.last ==> CommitOf(r, n.db, block) == Some(n'.db))
  }

  // A block that fails once it is open.
  lemma FailedBlock<D, P>(r: Rules<D, P>, n: Node<D, P>, block: Block, pending: P)
    requires Proper(r.schedule) && Inv(r, n) && n.pool == []
    ensures Ran(r, n, Cleanup(Reject(r, n.(pending := pending))), block)
  {
    RejectKeeps(r, Cleanup(n.(pending := pending)));
    assert Cleanup(Reject(r, n.(pending := pending))) == Reject(r, Cleanup(n.(pending := pending)));
  }

  lemma EndedBlock<D, P>(r: Rules<D, P>, n: Node<D, P>, block: Block, run: P, outage: bool)
    requires Proper(r.schedule) && Inv(r, n) && n.pool == [] && Extends(r, n.last, block)
             && Unconfirmed(n.ids, block.transactions)
    requires RunTxs(r, n.db, n.pending, block.transactions, block.height) == Some(run)
    ensures Ran(r, n, Cleanup(EndBlock(r, n, block, run, outage)), block)
  {
    var sealed := r.seal(n.db, run, block);
    if !sealed.ok {
      FailedBlock(r, n, block, sealed.pending);
    } else if outage {
      FailedBlock(r, n, block, r.kept(n.db, sealed.pending));
    } else {
      AppendKeeps(r, n, block, r.flush(n.db, sealed.pending));
    }
  }

  // Running a block that extends the chain.
  lemma RemoteRun<D, P>(r: Rules<D, P>, n: Node<D, P>, block: Block, outage: bool)
    requires Proper(r.schedule) && Inv(r, n) && n.pool == []
    requires Extends(r, n.last, block) && Unconfirmed(n.ids, block.transactions)
    ensures Ran(r, n, Cleanup(ProcessDb(r, n, block, false, outage)), block)
  {
    var run := Tried(r, n.db, n.pending, block.transactions, n.last.height + 1);
    TriedRun(r, n.db, n.pending, block.transactions, n.last.height + 1);
    assert block.height == n.last.height + 1;
    if run.ok {
      assert ProcessDb(r, n, block, false, outage) == EndBlock(r, n, block, run.pending, outage);
      EndedBlock(r, n, block, run.pending, outage);
    } else {
      assert ProcessDb(r, n, block, false, outage) == Reject(r, n.(pending := run.pending));
      FailedBlock(r, n, block, run.pending);
    }
  }

  /** A block of another node: verified and run, so it links; on clean tables it is re-executable. */
  lemma RemoteBlock<D, P>(r: Rules<D, P>, n: Node<D, P>, block: Block, votes: Option<ManyVotes>, now: int, outage: bool)
    requires Proper(r.schedule) && Inv(r, n) && n.pool == []
    ensures Ran(r, n, ProcessBlock(r, n, block, false, votes, now, outage), block)
  {
    LinkedHeight(r, n.earlier, n.last);
    if CheckBlock(r, n, block, votes, now) && block.height == n.last.height + 1 {
      CheckedExtends(r, n, block, votes, now);
      RemoteRun(r, n, block, outage);
    }
  }

  // What committing a block of the node itself does.
  ghost predicate Committed<D, P>(r: Rules<D, P>, n: Node<D, P>, n': Node<D, P>, block: Block)
    requires Proper(r.schedule)
  {
    && Inv(r, n') && (InOrder(n) ==> InOrder(n'))
    && (n'.last == n.last ==> SameChain(n, n') && (Reexecutable(r, n') <==> Reexecutable(r, n)))
    && (n'.last != n.last ==>
          && n'.last == block && SealAndFlush(r, n.db, n.pending, block) == Some(n'.db)
          && (Reexecutable(r, n') <==>
                Reexecutable(r, n) && CommitOf(r, n.db, block) == SealAndFlush(r, n.db, n.pending, block)))
  }

  /** A block of the node itself, committed on its pending changes without executing again: re-executable exactly when
      running its transactions would have given the same tables, as it does when they are the pool that was run. */
  lemma LocalBlock<D, P>(r: Rules<D, P>, n: Node<D, P>, block: Block, votes: Option<ManyVotes>, now: int, outage: bool)
    requires Proper(r.schedule) && Inv(r, n) && Extends(r, n.last, block) && Unconfirmed(n.ids, block.transactions)
    ensures Committed(r, n, ProcessBlock(r, n.(pool := []), block, true, votes, now, outage), block)
  {
    var sealed := r.seal(n.db, n.pending, block);
    if !sealed.ok {
      FailedLocal(r, n, block, sealed.pending);
    } else if outage {
      FailedLocal(r, n, block, r.kept(n.db, sealed.pending));
    } else {
      AppendKeeps(r, n.(pool := []), block, r.flush(n.db, sealed.pending));
    }
  }

  lemma FailedLocal<D, P>(r: Rules<D, P>, n: Node<D, P>, block: Block, pending: P)
    requires Proper(r.schedule) && Inv(r, n)
    ensures Committed(r, n, Cleanup(Reject(r, n.(pool := [], pending := pending))), block)
  {
    var emptied := n.(pool := [], pending := pending);
    RejectKeeps(r, Cleanup(emptied));
    assert Cleanup(Reject(r, emptied)) == Reject(r, Cleanup(emptied));
  }

  /** What is pending is what running the pool's transactions gives, so committing it is committing their block. */
  lemma PoolCommits<D, P>(r: Rules<D, P>, n: Node<D, P>, block: Block)
    requires Proper(r.schedule) && Inv(r, n) && !n.leftover && n.pool == block.transactions && Extends(r, n.last, block)
    ensures CommitOf(r, n.db, block) == SealAndFlush(r, n.db, n.pending, block)
  {
  }

  /******* Tasks *******/

  // The block a task commits on the pending changes as they are, if it gets so far.
  function LocalCommit<D, P>(r: Rules<D, P>, n: Node<D, P>, t: Task): Option<Block>
    requires Proper(r.schedule)
  {
    match t
    case ForgeTask(delegate, keys, slot, now, _, _) =>
      if !MayForge(n, SlotTime(slot), now) || r.tooLong(n.pool) || keys == [] || n.consensus.pending.Some? then None
      else
        var block := GenerateBlock(r, n, delegate, SlotTime(slot));
        if HasEnoughVotes(Some(LocalVotes(r.signVote, keys, block.height, r.blockId(block)))) then Some(block) else None
    case VotesTask(votes, _, _) =>
      var c := Collected(r.verifyVote, n.consensus, votes);
      if HasEnoughVotes(c.pendingVotes) && c.pending.Some? && c.pending.value.height == n.last.height + 1
      then Some(c.pending.value.block) else None
    case _ => None
  }

  lemma GeneratedExtends<D, P>(r: Rules<D, P>, n: Node<D, P>, delegate: string, slot: int, now: int)
    requires Proper(r.schedule) && MayForge(n, SlotTime(slot), now)
    ensures Extends(r, n.last, GenerateBlock(r, n, delegate, SlotTime(slot)))
    ensures GenerateBlock(r, n, delegate, SlotTime(slot)).transactions == n.pool
  {
    SlotTimes(slot, n.last.timestamp);
  }

  // A synchronisation takes the last block back where only the session goes.
  predicate GoesBelow<D, P>(n: Node<D, P>, t: Task) {
    t.SyncTask? && t.back && n.earlier != [] && Shrinks(n.last.height) && !NoHistory(n)
  }

  // What a task does to the tables and the chain, unless it goes below the last block or the session is there already.
  ghost predicate Outcome<D, P>(r: Rules<D, P>, n: Node<D, P>, n': Node<D, P>, commit: Option<Block>)
    requires Proper(r.schedule)
  {
    && (InOrder(n) ==> InOrder(n'))
    && (commit.None? && !n.behind && Reexecutable(r, n) ==> Reexecutable(r, n'))
    && (commit.Some? && n'.last == n.last ==> (Reexecutable(r, n') <==> Reexecutable(r, n)))
    && (commit.Some? && n'.last != n.last ==>
          && n'.last == commit.value && SealAndFlush(r, n.db, n.pending, commit.value) == Some(n'.db)
          && (Reexecutable(r, n') <==>
                Reexecutable(r, n) && CommitOf(r, n.db, commit.value)
                    == SealAndFlush(r, n.db, n.pending, commit.value)))
  }

  lemma ForgeKeeps<D, P>(r: Rules<D, P>, n: Node<D, P>, delegate: string, keys: seq<string>, slot: int, now: int,
                         reachable: bool, outage: bool)
    requires Proper(r.schedule) && Inv(r, n)
    ensures Inv(r, Forge(r, n, delegate, keys, slot, now, reachable, outage))
    ensures Outcome(r, n, Forge(r, n, delegate, keys, slot, now, reachable, outage),
                    LocalCommit(r, n, ForgeTask(delegate, keys, slot, now, reachable, outage)))
  {
    if MayForge(n, SlotTime(slot), now) && !r.tooLong(n.pool) && keys != [] {
      GeneratedExtends(r, n, delegate, slot, now);
      var block := GenerateBlock(r, n, delegate, SlotTime(slot));
      var votes := LocalVotes(r.signVote, keys, block.height, r.blockId(block));
      if !HasEnoughVotes(Some(votes)) {
        ProposeKeeps(r, n, block, votes);
      } else if n.consensus.pending.None? {
        CommitKeeps(r, n, block, Some(votes), now, outage);
      }
    }
  }

  // The outcome of a local commit.
  lemma CommitKeeps<D, P>(r: Rules<D, P>, n: Node<D, P>, block: Block, votes: Option<ManyVotes>, now: int, outage: bool)
    requires Proper(r.schedule) && Inv(r, n) && Extends(r, n.last, block) && Unconfirmed(n.ids, block.transactions)
    ensures Inv(r, ProcessBlock(r, n.(pool := []), block, true, votes, now, outage))
    ensures Outcome(r, n, ProcessBlock(r, n.(pool := []), block, true, votes, now, outage), Some(block))
  {
    LocalBlock(r, n, block, votes, now, outage);
  }

  lemma ProposeKeeps<D, P>(r: Rules<D, P>, n: Node<D, P>, block: Block, votes: ManyVotes)
    requires Proper(r.schedule) && Inv(r, n) && Extends(r, n.last, block) && block.transactions == n.pool
    ensures Inv(r, Propose(r, n, block, votes)) && Outcome(r, n, Propose(r, n, block, votes), None)
  {
    var c := SetPendingBlock(n.consensus, Votes.Pending(block, block.height, r.blockId(block)));
    PendingKept(r.verifyVote, c, votes.height, votes.id, votes.signatures);
  }

  lemma CountedKeeps<D, P>(r: Rules<D, P>, n: Node<D, P>, votes: ManyVotes)
    requires Proper(r.schedule) && Inv(r, n)
    ensures var c := Collected(r.verifyVote, n.consensus, votes);
            Inv(r, n.(consensus := c)) && (HasEnoughVotes(c.pendingVotes) ==> c.pending.Some?)
  {
    CollectedPending(r.verifyVote, n.consensus, votes);
  }

  // Votes that commit the pending block.
  lemma QuorumCommits<D, P>(r: Rules<D, P>, n: Node<D, P>, c: Consensus<Block>, now: int, outage: bool)
    requires Proper(r.schedule) && Inv(r, n) && Inv(r, n.(consensus := c)) && c.pending.Some?
    requires c.pending.value.block.height == n.last.height + 1
    ensures var block := c.pending.value.block;
            var n' := ProcessBlock(r, n.(consensus := c, pool := []), block, true, c.pendingVotes, now, outage);
            Inv(r, n') && Outcome(r, n, n', Some(block))
  {
    CommitKeeps(r, n.(consensus := c), c.pending.value.block, c.pendingVotes, now, outage);
  }

  // Votes for a block that is out of place, since the last one was taken back.
  lemma QuorumTooLate<D, P>(r: Rules<D, P>, n: Node<D, P>, c: Consensus<Block>, now: int, outage: bool)
    requires Proper(r.schedule) && Inv(r, n) && Inv(r, n.(consensus := c)) && c.pending.Some?
    requires c.pending.value.block.height != n.last.height + 1
    ensures var n' := ProcessBlock(r, n.(consensus := c, pool := []), c.pending.value.block, true, c.pendingVotes,
                                   now, outage);
            Inv(r, n') && Outcome(r, n, n', None)
  {
    assert n.(consensus := c, pool := []) == n.(consensus := c);
  }

  lemma VotesKeep<D, P>(r: Rules<D, P>, n: Node<D, P>, votes: ManyVotes, now: int, outage: bool)
    requires Proper(r.schedule) && Inv(r, n)
    ensures Inv(r, ReceiveVotes(r, n, votes, now, outage))
    ensures Outcome(r, n, ReceiveVotes(r, n, votes, now, outage), LocalCommit(r, n, VotesTask(votes, now, outage)))
  {
    var c := Collected(r.verifyVote, n.consensus, votes);
    CountedKeeps(r, n, votes);
    if HasEnoughVotes(c.pendingVotes) {
      if c.pending.value.block.height == n.last.height + 1 {
        QuorumCommits(r, n, c, now, outage);
      } else {
        QuorumTooLate(r, n, c, now, outage);
      }
    }
  }

  lemma CollectedPending<B>(verify: Verify, c: Consensus<B>, votes: ManyVotes)
    ensures Collected(verify, c, votes).pending == c.pending
    ensures Collected(verify, c, votes).pendingVotes.Some? ==> c.pendingVotes.Some? || c.pending.Some?
  {
    if Matches(c, votes) {
      PendingKept(verify, c, votes.height, votes.id, votes.signatures);
    }
  }

  lemma BlockKeeps<D(!new), P(!new)>(r: Rules<D, P>, n: Node<D, P>, block: Block, votes: Option<ManyVotes>, now: int,
                                     outage: bool)
    requires Proper(r.schedule) && Inv(r, n) && Atomic(r)
    ensures Inv(r, ReceiveBlock(r, n, block, votes, now, outage))
    ensures Outcome(r, n, ReceiveBlock(r, n, block, votes, now, outage), None)
  {
    if FitsInLine(r, n, block) {
      RejectKeeps(r, n.(pool := []));
      var idle := Reject(r, n.(pool := []));
      RemoteBlock(r, idle, block, votes, now, outage);
      RedoKeeps(r, ProcessBlock(r, idle, block, false, votes, now, outage), Unincluded(n.pool, block));
    }
  }

  lemma {:induction false} WithoutMember(txs: seq<Tx>, block: Block, tx: Tx)
    ensures tx in Unincluded(txs, block) <==> tx in txs && !HasId(block.transactions, tx.id)
  {
    if txs == [] {
    } else {
      WithoutMember(txs[..|txs| - 1], block, tx);
      assert txs == txs[..|txs| - 1] + [txs[|txs| - 1]];
    }
  }

  /** After a block that fits, whether it was stored or not, the pool holds transactions of the old pool that the block
      does not have, in their order, up to the first one that now fails. */
  lemma PoolAfterBlock<D, P>(r: Rules<D, P>, n: Node<D, P>, block: Block, votes: Option<ManyVotes>, now: int,
                             outage: bool)
    requires Proper(r.schedule) && FitsInLine(r, n, block)
    ensures exists k :: EnteredFirst(ReceiveBlock(r, n, block, votes, now, outage), [], Unincluded(n.pool, block), k)
    ensures forall tx | tx in ReceiveBlock(r, n, block, votes, now, outage).pool ::
              tx in n.pool && !HasId(block.transactions, tx.id)
  {
    var rest := Unincluded(n.pool, block);
    var processed := ProcessBlock(r, Reject(r, n.(pool := [])), block, false, votes, now, outage);
    assert processed.pool == [];
    RedoPool(r, processed, rest);
    var k :| EnteredFirst(Redo(r, processed, rest), [], rest, k);
    var n' := ReceiveBlock(r, n, block, votes, now, outage);
    assert EnteredFirst(n', [], rest, k);
    forall tx | tx in n'.pool
      ensures tx in n.pool && !HasId(block.transactions, tx.id)
    {
      assert tx in rest[..k];
      WithoutMember(n.pool, block, tx);
    }
  }

  // Every block that is stored makes the tables its transactions make.
  ghost predicate StoredAsRun<D, P>(r: Rules<D, P>, n: Node<D, P>, blocks: seq<Incoming>)
    requires Proper(r.schedule)
    decreases |blocks|
  {
    if blocks == [] then true
    else
      var n' := ProcessBlock(r, n, blocks[0].block, false, None, blocks[0].now, blocks[0].outage);
      && (n'.last != n.last ==> CommitOf(r, n.db, blocks[0].block) == Some(n'.db))
      && StoredAsRun(r, n', blocks[1..])
  }

  lemma {:induction false} AllKeep<D, P>(r: Rules<D, P>, n: Node<D, P>, blocks: seq<Incoming>)
    requires Proper(r.schedule) && Inv(r, n) && n.pool == []
    ensures var n' := ProcessAll(r, n, blocks);
            && Inv(r, n') && (InOrder(n) ==> InOrder(n'))
            && (Reexecutable(r, n') <==> Reexecutable(r, n) && StoredAsRun(r, n, blocks))
            && (Idle(r, n) && !n.behind ==> StoredAsRun(r, n, blocks))
    decreases |blocks|
  {
    if blocks == [] {
    } else {
      var b := blocks[0];
      RemoteBlock(r, n, b.block, None, b.now, b.outage);
      AllKeep(r, ProcessBlock(r, n, b.block, false, None, b.now, b.outage), blocks[1..]);
    }
  }

  // A chain without its last block, and the tables below the last block under it.
  lemma BackKeeps<D, P>(r: Rules<D, P>, n: Node<D, P>)
    requires Proper(r.schedule) && Inv(r, n) && n.earlier != []
    ensures var b := Dropped(r, Back(n.(pool := [])));
            && Inv(r, b) && Idle(r, b) && (InOrder(n) && !Shrinks(n.last.height) ==> InOrder(b))
            && (!Shrinks(n.last.height) && Reexecutable(r, n) ==> Reexecutable(r, b))
  {
    var p := n.earlier[|n.earlier| - 1];
    var b := Back(n.(pool := []));
    assert n.consensus.pending.Some? ==> Unconfirmed(p.ids, n.consensus.pending.value.block.transactions);
    RejectKeeps(r, b);
  }

  // The session below the last block, with nothing pending.
  function Below<D, P>(r: Rules<D, P>, n: Node<D, P>): Node<D, P>
    requires n.earlier != []
  {
    Dropped(r, Back(n.(pool := [])))
  }

  lemma SyncBelow<D, P>(r: Rules<D, P>, n: Node<D, P>, blocks: seq<Incoming>)
    requires Proper(r.schedule) && GoesBelow(n, SyncTask(true, blocks))
    ensures Step(r, n, SyncTask(true, blocks)) == ProcessAll(r, Below(r, n), blocks)
  {
  }

  // A synchronisation. What it does where it goes below the last block is said further down.
  lemma SyncKeeps<D, P>(r: Rules<D, P>, n: Node<D, P>, back: bool, blocks: seq<Incoming>)
    requires Proper(r.schedule) && Inv(r, n)
    ensures Inv(r, Sync(r, n, back, blocks))
    ensures !GoesBelow(n, SyncTask(back, blocks)) ==> Outcome(r, n, Sync(r, n, back, blocks), None)
  {
    var emptied := n.(pool := []);
    if !back || n.earlier == [] {
      RejectKeeps(r, emptied);
      AllKeep(r, Reject(r, emptied), blocks);
    } else if !NoHistory(n) {
      BackKeeps(r, n);
      AllKeep(r, Dropped(r, Back(emptied)), blocks);
    }
  }

  /** Every task keeps the invariant. The chain stays re-executable, except that a block committed by its own node is
      so exactly when running its transactions would have made the same tables. */
  lemma StepKeeps<D(!new), P(!new)>(r: Rules<D, P>, n: Node<D, P>, t: Task)
    requires Proper(r.schedule) && Inv(r, n) && Atomic(r)
    ensures Inv(r, Step(r, n, t))
    ensures !GoesBelow(n, t) ==> Outcome(r, n, Step(r, n, t), LocalCommit(r, n, t))
  {
    match t
    case AcceptTask(tx) => AcceptKeeps(r, n, tx);
    case ForgeTask(delegate, keys, slot, now, reachable, outage) =>
      ForgeKeeps(r, n, delegate, keys, slot, now, reachable, outage);
    case VotesTask(votes, now, outage) => VotesKeep(r, n, votes, now, outage);
    case BlockTask(block, votes, now, outage) => BlockKeeps(r, n, block, votes, now, outage);
    case SyncTask(back, blocks) => SyncKeeps(r, n, back, blocks);
  }

  lemma BelowBlock<D, P>(r: Rules<D, P>, n: Node<D, P>)
    requires Proper(r.schedule) && Inv(r, n) && Reexecutable(r, n) && n.earlier != [] && Shrinks(n.last.height)
    ensures var n', below := Below(r, n), n.earlier[|n.earlier| - 1].db;
            && n'.last == n.last && n'.earlier == n.earlier && n'.db == below && n'.behind && Inv(r, n') && Idle(r, n')
            && (Reexecutable(r, n') <==> CommitOf(r, below, n.last) == Some(below))
  {
    BackKeeps(r, n);
  }

  // The first block is tried with nothing pending.
  lemma FirstAsRun<D, P>(r: Rules<D, P>, n: Node<D, P>, blocks: seq<Incoming>)
    requires Proper(r.schedule) && Inv(r, n) && Idle(r, n) && |blocks| <= 1
    ensures StoredAsRun(r, n, blocks)
  {
    if blocks != [] {
      RemoteBlock(r, n, blocks[0].block, None, blocks[0].now, blocks[0].outage);
      assert blocks[1..] == [];
    }
  }

  /** Taking the last block back where the height below has one digit less leaves the block on the tables below it: the
      chain is re-executable then exactly when that block, run on those tables, changes nothing, and the blocks that
      follow are stored as they run, as the first one is. */
  lemma ShrinkingBack<D, P>(r: Rules<D, P>, n: Node<D, P>, blocks: seq<Incoming>)
    requires Proper(r.schedule) && Inv(r, n) && Reexecutable(r, n) && GoesBelow(n, SyncTask(true, blocks))
    ensures var n', below := Below(r, n), n.earlier[|n.earlier| - 1].db;
            && n'.last == n.last && n'.earlier == n.earlier && n'.db == below && n'.behind
            && (Reexecutable(r, Step(r, n, SyncTask(true, blocks))) <==>
                  CommitOf(r, below, n.last) == Some(below) && StoredAsRun(r, n', blocks))
            && (|blocks| <= 1 ==> StoredAsRun(r, n', blocks))
            && (blocks == [] ==> Step(r, n, SyncTask(true, blocks)) == n')
  {
    BelowBlock(r, n);
    SyncBelow(r, n, blocks);
    AllKeep(r, Below(r, n), blocks);
    if |blocks| <= 1 {
      FirstAsRun(r, Below(r, n), blocks);
    }
  }

  /******* Runs *******/

  // A local commit is of the pool, with nothing else left pending, and no synchronisation goes below the last block.
  predicate Clean<D, P>(r: Rules<D, P>, n: Node<D, P>, t: Task)
    requires Proper(r.schedule)
  {
    var commit := LocalCommit(r, n, t);
    (commit.Some? ==> n.pool == commit.value.transactions && !n.leftover) && !GoesBelow(n, t)
  }

  function RunTasks<D, P(==)>(r: Rules<D, P>, n: Node<D, P>, ts: seq<Task>): Node<D, P>
    requires Proper(r.schedule)
  {
    if ts == [] then n else Step(r, RunTasks(r, n, ts[..|ts| - 1]), ts[|ts| - 1])
  }

  predicate CleanRun<D, P(==)>(r: Rules<D, P>, n: Node<D, P>, ts: seq<Task>)
    requires Proper(r.schedule)
  {
    ts == [] || (CleanRun(r, n, ts[..|ts| - 1]) && Clean(r, RunTasks(r, n, ts[..|ts| - 1]), ts[|ts| - 1]))
  }

  /** Exactly what a task must not do for the chain to stay re-executable: commit a block on pending changes that are
      not those of its transactions, or go below a last block that changed something. */
  lemma StepExact<D(!new), P(!new)>(r: Rules<D, P>, n: Node<D, P>, t: Task)
    requires Proper(r.schedule) && Inv(r, n) && Atomic(r) && Reexecutable(r, n) && !n.behind
    ensures var commit := LocalCommit(r, n, t);
            Reexecutable(r, Step(r, n, t)) <==>
              && (commit.Some? && Step(r, n, t).last != n.last ==>
                    CommitOf(r, n.db, commit.value) == SealAndFlush(r, n.db, n.pending, commit.value))
              && (GoesBelow(n, t) ==>
                    var below := n.earlier[|n.earlier| - 1].db;
                    CommitOf(r, below, n.last) == Some(below) && StoredAsRun(r, Below(r, n), t.blocks))
  {
    StepKeeps(r, n, t);
    if GoesBelow(n, t) {
      ShrinkingBack(r, n, t.blocks);
    }
  }

  /** A clean task keeps the chain re-executable. What is not clean: a commit of a proposal whose pool was dropped by a
      synchronisation, or of block 1 after a failure that left its sender, and going below the last block. */
  lemma CleanStep<D(!new), P(!new)>(r: Rules<D, P>, n: Node<D, P>, t: Task)
    requires Proper(r.schedule) && Inv(r, n) && Atomic(r) && Reexecutable(r, n) && InOrder(n) && Clean(r, n, t)
    ensures Reexecutable(r, Step(r, n, t)) && InOrder(Step(r, n, t))
  {
    StepKeeps(r, n, t);
    var commit := LocalCommit(r, n, t);
    if commit.Some? {
      CommitExtends(r, n, t);
      PoolCommits(r, n, commit.value);
    }
  }

  lemma CommitExtends<D, P>(r: Rules<D, P>, n: Node<D, P>, t: Task)
    requires Proper(r.schedule) && Inv(r, n) && LocalCommit(r, n, t).Some?
    ensures Extends(r, n.last, LocalCommit(r, n, t).value)
    ensures n.pool == LocalCommit(r, n, t).value.transactions || (t.VotesTask? && n.pool == [])
  {
    match t
    case ForgeTask(delegate, _, slot, now, _, _) => GeneratedExtends(r, n, delegate, slot, now);
    case VotesTask(votes, _, _) => CollectedPending(r.verifyVote, n.consensus, votes);
    case _ =>
  }

  lemma {:induction false} RunKeeps<D(!new), P(!new)>(r: Rules<D, P>, n: Node<D, P>, ts: seq<Task>)
    requires Proper(r.schedule) && Inv(r, n) && Atomic(r)
    ensures Inv(r, RunTasks(r, n, ts))
    ensures Reexecutable(r, n) && InOrder(n) && CleanRun(r, n, ts) ==>
              Reexecutable(r, RunTasks(r, n, ts)) && InOrder(RunTasks(r, n, ts))
  {
    if ts == [] {
    } else {
      var before := ts[..|ts| - 1];
      RunKeeps(r, n, before);
      StepKeeps(r, RunTasks(r, n, before), ts[|ts| - 1]);
      if Reexecutable(r, n) && InOrder(n) && CleanRun(r, n, ts) {
        CleanStep(r, RunTasks(r, n, before), ts[|ts| - 1]);
      }
    }
  }

  /** From genesis, after any tasks, the chain is linked, and the pending changes are what the pool's transactions make
      in order of the committed tables, unless something else is left pending; which is so only before the first block,
      behind the last block, or without history for it. If the tasks were clean, every block is re-executable, no
      transaction is in the chain twice, and the session is at the last block. */
  lemma FromGenesis<D(!new), P(!new)>(r: Rules<D, P>, genesis: Block, db: D, ts: seq<Task>)
    requires Proper(r.schedule) && Atomic(r) && genesis.height == 0 && DistinctIds(genesis.transactions)
    ensures var n := RunTasks(r, AtGenesis(r, genesis, db), ts);
            && Linked(r, n.earlier, n.last)
            && (!n.leftover ==> Speculates(r, n)) && (n.leftover ==> Odd(n))
            && (CleanRun(r, AtGenesis(r, genesis, db), ts) ==>
                  Reexecutable(r, n) && Unrepeated(n.earlier, n.last, n.ids) && !n.behind)
  {
    RunKeeps(r, AtGenesis(r, genesis, db), ts);
  }

  function BlocksOf<D, P>(n: Node<D, P>): seq<Block> {
    seq(|n.earlier|, i requires 0 <= i < |n.earlier| => n.earlier[i].block) + [n.last]
  }

  function GenesisDb<D, P>(n: Node<D, P>): D {
    if n.earlier == [] then n.db else n.earlier[0].db
  }

  // The node before its last block.
  function Before<D, P>(n: Node<D, P>): Node<D, P>
    requires n.earlier != []
  {
    var p := n.earlier[|n.earlier| - 1];
    n.(last := p.block, db := p.db, earlier := n.earlier[..|n.earlier| - 1])
  }

  /** Two nodes with the same blocks on the same first tables have the same tables, however each came by its blocks. */
  lemma {:induction false} SameTables<D, P>(r: Rules<D, P>, a: Node<D, P>, b: Node<D, P>)
    requires Reexecutable(r, a) && Reexecutable(r, b) && BlocksOf(a) == BlocksOf(b) && GenesisDb(a) == GenesisDb(b)
    ensures a.db == b.db
    decreases |a.earlier|
  {
    assert |BlocksOf(a)| == |a.earlier| + 1 && |BlocksOf(b)| == |b.earlier| + 1;
    assert BlocksOf(a)[|a.earlier|] == a.last && BlocksOf(b)[|b.earlier|] == b.last;
    if a.earlier == [] {
    } else {
      assert BlocksOf(Before(a)) == BlocksOf(a)[..|a.earlier|];
      assert BlocksOf(Before(b)) == BlocksOf(b)[..|b.earlier|];
      SameTables(r, Before(a), Before(b));
    }
  }

  lemma {:induction false} RedoTables<D, P>(r: Rules<D, P>, n: Node<D, P>, txs: seq<Tx>)
    ensures SameChain(n, Redo(r, n, txs))
    decreases |txs|
  {
    if txs == [] {
    } else if Accepted(r, n, txs[0]) {
      RedoTables(r, Accept(r, n, txs[0]), txs[1..]);
    }
  }

  lemma BlockGenesis<D, P>(r: Rules<D, P>, n: Node<D, P>, block: Block, local: bool, votes: Option<ManyVotes>,
                           now: int, outage: bool)
    requires Proper(r.schedule)
    ensures GenesisDb(ProcessBlock(r, n, block, local, votes, now, outage)) == GenesisDb(n)
  {
  }

  lemma {:induction false} AllGenesis<D, P>(r: Rules<D, P>, n: Node<D, P>, blocks: seq<Incoming>)
    requires Proper(r.schedule)
    ensures GenesisDb(ProcessAll(r, n, blocks)) == GenesisDb(n)
    decreases |blocks|
  {
    if blocks == [] {
    } else {
      var b := blocks[0];
      BlockGenesis(r, n, b.block, false, None, b.now, b.outage);
      AllGenesis(r, ProcessBlock(r, n, b.block, false, None, b.now, b.outage), blocks[1..]);
    }
  }

  lemma ForgeGenesis<D, P>(r: Rules<D, P>, n: Node<D, P>, delegate: string, keys: seq<string>, slot: int, now: int,
                           reachable: bool, outage: bool)
    requires Proper(r.schedule)
    ensures GenesisDb(Forge(r, n, delegate, keys, slot, now, reachable, outage)) == GenesisDb(n)
  {
    var block := GenerateBlock(r, n, delegate, SlotTime(slot));
    var votes := LocalVotes(r.signVote, keys, block.height, r.blockId(block));
    BlockGenesis(r, n.(pool := []), block, true, Some(votes), now, outage);
  }

  lemma VotesGenesis<D, P>(r: Rules<D, P>, n: Node<D, P>, votes: ManyVotes, now: int, outage: bool)
    requires Proper(r.schedule)
    ensures GenesisDb(ReceiveVotes(r, n, votes, now, outage)) == GenesisDb(n)
  {
    var c := Collected(r.verifyVote, n.consensus, votes);
    if c.pending.Some? {
      BlockGenesis(r, n.(consensus := c, pool := []), c.pending.value.block, true, c.pendingVotes, now, outage);
    }
  }

  lemma ReceiveGenesis<D, P>(r: Rules<D, P>, n: Node<D, P>, block: Block, votes: Option<ManyVotes>, now: int,
                             outage: bool)
    requires Proper(r.schedule)
    ensures GenesisDb(ReceiveBlock(r, n, block, votes, now, outage)) == GenesisDb(n)
  {
    var idle := Reject(r, n.(pool := []));
    BlockGenesis(r, idle, block, false, votes, now, outage);
    RedoTables(r, ProcessBlock(r, idle, block, false, votes, now, outage), Unincluded(n.pool, block));
  }

  lemma SyncGenesis<D, P>(r: Rules<D, P>, n: Node<D, P>, back: bool, blocks: seq<Incoming>)
    requires Proper(r.schedule)
    ensures GenesisDb(Sync(r, n, back, blocks)) == GenesisDb(n)
  {
    var emptied := n.(pool := []);
    if !back || n.earlier == [] {
      AllGenesis(r, Reject(r, emptied), blocks);
    } else if !NoHistory(n) {
      assert GenesisDb(Dropped(r, Back(emptied))) == GenesisDb(n);
      AllGenesis(r, Dropped(r, Back(emptied)), blocks);
    }
  }

  lemma StepGenesis<D, P>(r: Rules<D, P>, n: Node<D, P>, t: Task)
    requires Proper(r.schedule)
    ensures GenesisDb(Step(r, n, t)) == GenesisDb(n)
  {
    match t
    case AcceptTask(tx) =>
    case ForgeTask(delegate, keys, slot, now, reachable, outage) =>
      ForgeGenesis(r, n, delegate, keys, slot, now, reachable, outage);
    case VotesTask(votes, now, outage) => VotesGenesis(r, n, votes, now, outage);
    case BlockTask(block, votes, now, outage) => ReceiveGenesis(r, n, block, votes, now, outage);
    case SyncTask(back, blocks) => SyncGenesis(r, n, back, blocks);
  }

  /** No task touches the first tables. */
  lemma {:induction false} GenesisStays<D, P>(r: Rules<D, P>, n: Node<D, P>, ts: seq<Task>)
    requires Proper(r.schedule)
    ensures GenesisDb(RunTasks(r, n, ts)) == GenesisDb(n)
  {
    if ts == [] {
    } else {
      var before := ts[..|ts| - 1];
      GenesisStays(r, n, before);
      StepGenesis(r, RunTasks(r, n, before), ts[|ts| - 1]);
    }
  }

  /** The node that commits its own block without executing it again ends with the tables of a node that drops its
      pending changes and runs the block's transactions. */
  lemma FollowerAgrees<D(!new), P(!new)>(r: Rules<D, P>, n: Node<D, P>, t: Task, m: Node<D, P>,
                                         votes: Option<ManyVotes>, now: int)
    requires Proper(r.schedule) && Inv(r, n) && Atomic(r) && LocalCommit(r, n, t).Some? && Clean(r, n, t)
    requires Step(r, n, t).last != n.last
    requires m.db == n.db && m.last == n.last && !m.behind
    requires CheckBlock(r, Reject(r, m.(pool := [])), LocalCommit(r, n, t).value, votes, now)
    ensures var m' := ReceiveBlock(r, m, LocalCommit(r, n, t).value, votes, now, false);
            m'.db == Step(r, n, t).db && m'.last == Step(r, n, t).last
  {
    var block := LocalCommit(r, n, t).value;
    StepKeeps(r, n, t);
    CommitExtends(r, n, t);
    PoolCommits(r, n, block);
    TriedRun(r, m.db, r.clean(m.db), block.transactions, block.height);
    RedoTables(r, ProcessBlock(r, Reject(r, m.(pool := [])), block, false, votes, now, false),
               Unincluded(m.pool, block));
  }

  /** A node in step with the forger accepts the forged block exactly when it is not too long: forging has no limit of
      its own on the number of transactions. */
  lemma ForgedBlockPasses<D, P>(r: Rules<D, P>, n: Node<D, P>, delegate: string, slot: int, forgedAt: int,
                                m: Node<D, P>, now: int)
    requires Proper(r.schedule) && Inv(r, n) && MayForge(n, SlotTime(slot), forgedAt)
    requires m.last == n.last && m.db == n.db && m.earlier == n.earlier && m.ids == n.ids
    requires slot <= SlotNumber(now) + 1
             && Delegates.Owner(r.delegates(n.db, n.last.height + 1), slot) == Some(delegate)
    requires var b := GenerateBlock(r, n, delegate, SlotTime(slot));
             r.wellFormed(b) && r.signed(b) && r.serializable(n.pool) && r.blockId(n.last) != "" && !IsStored(r, n, b)
    ensures CheckBlock(r, m, GenerateBlock(r, n, delegate, SlotTime(slot)), None, now) <==>
              |n.pool| <= MAX_TXS_PER_BLOCK
  {
    var b := GenerateBlock(r, n, delegate, SlotTime(slot));
    GeneratedExtends(r, n, delegate, slot, forgedAt);
    SlotTimes(slot, 0);
    assert IsStored(r, m, b) <==> IsStored(r, n, b);
  }

  /** A synchronisation that finds nothing drops the pool but not the proposal: when the votes then arrive, the block is
      committed with none of its transactions executed. */
  lemma DroppedPool<D(!new), P(!new)>(r: Rules<D, P>, n: Node<D, P>, votes: ManyVotes, now: int)
    requires Proper(r.schedule) && Inv(r, n) && !n.behind && n.consensus.pending.Some?
             && n.consensus.pending.value.height == n.last.height + 1
    requires HasEnoughVotes(Collected(r.verifyVote, n.consensus, votes).pendingVotes)
    requires SealAndFlush(r, n.db, r.clean(n.db), n.consensus.pending.value.block).Some?
    ensures var n' := Step(r, Step(r, n, SyncTask(false, [])), VotesTask(votes, now, false));
            && n'.last == n.consensus.pending.value.block
            && Some(n'.db) == SealAndFlush(r, n.db, r.clean(n.db), n'.last)
            && (Reexecutable(r, n) ==> (Reexecutable(r, n') <==> CommitOf(r, n.db, n'.last) == Some(n'.db)))
  {
    SyncKeeps(r, n, false, []);
    var s := Step(r, n, SyncTask(false, []));
    CollectedPending(r.verifyVote, s.consensus, votes);
    VotesKeep(r, s, votes, now, false);
  }

  /** A transaction that fails before the first block and leaves something pending spoils the speculation: the node goes
      on with changes that are not those of its pool. */
  lemma FirstFailure<D, P>(r: Rules<D, P>, n: Node<D, P>, tx: Tx)
    requires Speculates(r, n) && !Refused(r, n, tx)
    requires !Execution(r, n, tx).ok && Execution(r, n, tx).pending != n.pending
    ensures var n' := Accept(r, n, tx);
            n'.leftover && !Speculates(r, n') && n'.pool == n.pool && n'.pending == Execution(r, n, tx).pending
  {
  }

  /** And the block then forged is re-executable exactly when what was left pending makes no difference to its
      tables. */
  lemma FirstBlockAfterFailure<D(!new), P(!new)>(r: Rules<D, P>, n: Node<D, P>, tx: Tx, t: Task)
    requires Proper(r.schedule) && Inv(r, n) && Atomic(r) && Reexecutable(r, n) && !n.leftover && !Refused(r, n, tx)
    requires !Execution(r, n, tx).ok && Execution(r, n, tx).pending != n.pending
    requires t.ForgeTask? && LocalCommit(r, Accept(r, n, tx), t).Some? && Step(r, Accept(r, n, tx), t).last != n.last
    ensures var n' := Step(r, Accept(r, n, tx), t);
            && n'.last.transactions == n.pool
            && (Reexecutable(r, n') <==>
                  SealAndFlush(r, n.db, Execution(r, n, tx).pending, n'.last)
                      == SealAndFlush(r, n.db, n.pending, n'.last))
  {
    AcceptKeeps(r, n, tx);
    var failed := Accept(r, n, tx);
    StepKeeps(r, failed, t);
    CommitExtends(r, failed, t);
    PoolCommits(r, n, LocalCommit(r, failed, t).value);
  }
}
