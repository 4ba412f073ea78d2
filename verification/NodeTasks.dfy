/** The tasks of a node as its code runs them, on fields and with loops; each does what its specification says. */
module NodeTasks {
  import opened Arithmetic
  import opened Rows
  import opened Slots
  import opened Supplies
  import opened Votes
  import opened Nodes
  import LimitCaches

  method AreTransactionsDuplicated(transactions: seq<Tx>) returns (duplicated: bool)
    ensures duplicated <==> !DistinctIds(transactions)
  {
    var appliedTransactions: set<string> := {};
    var i := 0;
    while i < |transactions|
      invariant 0 <= i <= |transactions|
      invariant forall id :: id in appliedTransactions <==> HasId(transactions[..i], id)
      invariant DistinctIds(transactions[..i])
    {
      assert transactions[..i + 1] == transactions[..i] + [transactions[i]];
      if transactions[i].id in appliedTransactions {
        var j :| 0 <= j < i && transactions[..i][j].id == transactions[i].id;
        assert transactions[j].id == transactions[i].id;
        return true;
      }
      assert forall j | 0 <= j < i :: transactions[..i][j].id != transactions[i].id;
      HasIdSnoc(transactions[..i], transactions[i]);
      appliedTransactions := appliedTransactions + {transactions[i].id};
      i := i + 1;
    }
    assert transactions[..i] == transactions;
    duplicated := false;
  }

  lemma HasIdSnoc(txs: seq<Tx>, tx: Tx)
    ensures forall id :: HasId(txs + [tx], id) <==> HasId(txs, id) || id == tx.id
  {
    forall id | HasId(txs, id)
      ensures HasId(txs + [tx], id)
    {
      var i :| 0 <= i < |txs| && txs[i].id == id;
      assert (txs + [tx])[i].id == id;
    }
    assert (txs + [tx])[|txs|].id == tx.id;
  }

  method GetFeesOfAll(transactions: seq<Tx>) returns (fees: int)
    ensures fees == FeesOfAll(transactions)
  {
    fees := 0;
    var i := 0;
    while i < |transactions|
      invariant 0 <= i <= |transactions| && fees == FeesOfAll(transactions[..i])
    {
      assert transactions[..i + 1][..i] == transactions[..i];
      fees := fees + transactions[i].fee;
      i := i + 1;
    }
    assert transactions[..i] == transactions;
  }

  // The transactions of a list that a block does not have.
  method Remaining(transactions: seq<Tx>, block: Block) returns (rest: seq<Tx>)
    ensures rest == Unincluded(transactions, block)
  {
    rest := [];
    var i := 0;
    while i < |transactions|
      invariant 0 <= i <= |transactions| && rest == Unincluded(transactions[..i], block)
    {
      assert transactions[..i + 1][..i] == transactions[..i];
      if !HasId(block.transactions, transactions[i].id) {
        rest := rest + [transactions[i]];
      }
      i := i + 1;
    }
    assert transactions[..i] == transactions;
  }

  class NodeState<D, P(==)> {
    const r: Rules<D, P>
    var last: Block
    var db: D
    var ids: set<string>
    var earlier: seq<Point<D>>
    var pending: P
    var pool: seq<Tx>
    var failed: seq<string>
    var consensus: Consensus<Block>
    var collecting: bool
    var lowest: int
    var behind: bool
    ghost var leftover: bool

    ghost function Value(): Node<D, P>
      reads this
    {
      Node(last, db, ids, earlier, pending, pool, failed, consensus, collecting, lowest, behind, leftover)
    }

    constructor (r: Rules<D, P>, genesis: Block, db: D)
      ensures this.r == r && Value() == AtGenesis(r, genesis, db)
    {
      this.r := r;
      last, this.db, ids, earlier := genesis, db, IdsOf(genesis.transactions), [];
      pending, pool, failed := r.clean(db), [], [];
      consensus, collecting := Cleared(), false;
      lowest, behind, leftover := genesis.height, false, false;
    }

    /******* Transactions *******/

    /** Executes a transaction and puts it in the pool. False is the error of one that is refused or fails. */
    method ProcessUnconfirmedTransaction(tx: Tx) returns (ok: bool)
      modifies this`pending, this`pool, this`failed, this`leftover
      ensures ok <==> Accepted(r, old(Value()), tx)
      ensures Value() == Accept(r, old(Value()), tx)
    {
      ok := false;
      if !(tx.id != r.txId(tx) || collecting || tx.id in failed || HasId(pool, tx.id) || tx.id in ids) {
        ok := ApplyUnconfirmedTransaction(tx);
      }
      if ok {
        pool := pool + [tx];
      } else {
        failed := LimitCaches.Stored(failed, r.failedLimit, tx.id);
      }
    }

    method ApplyUnconfirmedTransaction(tx: Tx) returns (ok: bool)
      modifies this`pending, this`leftover
      ensures ok == Execution(r, old(Value()), tx).ok && pending == Execution(r, old(Value()), tx).pending
      ensures leftover == (old(leftover) || (!ok && pending != old(pending)))
    {
      var e := r.exec(db, pending, tx, last.height + 1);
      leftover := leftover || (!e.ok && e.pending != pending);
      pending, ok := e.pending, e.ok;
    }

    method ProcessUnconfirmedTransactions(transactions: seq<Tx>)
      modifies this`pending, this`pool, this`failed, this`leftover
      ensures Value() == Redo(r, old(Value()), transactions)
    {
      var i := 0;
      while i < |transactions|
        invariant 0 <= i <= |transactions|
        invariant Redo(r, Value(), transactions[i..]) == Redo(r, old(Value()), transactions)
      {
        assert transactions[i..][0] == transactions[i] && transactions[i..][1..] == transactions[i + 1..];
        var ok := ProcessUnconfirmedTransaction(transactions[i]);
        if !ok {
          return;
        }
        i := i + 1;
      }
    }

    /******* Blocks *******/

    /** Runs a block's transactions on the pending changes. False is the first failure, or a repeated transaction. */
    method ApplyBlock(block: Block) returns (ok: bool)
      modifies this`pending, this`leftover
      ensures ok <==>
                DistinctIds(block.transactions) && Tried(r, db, old(pending), block.transactions, last.height + 1).ok
      ensures pending == if DistinctIds(block.transactions)
                         then Tried(r, db, old(pending), block.transactions, last.height + 1).pending else old(pending)
    {
      var duplicated := AreTransactionsDuplicated(block.transactions);
      if duplicated {
        return false;
      }
      ok := RunInOrder(block.transactions);
    }

    method RunInOrder(transactions: seq<Tx>) returns (ok: bool)
      modifies this`pending, this`leftover
      ensures Executed(pending, ok) == Tried(r, db, old(pending), transactions, last.height + 1)
    {
      var i := 0;
      while i < |transactions|
        invariant 0 <= i <= |transactions|
        invariant Tried(r, db, old(pending), transactions[..i], last.height + 1) == Executed(pending, true)
      {
        assert transactions[..i + 1][..i] == transactions[..i];
        ok := ApplyUnconfirmedTransaction(transactions[i]);
        if !ok {
          TriedStops(r, db, old(pending), transactions, last.height + 1, i + 1);
          return;
        }
        i := i + 1;
      }
      assert transactions[..i] == transactions;
      ok := true;
    }

    // A session that is behind the last block takes nothing back.
    method RejectPending()
      modifies this`pending, this`leftover
      ensures Value() == Reject(r, old(Value()))
    {
      if behind {
        leftover := pending != r.clean(db);
      } else {
        pending, leftover := r.clean(db), false;
      }
    }

    /** Opens the block, runs it unless it is local, and commits; what fails once it is open is taken back. */
    method ProcessBlockDbIO(block: Block, local: bool, outage: bool)
      requires !local ==> DistinctIds(block.transactions)
      modifies this`last, this`db, this`ids, this`earlier, this`pending, this`lowest, this`behind, this`leftover
      ensures Value() == ProcessDb(r, old(Value()), block, local, outage)
    {
      if block.height != last.height + 1 {
        return;
      }
      var ok := true;
      if !local {
        ok := ApplyBlock(block);
      }
      if ok {
        ok := CommitBlock(block, outage);
      }
      if !ok {
        RejectPending();
      }
    }

    method CommitBlock(block: Block, outage: bool) returns (ok: bool)
      modifies this`last, this`db, this`ids, this`earlier, this`pending, this`lowest, this`behind, this`leftover
      ensures var sealed := r.seal(old(db), old(pending), block);
              && (ok <==> sealed.ok && !outage)
              && (ok ==> Value() == Append(r, old(Value()), block, r.flush(old(db), sealed.pending)))
              && (!ok ==> Value() == old(Value()).(pending := if sealed.ok then r.kept(old(db), sealed.pending)
                                                   else sealed.pending))
    {
      var sealed := r.seal(db, pending, block);
      pending, ok := sealed.pending, sealed.ok;
      if ok && outage {
        pending, ok := r.kept(db, pending), false;
      }
      if ok {
        Store(block, r.flush(db, sealed.pending));
      }
    }

    // The block is the last one, on the new tables.
    method Store(block: Block, tables: D)
      modifies this`last, this`db, this`ids, this`earlier, this`pending, this`lowest, this`behind, this`leftover
      ensures Value() == Append(r, old(Value()), block, tables)
    {
      var version := if behind then last.height - 1 else last.height;
      earlier := earlier + [Point(last, db, ids)];
      last, db, ids := block, tables, ids + IdsOf(block.transactions);
      lowest, behind := Max(lowest, version - HISTORY_HOLD), false;
      pending, leftover := r.clean(tables), false;
    }

    method ProcessBlock(block: Block, local: bool, votes: Option<ManyVotes>, now: int, outage: bool)
      requires Proper(r.schedule)
      modifies this`last, this`db, this`ids, this`earlier, this`pending, this`consensus, this`collecting
      modifies this`lowest, this`behind, this`leftover
      ensures Value() == Nodes.ProcessBlock(r, old(Value()), block, local, votes, now, outage)
    {
      var n := Node(last, db, ids, earlier, pending, pool, failed, consensus, collecting, lowest, behind, false);
      if local || CheckBlock(r, n, block, votes, now) {
        ProcessBlockDbIO(block, local, outage);
      }
      consensus, collecting := Cleared(), false;
    }

    /** A block arrives that follows the last one: the pool is set aside, the block processed on clean tables, and the
        transactions it does not have enter again. */
    method OnReceiveBlock(block: Block, votes: Option<ManyVotes>, now: int, outage: bool)
      requires Proper(r.schedule)
      modifies this
      ensures Value() == ReceiveBlock(r, old(Value()), block, votes, now, outage)
    {
      if block.height == last.height + 1 && block.prevBlockId == r.blockId(last) {
        var pendingTrs := pool;
        pool := [];
        RejectPending();
        ProcessBlock(block, false, votes, now, outage);
        var redo := Remaining(pendingTrs, block);
        ProcessUnconfirmedTransactions(redo);
      }
    }

    method OnReceiveVotes(votes: ManyVotes, now: int, outage: bool)
      requires Proper(r.schedule)
      modifies this
      ensures Value() == ReceiveVotes(r, old(Value()), votes, now, outage)
    {
      var c := AddPendingVotes(r.verifyVote, consensus, votes);
      if HasEnoughVotes(c.pendingVotes) {
        pool := [];
        if c.pending.Some? {
          consensus := c;
          ProcessBlock(c.pending.value.block, true, c.pendingVotes, now, outage);
        }
      } else {
        consensus := c;
      }
    }

    method Loop(delegate: string, keys: seq<string>, slot: int, now: int, reachable: bool, outage: bool)
      requires Proper(r.schedule)
      modifies this
      ensures Value() == Forge(r, old(Value()), delegate, keys, slot, now, reachable, outage)
    {
      var n := Node(last, db, ids, earlier, pending, pool, failed, consensus, collecting, lowest, behind, false);
      if !MayForge(n, SlotTime(slot), now) || r.tooLong(pool) || keys == [] {
        return;
      }
      var block := GenerateBlockShort(delegate, SlotTime(slot));
      var votes := CreateVotes(r.signVote, keys, block.height, r.blockId(block));
      if HasEnoughVotes(Some(votes)) {
        if consensus.pending.None? {
          pool := [];
          ProcessBlock(block, true, Some(votes), now, outage);
        }
      } else if reachable {
        ProposeBlock(block, votes);
      }
    }

    method ProposeBlock(block: Block, votes: ManyVotes)
      modifies this`consensus, this`collecting
      ensures Value() == Propose(r, old(Value()), block, votes)
    {
      consensus := SetPendingBlock(consensus, Votes.Pending(block, block.height, r.blockId(block)));
      consensus := AddPendingVotes(r.verifyVote, consensus, votes);
      collecting := true;
    }

    method GenerateBlockShort(delegate: string, timestamp: int) returns (block: Block)
      requires Proper(r.schedule)
      ensures block == GenerateBlock(r, Value(), delegate, timestamp)
    {
      var fees := GetFeesOfAll(pool);
      block := Block(last.height + 1, r.blockId(last), timestamp, delegate, pool, |pool|, fees,
                     CalculateReward(r.schedule, last.height + 1), "");
      block := block.(signature := r.sign(block));
    }

    /** Takes the last block back if the peer has another one, and processes the peer's blocks. */
    method SyncBlocks(back: bool, blocks: seq<Incoming>)
      requires Proper(r.schedule)
      modifies this
      ensures Value() == Sync(r, old(Value()), back, blocks)
    {
      pool := [];
      var ok := true;
      if back && earlier != [] {
        ok := RollbackLast();
      } else {
        RejectPending();
      }
      if ok {
        LoadBlocks(blocks);
      }
    }

    // False is the error of a missing history, after which the locks stay.
    method RollbackLast() returns (ok: bool)
      requires earlier != []
      modifies this`last, this`db, this`ids, this`earlier, this`pending, this`behind, this`leftover
      ensures ok <==> !NoHistory(old(Value()))
      ensures ok ==> Value() == Dropped(r, Back(old(Value())))
      ensures !ok ==>
                var kept := r.kept(old(db), old(pending));
                Value() == old(Value()).(pending := kept, leftover := kept != r.clean(old(db)))
    {
      ok := behind || last.height >= lowest;
      if ok {
        GoBack();
        pending, leftover := r.clean(db), false;
      } else {
        pending := r.kept(db, pending);
        leftover := pending != r.clean(db);
      }
    }

    method GoBack()
      requires earlier != []
      modifies this`last, this`db, this`ids, this`earlier, this`behind
      ensures Value() == Back(old(Value()))
    {
      var p := earlier[|earlier| - 1];
      db, ids := p.db, p.ids;
      if Shrinks(last.height) {
        behind := true;
      } else {
        last, earlier := p.block, earlier[..|earlier| - 1];
      }
    }

    method LoadBlocks(blocks: seq<Incoming>)
      requires Proper(r.schedule)
      modifies this
      ensures Value() == ProcessAll(r, old(Value()), blocks)
    {
      var i := 0;
      while i < |blocks|
        invariant 0 <= i <= |blocks| && ProcessAll(r, Value(), blocks[i..]) == ProcessAll(r, old(Value()), blocks)
      {
        assert blocks[i..][0] == blocks[i] && blocks[i..][1..] == blocks[i + 1..];
        ProcessBlock(blocks[i].block, false, None, blocks[i].now, blocks[i].outage);
        i := i + 1;
      }
    }
  }

  // After a failure nothing more is tried.
  lemma {:induction false} TriedStops<D, P>(r: Rules<D, P>, db: D, p: P, txs: seq<Tx>, height: int, i: nat)
    requires i <= |txs| && !Tried(r, db, p, txs[..i], height).ok
    ensures Tried(r, db, p, txs, height) == Tried(r, db, p, txs[..i], height)
    decreases |txs|
  {
    if i == |txs| {
      assert txs[..i] == txs;
    } else {
      assert txs[..|txs| - 1][..i] == txs[..i];
      TriedStops(r, db, p, txs[..|txs| - 1], height, i);
    }
  }
}
