/** Three runs after which the tables are not those that running the stored blocks makes. */
module LostTransactions {
  import opened Arithmetic
  import opened Rows
  import opened Slots
  import opened Supplies
  import opened Votes
  import opened Nodes
  import opened Speculation
  import opened Heights

  // The tables count the executed transactions. A bad one fails, but up to the first block it is counted all the same.
  function CountingRules(): Rules<int, int> {
    Rules(db => db,
          (db, p, tx: Tx, height) => Executed(if tx.body == "bad" && height > 1 then p else p + 1, tx.body != "bad"),
          (db, p, block) => Executed(p, true), (db, p) => p, (db, p) => db,
          (tx: Tx) => tx.id, block => "id", block => "", block => true, block => true, txs => true, txs => false,
          (height, id, item) => true, (key, height, id) => "", (db, height) => [], MAIN_SCHEDULE, 100)
  }

  const GENESIS := Block(0, "", 0, "", [], 0, 0, 0, "")

  function ManySignatures(): seq<Signature> {
    seq(68, i requires 0 <= i < 68 => Signature(Decimal(100 + i), ""))
  }

  // A transaction is accepted, the block with it proposed, a synchronisation finds nothing, and the votes arrive.
  function Tasks(): seq<Task> {
    [AcceptTask(Tx("t", 0, "")),
     ForgeTask("d", ["k"], 1, 10, true, false),
     SyncTask(false, []),
     VotesTask(ManyVotes(1, "id", ManySignatures()), 15, false)]
  }

  lemma DistinctSignatures()
    ensures forall i, j | 0 <= i < j < 68 :: ManySignatures()[i].publicKey != ManySignatures()[j].publicKey
  {
    forall i, j | 0 <= i < j < 68
      ensures ManySignatures()[i].publicKey != ManySignatures()[j].publicKey
    {
      ThreeDigits(100 + i);
      ThreeDigits(100 + j);
      SameLength(100 + i, 100 + j);
    }
  }

  lemma ThreeDigits(n: nat)
    requires 100 <= n < 1000
    ensures |Decimal(n)| == 3
  {
    assert |Decimal(n / 10 / 10)| == 1;
    assert |Decimal(n / 10)| == 2;
  }

  // The node after the proposal.
  lemma Proposed()
    ensures var r := CountingRules();
            var n := Step(r, Step(r, AtGenesis(r, GENESIS, 0), Tasks()[0]), Tasks()[1]);
            && n.db == 0 && n.last == GENESIS && n.earlier == [] && n.pool == [Tx("t", 0, "")] && n.pending == 1
            && n.consensus.pending.Some? && n.consensus.pending.value.height == 1
            && n.consensus.pending.value.id == "id"
            && n.consensus.pending.value.block.transactions == [Tx("t", 0, "")]
            && n.consensus.pending.value.block.height == 1
            && Certified(r.verifyVote, n.consensus)
  {
    var r := CountingRules();
    var n0 := AtGenesis(r, GENESIS, 0);
    var n1 := Step(r, n0, Tasks()[0]);
    assert n1.pool == [Tx("t", 0, "")] && n1.pending == 1;
    var block := GenerateBlock(r, n1, "d", SlotTime(1));
    var p := Votes.Pending(block, 1, "id");
    AddVotesCertified(r.verifyVote, SetPendingBlock(n1.consensus, p),
                      LocalVotes(r.signVote, ["k"], 1, "id").signatures);
  }

  /** After this run the tables count no transaction, while running the stored block's one would have counted it. */
  lemma SyncLosesTransactions()
    ensures var r := CountingRules();
            var n := RunTasks(r, AtGenesis(r, GENESIS, 0), Tasks());
            && n.last.transactions == [Tx("t", 0, "")] && n.db == 0 && CommitOf(r, 0, n.last) == Some(1)
            && !Reexecutable(r, n)
  {
    var r := CountingRules();
    Proposed();
    var n := Step(r, Step(r, AtGenesis(r, GENESIS, 0), Tasks()[0]), Tasks()[1]);
    DistinctSignatures();
    EnoughAtOnce(r.verifyVote, n.consensus, ManyVotes(1, "id", ManySignatures()));
    RunKeeps(r, AtGenesis(r, GENESIS, 0), Tasks()[..2]);
    FirstTwo(r);
    DroppedPool(r, n, ManyVotes(1, "id", ManySignatures()), 15);
    AllFour(r);
    OneTransaction(r, RunTasks(r, AtGenesis(r, GENESIS, 0), Tasks()).last);
  }

  lemma OneMore<D, P>(r: Rules<D, P>, n: Node<D, P>, ts: seq<Task>, t: Task)
    requires Proper(r.schedule)
    ensures RunTasks(r, n, ts + [t]) == Step(r, RunTasks(r, n, ts), t)
    ensures CleanRun(r, n, ts + [t]) <==> CleanRun(r, n, ts) && Clean(r, RunTasks(r, n, ts), t)
  {
    assert (ts + [t])[..|ts|] == ts;
  }

  lemma FirstTwo(r: Rules<int, int>)
    requires Proper(r.schedule)
    ensures RunTasks(r, AtGenesis(r, GENESIS, 0), Tasks()[..2])
            == Step(r, Step(r, AtGenesis(r, GENESIS, 0), Tasks()[0]), Tasks()[1])
  {
    OneMore(r, AtGenesis(r, GENESIS, 0), [], Tasks()[0]);
    OneMore(r, AtGenesis(r, GENESIS, 0), [Tasks()[0]], Tasks()[1]);
    assert [] + [Tasks()[0]] == [Tasks()[0]] && [Tasks()[0]] + [Tasks()[1]] == Tasks()[..2];
  }

  lemma AllFour(r: Rules<int, int>)
    requires Proper(r.schedule)
    ensures RunTasks(r, AtGenesis(r, GENESIS, 0), Tasks())
            == Step(r, Step(r, Step(r, Step(r, AtGenesis(r, GENESIS, 0), Tasks()[0]), Tasks()[1]), Tasks()[2]),
                    Tasks()[3])
  {
    FirstTwo(r);
    OneMore(r, AtGenesis(r, GENESIS, 0), Tasks()[..2], Tasks()[2]);
    OneMore(r, AtGenesis(r, GENESIS, 0), Tasks()[..3], Tasks()[3]);
    assert Tasks()[..2] + [Tasks()[2]] == Tasks()[..3] && Tasks()[..3] + [Tasks()[3]] == Tasks();
  }

  lemma OneTransaction(r: Rules<int, int>, block: Block)
    requires r == CountingRules() && block.transactions == [Tx("t", 0, "")]
    ensures CommitOf(r, 0, block) == Some(1)
  {
    assert block.transactions[..0] == [];
    assert RunTxs(r, 0, 0, [], block.height) == Some(0);
    assert RunTxs(r, 0, 0, block.transactions, block.height) == Some(1);
  }

  /******* The first block after a failure *******/

  function ManyKeys(): seq<string> {
    seq(68, i requires 0 <= i < 68 => Decimal(100 + i))
  }

  function ForgeAt(slot: int): Task {
    ForgeTask("d", ManyKeys(), slot, SlotTime(slot), true, false)
  }

  // A transaction fails, another one is accepted, and the block with it is forged.
  function FailingTasks(): seq<Task> {
    [AcceptTask(Tx("f", 0, "bad")), AcceptTask(Tx("t", 0, "")), ForgeAt(1)]
  }

  // A forger with enough keys stores the pool's block at once.
  lemma ForgedAtOnce(r: Rules<int, int>, n: Node<int, int>, slot: int)
    requires r == CountingRules() && n.last.timestamp < SlotTime(slot) && n.consensus == Cleared()
    ensures var n' := Step(r, n, ForgeAt(slot));
            var block := GenerateBlock(r, n, "d", SlotTime(slot));
            && n' == Cleanup(Append(r, n.(pool := []), block, n.pending))
            && LocalCommit(r, n, ForgeAt(slot)) == Some(block) && block.transactions == n.pool
  {
    SlotTimes(slot, n.last.timestamp);
  }

  lemma Failed()
    ensures var r := CountingRules();
            var n := Step(r, Step(r, AtGenesis(r, GENESIS, 0), FailingTasks()[0]), FailingTasks()[1]);
            && n.pending == 2 && n.pool == [Tx("t", 0, "")] && n.db == 0 && n.last == GENESIS && n.earlier == []
            && n.ids == {} && n.consensus == Cleared()
  {
    var r := CountingRules();
    var n := Step(r, AtGenesis(r, GENESIS, 0), FailingTasks()[0]);
    assert IdsOf([]) == {};
    assert n.pending == 1 && n.pool == [];
  }

  lemma AllThree(r: Rules<int, int>, n: Node<int, int>)
    requires Proper(r.schedule)
    ensures RunTasks(r, n, FailingTasks())
            == Step(r, Step(r, Step(r, n, FailingTasks()[0]), FailingTasks()[1]), FailingTasks()[2])
  {
    var ts := FailingTasks();
    OneMore(r, n, [], ts[0]);
    OneMore(r, n, [ts[0]], ts[1]);
    OneMore(r, n, [ts[0], ts[1]], ts[2]);
    assert [] + [ts[0]] == [ts[0]] && [ts[0]] + [ts[1]] == [ts[0], ts[1]] && [ts[0], ts[1]] + [ts[2]] == ts;
  }

  /** After this run the tables count the transaction that failed, while running the stored block's one does not. */
  lemma FailureStays()
    ensures var r := CountingRules();
            var n := RunTasks(r, AtGenesis(r, GENESIS, 0), FailingTasks());
            && n.last.transactions == [Tx("t", 0, "")] && n.db == 2 && CommitOf(r, 0, n.last) == Some(1)
            && !Reexecutable(r, n)
  {
    var r := CountingRules();
    Failed();
    AllThree(r, AtGenesis(r, GENESIS, 0));
    var n := Step(r, Step(r, AtGenesis(r, GENESIS, 0), FailingTasks()[0]), FailingTasks()[1]);
    ForgedAtOnce(r, n, 1);
    var n' := Step(r, n, ForgeAt(1));
    OneTransaction(r, n'.last);
    assert n'.earlier[|n'.earlier| - 1] == Point(GENESIS, 0, {});
  }

  /******* Taking block 10 back *******/

  // Blocks are forged in the first slots.
  function Forging(k: nat): seq<Task> {
    if k == 0 then [] else Forging(k - 1) + [ForgeAt(k)]
  }

  // A chain of empty blocks.
  predicate Empty(n: Node<int, int>, k: nat) {
    && n.db == n.pending == 0 && n.ids == {} && n.pool == [] && n.failed == [] && n.consensus == Cleared()
    && !n.collecting
    && !n.behind && !n.leftover && n.last.height == k == |n.earlier| && n.last.timestamp == SlotTime(k)
    && n.lowest <= Max(0, k - HISTORY_HOLD)
  }

  lemma EmptyMore(n: Node<int, int>, k: nat)
    requires Empty(n, k)
    ensures var r := CountingRules(); Empty(Step(r, n, ForgeAt(k + 1)), k + 1) && Clean(r, n, ForgeAt(k + 1))
  {
    ForgedAtOnce(CountingRules(), n, k + 1);
    assert IdsOf([]) == {};
  }

  lemma {:induction false} EmptyChain(k: nat)
    ensures var r := CountingRules();
            Empty(RunTasks(r, AtGenesis(r, GENESIS, 0), Forging(k)), k)
                && CleanRun(r, AtGenesis(r, GENESIS, 0), Forging(k))
  {
    var r := CountingRules();
    if k == 0 {
      assert IdsOf([]) == {};
    } else {
      EmptyChain(k - 1);
      EmptyMore(RunTasks(r, AtGenesis(r, GENESIS, 0), Forging(k - 1)), k - 1);
      OneMore(r, AtGenesis(r, GENESIS, 0), Forging(k - 1), ForgeAt(k));
    }
  }

  // Nine empty blocks, and a tenth with a transaction.
  function TenBlocks(): seq<Task> {
    Forging(9) + [AcceptTask(Tx("t", 0, ""))] + [ForgeAt(10)]
  }

  // The tenth block on nine empty ones.
  lemma OneTransactionMore(n: Node<int, int>)
    requires Empty(n, 9)
    ensures var r := CountingRules();
            var t := AcceptTask(Tx("t", 0, ""));
            var n' := Step(r, Step(r, n, t), ForgeAt(10));
            && Clean(r, n, t) && Clean(r, Step(r, n, t), ForgeAt(10))
            && n'.last.height == 10 && n'.last.transactions == [Tx("t", 0, "")] && n'.db == 1 && n'.lowest <= 10
            && !n'.behind
            && n'.earlier != [] && n'.earlier[|n'.earlier| - 1].db == 0
  {
    var r := CountingRules();
    var n1 := Step(r, n, AcceptTask(Tx("t", 0, "")));
    assert n1.pool == [Tx("t", 0, "")] && n1.pending == 1;
    ForgedAtOnce(r, n1, 10);
  }

  lemma TenthBlock()
    ensures var r := CountingRules();
            var n0 := AtGenesis(r, GENESIS, 0);
            var n := RunTasks(r, n0, TenBlocks());
            && CleanRun(r, n0, TenBlocks()) && n.last.height == 10 && n.last.transactions == [Tx("t", 0, "")]
            && n.db == 1
            && n.lowest <= 10 && !n.behind && n.earlier != [] && n.earlier[|n.earlier| - 1].db == 0
  {
    var r := CountingRules();
    var n0 := AtGenesis(r, GENESIS, 0);
    var t := AcceptTask(Tx("t", 0, ""));
    EmptyChain(9);
    OneTransactionMore(RunTasks(r, n0, Forging(9)));
    OneMore(r, n0, Forging(9), t);
    OneMore(r, n0, Forging(9) + [t], ForgeAt(10));
  }

  /** A clean run leads to block 10. Taking it back leaves it the last block, on tables without its transaction. */
  lemma TenthStays()
    ensures var r := CountingRules();
            var n := RunTasks(r, AtGenesis(r, GENESIS, 0), TenBlocks());
            var n' := Step(r, n, SyncTask(true, []));
            && Reexecutable(r, n) && n.last.height == 10 && n.db == 1
            && n'.last == n.last && n'.db == 0 && !Reexecutable(r, n')
  {
    var r := CountingRules();
    TenthBlock();
    var n := RunTasks(r, AtGenesis(r, GENESIS, 0), TenBlocks());
    RunKeeps(r, AtGenesis(r, GENESIS, 0), TenBlocks());
    assert Shrinks(10) by {
      assert |Decimal(9)| == 1 && |Decimal(10 / 10)| == 1 && |Decimal(10)| == 2;
    }
    OneTransaction(r, n.last);
    ShrinkingBack(r, n, []);
  }
}
