/** A node whose transactions are those of the basic ledger, over any number of rounds. */
module LedgerNodes {
  import opened Rows
  import opened Folds
  import opened Slots
  import opened Ledgers
  import opened LedgerRuns
  import opened LedgerBlocks
  import opened LedgerSupply
  import opened Nodes
  import opened Speculation
  import Supplies

  // What a transaction's body asks for, and of whom.
  datatype Order = Order(sender: string, call: Call)

  function Decoded(parse: string -> Order, tx: Tx): Transaction {
    Transaction(parse(tx.body).sender, if tx.fee < 0 then 0 else tx.fee, parse(tx.body).call)
  }

  function DecodedAll(parse: string -> Order, txs: seq<Tx>): seq<Transaction> {
    seq(|txs|, i requires 0 <= i < |txs| => Decoded(parse, txs[i]))
  }

  function BodyOf(parse: string -> Order, block: Block): Body {
    Body(DecodedAll(parse, block.transactions), block.delegate, if block.reward < 0 then 0 else block.reward)
  }

  // The committed books, with nothing pending.
  function Clean(b: Books): Books {
    b.(state := RolledBack(b.state))
  }

  ghost function Exec(c: Checks, parse: string -> Order, p: Books, tx: Tx, height: int): Executed<Books> {
    var (s, ok) := Applied(c, p.state, Decoded(parse, tx), height);
    Executed(p.(state := s), ok)
  }

  // Above genesis: the round's bookkeeping.
  function Seal(q: Rota, parse: string -> Order, p: Books, block: Block): Executed<Books> {
    if block.height <= 0 then Executed(p.(state := LedgerRuns.Committed(p.state)), true)
    else if RoundOk(q, p, p.state.view, block.delegate, block.height)
    then Executed(Closed(q, p, p.state, BodyOf(parse, block), block.height), true)
    else Executed(p, false)
  }

  /** The rules of a node that runs the basic ledger; `outer` has those that are not about tables. */
  ghost function LedgerRules(c: Checks, q: Rota, parse: string -> Order,
                             outer: Rules<Books, Books>): Rules<Books, Books>
  {
    outer.(clean := (b: Books) => Clean(b),
           exec := (b: Books, p: Books, tx: Tx, height: int) => Exec(c, parse, p, tx, height),
           seal := (b: Books, p: Books, block: Block) => Seal(q, parse, p, block),
           flush := (b: Books, p: Books) => p,
           kept := (b: Books, p: Books) => Clean(b).(state := State(b.state.tables, b.state.tables, p.state.locks)),
           delegates := (b: Books, height: int) => if height < 0 then [] else q.arrange(b.bookkeeper, height))
  }

  /** The ledger undoes what a failed transaction did, above the first block. */
  lemma LedgerAtomic(c: Checks, q: Rota, parse: string -> Order, outer: Rules<Books, Books>)
    ensures Atomic(LedgerRules(c, q, parse, outer))
  {
    var r := LedgerRules(c, q, parse, outer);
    forall b, p, tx, height | height > 1 && !r.exec(b, p, tx, height).ok
      ensures r.exec(b, p, tx, height).pending == p
    {
      assert r.exec(b, p, tx, height) == Exec(c, parse, p, tx, height);
    }
  }

  lemma DecodedSnoc(parse: string -> Order, txs: seq<Tx>)
    requires txs != []
    ensures var all := DecodedAll(parse, txs);
            && |all| == |txs| && all[..|txs| - 1] == DecodedAll(parse, txs[..|txs| - 1])
            && all[|txs| - 1] == Decoded(parse, txs[|txs| - 1])
  {
  }

  /** Running a block's transactions is running them on the ledger. */
  lemma {:induction false} RunIsApplied(c: Checks, q: Rota, parse: string -> Order, outer: Rules<Books, Books>,
                                        b: Books, txs: seq<Tx>, height: int)
    ensures var r := LedgerRules(c, q, parse, outer);
            var (s, ok) := AppliedAll(c, Clean(b).state, DecodedAll(parse, txs), height);
            RunTxs(r, b, r.clean(b), txs, height) == if ok then Some(b.(state := s)) else None
  {
    if txs == [] {
    } else {
      RunIsApplied(c, q, parse, outer, b, txs[..|txs| - 1], height);
      DecodedSnoc(parse, txs);
    }
  }

  // Sealing a block after its transactions is closing the books.
  lemma SealedBooks(c: Checks, q: Rota, parse: string -> Order, outer: Rules<Books, Books>, b: Books, s: State,
                    block: Block)
    requires block.height > 0
    ensures SealAndFlush(LedgerRules(c, q, parse, outer), b, b.(state := s), block)
            == if RoundOk(q, Clean(b), s.view, block.delegate, block.height)
               then Some(Closed(q, Clean(b), s, BodyOf(parse, block), block.height)) else None
  {
    var p := b.(state := s);
    assert LedgerRules(c, q, parse, outer).seal(b, p, block) == Seal(q, parse, p, block);
  }

  /** A block makes of the tables what the ledger makes of them, at the end of a round as well. */
  lemma BlockIsApplied(c: Checks, q: Rota, parse: string -> Order, outer: Rules<Books, Books>, b: Books, block: Block)
    requires block.height > 0
    ensures var (b', ok) := AppliedBlock(c, q, Clean(b), BodyOf(parse, block), block.height);
            CommitOf(LedgerRules(c, q, parse, outer), b, block) == if ok then Some(b') else None
  {
    RunIsApplied(c, q, parse, outer, b, block.transactions, block.height);
    var (s, ok) := AppliedAll(c, Clean(b).state, DecodedAll(parse, block.transactions), block.height);
    if ok {
      SealedBooks(c, q, parse, outer, b, s, block);
    }
  }

  lemma CommittedBooks(c: Checks, q: Rota, parse: string -> Order, outer: Rules<Books, Books>, before: Books,
                       block: Block, b: Books)
    requires block.height > 0 && Clean(before) == before
    requires CommitOf(LedgerRules(c, q, parse, outer), before, block) == Some(b)
    ensures BlockStep(c, q)(before, BodyOf(parse, block), block.height) == (b, true) && Clean(b) == b
  {
    BlockIsApplied(c, q, parse, outer, before, block);
    StepIs(c, q, before, BodyOf(parse, block), block.height);
  }

  // The blocks above genesis.
  function Bodies(parse: string -> Order, earlier: seq<Point<Books>>, last: Block): seq<Body>
    decreases |earlier|
  {
    if earlier == [] then []
    else
      var n := |earlier| - 1;
      Bodies(parse, earlier[..n], earlier[n].block) + [BodyOf(parse, last)]
  }

  lemma BodiesSnoc(parse: string -> Order, earlier: seq<Point<Books>>, last: Block)
    requires earlier != []
    ensures var n := |earlier| - 1;
            var bodies := Bodies(parse, earlier, last);
            |bodies| == |Bodies(parse, earlier[..n], earlier[n].block)| + 1
            && bodies[..|bodies| - 1] == Bodies(parse, earlier[..n], earlier[n].block)
            && bodies[|bodies| - 1] == BodyOf(parse, last)
  {
  }

  // One block more in a chain, for any step.
  lemma ChainMore(f: Step<Books, Body>, parse: string -> Order, earlier: seq<Point<Books>>, last: Block, b: Books,
                  genesis: Books)
    requires earlier != [] && last.height == |earlier|
    requires f(earlier[|earlier| - 1].db, BodyOf(parse, last), last.height) == (b, true)
    requires var p := earlier[|earlier| - 1];
             var before := Bodies(parse, earlier[..|earlier| - 1], p.block);
             |before| == |earlier| - 1 && Fold(f, genesis, before, 1) == (p.db, true)
    ensures var bodies := Bodies(parse, earlier, last);
            |bodies| == |earlier| && Fold(f, genesis, bodies, 1) == (b, true)
  {
    BodiesSnoc(parse, earlier, last);
    var bodies := Bodies(parse, earlier, last);
    assert bodies[..|earlier|] == bodies;
    More(f, genesis, bodies, |earlier| - 1, 1, earlier[|earlier| - 1].db);
  }

  /** The tables at the end of a re-executable chain are what the ledger makes of the genesis tables with the chain's
      blocks. */
  lemma {:induction false} ChainIsApplied(c: Checks, q: Rota, parse: string -> Order, outer: Rules<Books, Books>,
                                          earlier: seq<Point<Books>>, last: Block, b: Books, genesis: Books)
    requires Supplies.Proper(outer.schedule) && Clean(genesis) == genesis
    requires Replayed(LedgerRules(c, q, parse, outer), earlier, last, b)
             && Linked(LedgerRules(c, q, parse, outer), earlier, last)
    requires genesis == if earlier == [] then b else earlier[0].db
    ensures var bodies := Bodies(parse, earlier, last);
            && |bodies| == |earlier| && Fold(BlockStep(c, q), genesis, bodies, 1) == (b, true) && Clean(b) == b
    decreases |earlier|
  {
    if earlier == [] {
    } else {
      var p := earlier[|earlier| - 1];
      LinkedHeight(LedgerRules(c, q, parse, outer), earlier, last);
      ChainIsApplied(c, q, parse, outer, earlier[..|earlier| - 1], p.block, p.db, genesis);
      CommittedBooks(c, q, parse, outer, p.db, last, b);
      ChainMore(BlockStep(c, q), parse, earlier, last, b, genesis);
    }
  }

  // A chain's blocks have the rewards their heights are due.
  lemma {:induction false} LinkedDue(r: Rules<Books, Books>, parse: string -> Order, earlier: seq<Point<Books>>,
                                     last: Block)
    requires Supplies.Proper(r.schedule) && Linked(r, earlier, last)
    ensures |Bodies(parse, earlier, last)| == |earlier| && Due(r.schedule, Bodies(parse, earlier, last))
    decreases |earlier|
  {
    if earlier == [] {
    } else {
      var p := earlier[|earlier| - 1];
      LinkedHeight(r, earlier, last);
      LinkedDue(r, parse, earlier[..|earlier| - 1], p.block);
      BodiesSnoc(parse, earlier, last);
    }
  }

  // What a node that ran clean tasks from genesis has: the ledger's books of its chain.
  lemma NodeIsApplied(c: Checks, q: Rota, parse: string -> Order, outer: Rules<Books, Books>, genesis: Block, b: Books,
                      ts: seq<Task>)
    requires Supplies.Proper(outer.schedule) && genesis.height == 0 && DistinctIds(genesis.transactions)
             && Clean(b) == b
    requires CleanRun(LedgerRules(c, q, parse, outer), AtGenesis(LedgerRules(c, q, parse, outer), genesis, b), ts)
    ensures var r := LedgerRules(c, q, parse, outer);
            var n := RunTasks(r, AtGenesis(r, genesis, b), ts);
            var bodies := Bodies(parse, n.earlier, n.last);
            && |bodies| == n.last.height && Due(outer.schedule, bodies)
            && AppliedBlocks(c, q, b, bodies, 1) == (n.db, true)
  {
    var r := LedgerRules(c, q, parse, outer);
    LedgerAtomic(c, q, parse, outer);
    RunKeeps(r, AtGenesis(r, genesis, b), ts);
    var n := RunTasks(r, AtGenesis(r, genesis, b), ts);
    LinkedHeight(r, n.earlier, n.last);
    GenesisStays(r, AtGenesis(r, genesis, b), ts);
    ChainIsApplied(c, q, parse, outer, n.earlier, n.last, n.db, b);
    LinkedDue(r, parse, n.earlier, n.last);
  }

  /** A node runs the ledger: from genesis, after any clean tasks, over any number of rounds, coins and fees are those
      of genesis and what unlocks appended and rounds paid out; votes are exact exactly when they were and every
      unlocking voter was a delegate; and no account got into debt unless a payout left its forger with it. */
  lemma LedgerKept(c: Checks, q: Rota, parse: string -> Order, outer: Rules<Books, Books>, genesis: Block, b: Books,
                   ts: seq<Task>)
    requires Supplies.Proper(outer.schedule) && genesis.height == 0 && DistinctIds(genesis.transactions)
    requires Clean(b) == b && Valid(b.state)
    requires CleanRun(LedgerRules(c, q, parse, outer), AtGenesis(LedgerRules(c, q, parse, outer), genesis, b), ts)
    ensures var r := LedgerRules(c, q, parse, outer);
            var n := RunTasks(r, AtGenesis(r, genesis, b), ts);
            var bodies := Bodies(parse, n.earlier, n.last);
            && Valid(n.db.state)
            && Total(n.db.state.view) + AllFees(bodies)
               == Total(b.state.view) + SurplusOf(c, q, b, bodies, 1) + PaidOf(c, q, b, bodies, 1)
            && (VotesExact(n.db.state.view) <==> VotesExact(b.state.view) && !StrandsEver(c, q, b, bodies, 1))
            && (!DipsEver(c, q, b, bodies, 1) ==> NoNewDebt(b.state.view, n.db.state.view))
  {
    var r := LedgerRules(c, q, parse, outer);
    NodeIsApplied(c, q, parse, outer, genesis, b, ts);
    var n := RunTasks(r, AtGenesis(r, genesis, b), ts);
    RunHolds(c, q, b, Bodies(parse, n.earlier, n.last), n.db);
  }

  lemma RunHolds(c: Checks, q: Rota, b: Books, bodies: seq<Body>, end: Books)
    requires Valid(b.state) && AppliedBlocks(c, q, b, bodies, 1) == (end, true)
    ensures Valid(end.state)
    ensures Total(end.state.view) + AllFees(bodies)
            == Total(b.state.view) + SurplusOf(c, q, b, bodies, 1) + PaidOf(c, q, b, bodies, 1)
    ensures VotesExact(end.state.view) <==> VotesExact(b.state.view) && !StrandsEver(c, q, b, bodies, 1)
    ensures !DipsEver(c, q, b, bodies, 1) ==> NoNewDebt(b.state.view, end.state.view)
  {
    RunValid(c, q, b, bodies, 1);
    RunCoins(c, q, b, bodies, 1);
    RunVotes(c, q, b, bodies, 1);
    if !DipsEver(c, q, b, bodies, 1) {
      RunDebts(c, q, b, bodies, 1);
    }
  }

  lemma SupplyHolds(c: Checks, q: Rota, s: Supplies.Schedule, b: Books, bodies: seq<Body>, rounds: nat, end: Books,
                    height: nat)
    requires Supplies.Proper(s) && Valid(b.state) && Between(b, 1) && Due(s, bodies)
    requires |bodies| == DELEGATES * rounds == height && FullLists(BlockStep(c, q), q, b, bodies, rounds)
    requires AppliedBlocks(c, q, b, bodies, 1) == (end, true)
    ensures Total(end.state.view)
            == Total(b.state.view) + Supplies.RewardSum(s, height + 1) - Supplies.CalculateReward(s, 0)
               + SurplusOf(c, q, b, bodies, 1) - UnpaidOf(c, q, b, bodies, 1)
  {
    SupplyKept(c, q, s, b, bodies, rounds);
  }

  /** And when its chain ends a round, and the lists of its rounds had 101 delegates, the coins have grown by the
      rewards the supply counts, and by what unlocks appended, less what the rounds left unpaid. */
  lemma LedgerSupplied(c: Checks, q: Rota, parse: string -> Order, outer: Rules<Books, Books>, genesis: Block, b: Books,
                       ts: seq<Task>, rounds: nat)
    requires Supplies.Proper(outer.schedule) && genesis.height == 0 && DistinctIds(genesis.transactions)
    requires Clean(b) == b && Valid(b.state) && Between(b, 1)
    requires CleanRun(LedgerRules(c, q, parse, outer), AtGenesis(LedgerRules(c, q, parse, outer), genesis, b), ts)
    requires var r := LedgerRules(c, q, parse, outer);
             var n := RunTasks(r, AtGenesis(r, genesis, b), ts);
             var bodies := Bodies(parse, n.earlier, n.last);
             |bodies| == DELEGATES * rounds && FullLists(BlockStep(c, q), q, b, bodies, rounds)
    ensures var r := LedgerRules(c, q, parse, outer);
            var n := RunTasks(r, AtGenesis(r, genesis, b), ts);
            var bodies := Bodies(parse, n.earlier, n.last);
            Total(n.db.state.view)
            == Total(b.state.view)
               + Supplies.RewardSum(outer.schedule, |bodies| + 1) - Supplies.CalculateReward(outer.schedule, 0)
               + SurplusOf(c, q, b, bodies, 1) - UnpaidOf(c, q, b, bodies, 1)
  {
    var r := LedgerRules(c, q, parse, outer);
    NodeIsApplied(c, q, parse, outer, genesis, b, ts);
    var n := RunTasks(r, AtGenesis(r, genesis, b), ts);
    SupplyHolds(c, q, outer.schedule, b, Bodies(parse, n.earlier, n.last), rounds, n.db,
                |Bodies(parse, n.earlier, n.last)|);
  }
}
