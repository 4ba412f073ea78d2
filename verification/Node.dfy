/** A node between sequenced tasks: pool, pending changes, stored chain and block consensus, and what each task makes of
them. Every task is a function of the node; NodeTasks works on fields, with the loops of the source. */
module Nodes {
  import opened Arithmetic
  import opened Rows
  import opened Slots
  import opened Supplies
  import opened Votes
  import opened LimitCaches
  import opened Delegates
  import opened Heights

  const MAX_TXS_PER_BLOCK: nat := 20000

  // For how many heights below the last but one the session holds the changes.
  const HISTORY_HOLD: nat := 10

  datatype Tx = Tx(id: string, fee: int, body: string)

  datatype Block = Block(height: int, prevBlockId: string, timestamp: int, delegate: string, transactions: seq<Tx>,
                         count: int, fees: int, reward: int, signature: string)

  // What a transaction leaves pending, and whether it succeeded.
  datatype Executed<P> = Executed(pending: P, ok: bool)

  /** What a node does not compute here. D are committed tables but for the transaction table; P are tables with changes
      pending and locks held. `exec` runs one transaction for a block of the given height, `seal` applies the round,
      `flush` makes pending changes the tables; `kept` is what a failed commit leaves: no changes, but the locks. */
  datatype Rules<!D, !P> = Rules(
    clean: D -> P,
    exec: (D, P, Tx, int) -> Executed<P>,
    seal: (D, P, Block) -> Executed<P>,
    flush: (D, P) -> D,
    kept: (D, P) -> P,
    txId: Tx -> string,
    blockId: Block -> string,
    sign: Block -> string,
    signed: Block -> bool,
    wellFormed: Block -> bool,
    serializable: seq<Tx> -> bool,
    tooLong: seq<Tx> -> bool,
    verifyVote: Verify,
    signVote: (string, int, string) -> string,
    delegates: (D, int) -> seq<string>,
    schedule: Schedule,
    failedLimit: nat)

  // A block, the tables after it, and the ids in the transaction table then.
  datatype Point<D> = Point(block: Block, db: D, ids: set<string>)

  /** The last block with tables and transaction ids, the points before, the changes pending on the tables, the pool,
      the failed transactions, and the consensus state. `lowest` is the lowest height whose changes the session holds,
      and `behind` tells that the session was taken back below the last block while the block stayed. `leftover` tells
      that something is pending that is not of the pool. */
  datatype Node<D, P> = Node(last: Block, db: D, ids: set<string>, earlier: seq<Point<D>>, pending: P, pool: seq<Tx>,
                             failed: seq<string>, consensus: Consensus<Block>, collecting: bool, lowest: int,
                             behind: bool, leftover: bool)

  // A node that has stored the genesis block only.
  function AtGenesis<D, P>(r: Rules<D, P>, genesis: Block, db: D): Node<D, P> {
    Node(genesis, db, IdsOf(genesis.transactions), [], r.clean(db), [], [], Cleared(), false, genesis.height, false,
         false)
  }

  /******* Blocks *******/

  function FeesOfAll(txs: seq<Tx>): int {
    if txs == [] then 0 else FeesOfAll(txs[..|txs| - 1]) + txs[|txs| - 1].fee
  }

  predicate DistinctIds(txs: seq<Tx>) {
    forall i, j | 0 <= i < j < |txs| :: txs[i].id != txs[j].id
  }

  predicate HasId(txs: seq<Tx>, id: string) {
    exists i | 0 <= i < |txs| :: txs[i].id == id
  }

  function IdsOf(txs: seq<Tx>): set<string> {
    set i | 0 <= i < |txs| :: txs[i].id
  }

  predicate VerifyBlockSlot(last: Block, now: int, block: Block) {
    SlotNumber(last.timestamp) < SlotNumber(block.timestamp) <= SlotNumber(now) + 1
  }

  predicate VerifyVotes<D, P>(r: Rules<D, P>, block: Block, votes: ManyVotes, delegates: seq<string>) {
    && block.height == votes.height && r.blockId(block) == votes.id
    && HasEnoughVotesRemote(Some(votes))
    && forall i | 0 <= i < |votes.signatures| ::
         votes.signatures[i].publicKey in delegates && r.verifyVote(votes.height, votes.id, votes.signatures[i])
  }

  // A block of another node, checked against the last block and the stored tables.
  predicate CheckBlock<D, P>(r: Rules<D, P>, n: Node<D, P>, block: Block, votes: Option<ManyVotes>, now: int)
    requires Proper(r.schedule)
  {
    var delegates := r.delegates(n.db, block.height);
    && r.wellFormed(block)
    && (block.prevBlockId != "" || block.height == 0)
    && r.signed(block)
    && block.prevBlockId == r.blockId(n.last)
    && (block.height != 0 ==> VerifyBlockSlot(n.last, now, block))
    && |block.transactions| <= MAX_TXS_PER_BLOCK && |block.transactions| == block.count
    && DistinctIds(block.transactions) && r.serializable(block.transactions)
    && block.fees == FeesOfAll(block.transactions)
    && block.reward == CalculateReward(r.schedule, block.height)
    && (votes.Some? ==> VerifyVotes(r, block, votes.value, delegates))
    && (block.height != 0 ==> ValidateBlockSlot(block.timestamp, block.delegate, delegates))
    && (block.height != 0 ==> !IsStored(r, n, block))
    && forall i | 0 <= i < |block.transactions| :: block.transactions[i].id !in n.ids
  }

  predicate IsStored<D, P>(r: Rules<D, P>, n: Node<D, P>, block: Block) {
    r.blockId(block) == r.blockId(n.last)
        || exists i | 0 <= i < |n.earlier| :: r.blockId(n.earlier[i].block) == r.blockId(block)
  }

  function GenerateBlock<D, P>(r: Rules<D, P>, n: Node<D, P>, delegate: string, timestamp: int): Block
    requires Proper(r.schedule)
  {
    var b := Block(n.last.height + 1, r.blockId(n.last), timestamp, delegate, n.pool, |n.pool|, FeesOfAll(n.pool),
                   CalculateReward(r.schedule, n.last.height + 1), "");
    b.(signature := r.sign(b))
  }

  /******* Executing *******/

  // All transactions in order, none failing.
  function RunTxs<D, P>(r: Rules<D, P>, db: D, p: P, txs: seq<Tx>, height: int): Option<P> {
    if txs == [] then Some(p)
    else match RunTxs(r, db, p, txs[..|txs| - 1], height)
      case None => None
      case Some(q) =>
        var e := r.exec(db, q, txs[|txs| - 1], height);
        if e.ok then Some(e.pending) else None
  }

  // Transactions in order, up to the first that fails.
  function Tried<D, P>(r: Rules<D, P>, db: D, p: P, txs: seq<Tx>, height: int): Executed<P> {
    if txs == [] then Executed(p, true)
    else
      var e := Tried(r, db, p, txs[..|txs| - 1], height);
      if e.ok then r.exec(db, e.pending, txs[|txs| - 1], height) else e
  }

  lemma {:induction false} TriedRun<D, P>(r: Rules<D, P>, db: D, p: P, txs: seq<Tx>, height: int)
    ensures var e := Tried(r, db, p, txs, height);
            RunTxs(r, db, p, txs, height) == if e.ok then Some(e.pending)
            else None
  {
    if txs == [] {
    } else {
      TriedRun(r, db, p, txs[..|txs| - 1], height);
    }
  }

  function SealAndFlush<D, P>(r: Rules<D, P>, db: D, p: P, block: Block): Option<D> {
    var e := r.seal(db, p, block);
    if e.ok then Some(r.flush(db, e.pending)) else None
  }

  /** The tables a block makes of the tables below it when its transactions are run from no pending changes. */
  function CommitOf<D, P>(r: Rules<D, P>, db: D, block: Block): Option<D> {
    match RunTxs(r, db, r.clean(db), block.transactions, block.height)
    case None => None
    case Some(p) => SealAndFlush(r, db, p, block)
  }

  /******* Tasks *******/

  predicate Refused<D, P>(r: Rules<D, P>, n: Node<D, P>, tx: Tx) {
    tx.id != r.txId(tx) || n.collecting || tx.id in n.failed || HasId(n.pool, tx.id) || tx.id in n.ids
  }

  function Execution<D, P>(r: Rules<D, P>, n: Node<D, P>, tx: Tx): Executed<P> {
    r.exec(n.db, n.pending, tx, n.last.height + 1)
  }

  predicate Accepted<D, P>(r: Rules<D, P>, n: Node<D, P>, tx: Tx) {
    !Refused(r, n, tx) && Execution(r, n, tx).ok
  }

  /** A transaction enters the pool once it was executed; one that is refused or fails is remembered as failed. */
  function Accept<D, P(==)>(r: Rules<D, P>, n: Node<D, P>, tx: Tx): Node<D, P> {
    if Refused(r, n, tx) then n.(failed := Stored(n.failed, r.failedLimit, tx.id))
    else
      var e := Execution(r, n, tx);
      if e.ok then n.(pending := e.pending, pool := n.pool + [tx])
      else n.(pending := e.pending, failed := Stored(n.failed, r.failedLimit, tx.id),
              leftover := n.leftover || e.pending != n.pending)
  }

  // Transactions enter again, up to the first one that does not.
  function Redo<D, P(==)>(r: Rules<D, P>, n: Node<D, P>, txs: seq<Tx>): Node<D, P>
    decreases |txs|
  {
    if txs == [] then n
    else if Accepted(r, n, txs[0]) then Redo(r, Accept(r, n, txs[0]), txs[1..])
    else Accept(r, n, txs[0])
  }

  function Unincluded(txs: seq<Tx>, block: Block): seq<Tx> {
    if txs == [] then []
    else
      var rest := Unincluded(txs[..|txs| - 1], block);
      if HasId(block.transactions, txs[|txs| - 1].id) then rest else rest + [txs[|txs| - 1]]
  }

  function Dropped<D, P>(r: Rules<D, P>, n: Node<D, P>): Node<D, P> {
    n.(pending := r.clean(n.db), leftover := false)
  }

  // Whatever is pending is rejected, unless the session is behind: then nothing happens.
  function Reject<D, P(==)>(r: Rules<D, P>, n: Node<D, P>): Node<D, P> {
    if n.behind then n.(leftover := n.pending != r.clean(n.db)) else Dropped(r, n)
  }

  function Cleanup<D, P>(n: Node<D, P>): Node<D, P> {
    n.(consensus := Cleared(), collecting := false)
  }

  function Append<D, P>(r: Rules<D, P>, n: Node<D, P>, block: Block, db: D): Node<D, P> {
    n.(last := block, db := db, ids := n.ids + IdsOf(block.transactions),
       earlier := n.earlier + [Point(n.last, n.db, n.ids)],
       pending := r.clean(db), behind := false, leftover := false,
       lowest := Max(n.lowest, (if n.behind then n.last.height - 1 else n.last.height) - HISTORY_HOLD))
  }

  // The part of processing a block that comes after its transactions.
  function EndBlock<D, P(==)>(r: Rules<D, P>, n: Node<D, P>, block: Block, run: P, outage: bool): Node<D, P> {
    var sealed := r.seal(n.db, run, block);
    if !sealed.ok then Reject(r, n.(pending := sealed.pending))
    else if outage then Reject(r, n.(pending := r.kept(n.db, sealed.pending)))
    else Append(r, n, block, r.flush(n.db, sealed.pending))
  }

  /** Runs a block against the database: a local one on the pending changes as they are, another one by its
      transactions. A height that does not follow the last one is refused before anything is taken back. */
  function ProcessDb<D, P(==)>(r: Rules<D, P>, n: Node<D, P>, block: Block, local: bool, outage: bool): Node<D, P> {
    if block.height != n.last.height + 1 then n
    else if local then EndBlock(r, n, block, n.pending, outage)
    else
      var run := Tried(r, n.db, n.pending, block.transactions, n.last.height + 1);
      if run.ok then EndBlock(r, n, block, run.pending, outage) else Reject(r, n.(pending := run.pending))
  }

  function ProcessBlock<D, P(==)>(r: Rules<D, P>, n: Node<D, P>, block: Block, local: bool, votes: Option<ManyVotes>,
                                  now: int, outage: bool): Node<D, P>
    requires Proper(r.schedule)
  {
    Cleanup(if local || CheckBlock(r, n, block, votes, now) then ProcessDb(r, n, block, local, outage) else n)
  }

  predicate FitsInLine<D, P>(r: Rules<D, P>, n: Node<D, P>, block: Block) {
    block.height == n.last.height + 1 && block.prevBlockId == r.blockId(n.last)
  }

  function ReceiveBlock<D, P(==)>(r: Rules<D, P>, n: Node<D, P>, block: Block, votes: Option<ManyVotes>, now: int,
                                  outage: bool): Node<D, P>
    requires Proper(r.schedule)
  {
    if FitsInLine(r, n, block) then
      Redo(r, ProcessBlock(r, Reject(r, n.(pool := [])), block, false, votes, now, outage), Unincluded(n.pool, block))
    else n
  }

  function Propose<D, P>(r: Rules<D, P>, n: Node<D, P>, block: Block, votes: ManyVotes): Node<D, P> {
    n.(consensus := Collected(r.verifyVote,
                              SetPendingBlock(n.consensus, Votes.Pending(block, block.height, r.blockId(block))),
                              votes),
       collecting := true)
  }

  predicate MayForge<D, P>(n: Node<D, P>, time: int, now: int) {
    && SlotNumber(time) == SlotNumber(now)
    && n.last.timestamp < time
    && !(n.consensus.pending.Some? && SlotNumber(n.consensus.pending.value.block.timestamp) == SlotNumber(time))
  }

  /** A node forges in its slot. With enough votes of its own it commits at once, without executing again; otherwise it
      proposes the block and collects votes. `keys` are its delegates' keys, `reachable` that it can be answered. */
  function Forge<D, P(==)>(r: Rules<D, P>, n: Node<D, P>, delegate: string, keys: seq<string>, slot: int, now: int,
                           reachable: bool, outage: bool): Node<D, P>
    requires Proper(r.schedule)
  {
    if !MayForge(n, SlotTime(slot), now) || r.tooLong(n.pool) || keys == [] then n
    else
      var block := GenerateBlock(r, n, delegate, SlotTime(slot));
      var votes := LocalVotes(r.signVote, keys, block.height, r.blockId(block));
      if HasEnoughVotes(Some(votes)) then
        (if n.consensus.pending.None? then ProcessBlock(r, n.(pool := []), block, true, Some(votes), now, outage)
         else n)
      else if reachable then Propose(r, n, block, votes)
      else n
  }

  /** Votes arrive. Once there are enough, the pending block is committed like an own one. */
  function ReceiveVotes<D, P(==)>(r: Rules<D, P>, n: Node<D, P>, votes: ManyVotes, now: int, outage: bool): Node<D, P>
    requires Proper(r.schedule)
  {
    var c := Collected(r.verifyVote, n.consensus, votes);
    if !HasEnoughVotes(c.pendingVotes) then n.(consensus := c)
    else if c.pending.None? then n.(pool := [])
    else ProcessBlock(r, n.(consensus := c, pool := []), c.pending.value.block, true, c.pendingVotes, now, outage)
  }

  datatype Incoming = Incoming(block: Block, now: int, outage: bool)

  // Blocks in order; one that is not stored keeps none of the others from being tried.
  function ProcessAll<D, P(==)>(r: Rules<D, P>, n: Node<D, P>, blocks: seq<Incoming>): Node<D, P>
    requires Proper(r.schedule)
    decreases |blocks|
  {
    if blocks == [] then n
    else ProcessAll(r, ProcessBlock(r, n, blocks[0].block, false, None, blocks[0].now, blocks[0].outage), blocks[1..])
  }

  // One digit less below: the loop that deletes blocks then stops at once.
  predicate Shrinks(height: int) {
    height > 0 && |Decimal(height)| > |Decimal(height - 1)|
  }

  /** The last block is taken back. Where the height has one digit less below, only the session goes back: the block
      stays the last one, on the tables below it. */
  function Back<D, P>(n: Node<D, P>): Node<D, P>
    requires n.earlier != []
  {
    var p := n.earlier[|n.earlier| - 1];
    if Shrinks(n.last.height) then n.(db := p.db, ids := p.ids, behind := true)
    else n.(last := p.block, db := p.db, ids := p.ids, earlier := n.earlier[..|n.earlier| - 1])
  }

  // The session has nothing to take the last block back with.
  predicate NoHistory<D, P>(n: Node<D, P>) {
    !n.behind && n.last.height < n.lowest
  }

  /** Synchronising: the pool is dropped, the last block taken back if the peer has another, and the peer's blocks
      processed. Without history for the last block it stays, and so do the locks, and no block is processed. The
      pending block and its votes stay when no block is processed. */
  function Sync<D, P(==)>(r: Rules<D, P>, n: Node<D, P>, back: bool, blocks: seq<Incoming>): Node<D, P>
    requires Proper(r.schedule)
  {
    var emptied := n.(pool := []);
    if !back || n.earlier == [] then ProcessAll(r, Reject(r, emptied), blocks)
    else if NoHistory(n) then
      emptied.(pending := r.kept(n.db, n.pending), leftover := r.kept(n.db, n.pending) != r.clean(n.db))
    else ProcessAll(r, Dropped(r, Back(emptied)), blocks)
  }

  datatype Task =
    | AcceptTask(tx: Tx)
    | ForgeTask(delegate: string, keys: seq<string>, slot: int, now: int, reachable: bool, outage: bool)
    | VotesTask(votes: ManyVotes, now: int, outage: bool)
    | BlockTask(block: Block, blockVotes: Option<ManyVotes>, now: int, outage: bool)
    | SyncTask(back: bool, blocks: seq<Incoming>)

  function Step<D, P(==)>(r: Rules<D, P>, n: Node<D, P>, t: Task): Node<D, P>
    requires Proper(r.schedule)
  {
    match t
    case AcceptTask(tx) => Accept(r, n, tx)
    case ForgeTask(delegate, keys, slot, now, reachable, outage) =>
      Forge(r, n, delegate, keys, slot, now, reachable, outage)
    case VotesTask(votes, now, outage) => ReceiveVotes(r, n, votes, now, outage)
    case BlockTask(block, votes, now, outage) => ReceiveBlock(r, n, block, votes, now, outage)
    case SyncTask(back, blocks) => Sync(r, n, back, blocks)
  }
}
