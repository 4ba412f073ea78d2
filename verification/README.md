# Model of the node's store, block processing and ledger

This project models the parts of a delegated proof-of-stake node in which state has to be kept right, and proves what
they keep.

- **The store** (`Rows`, `Changes`, `EntityCache`, `Views`, `EntityTracker`, `Operations`, `DbSession`, `Heights`,
  `SmartDB`). The database is a map from (model, key) to rows. A session caches entities under unique indexes, collects
  changes on two nested stacks, and keeps a history per height. The *view* is the tables with the pending changes
  applied. Proved: the cache shows the view; undo, commit and rollback are exact; the generated SQL hits one row per
  statement forwards and backwards; and of the contracts of a block those go through that go through on plain tables,
  which the saved tables are then made by. An operation is *safe* when it reads current rows only and keeps unique
  values unique; with an unsafe one the code goes on with a stale cache, and a block's description ends there. Where the
  code falls short, the exact condition is proved: reading a key whose pending delete or disposed change is not in the
  tables, rolling the cache back by more than one block, and deleting blocks while comparing heights as strings.
- **Speculative execution** (`Votes`, `LimitCache`, `TransactionPool`, `Node`, `Speculation`, `LostTransactions`,
  `NodeTasks`). A node between sequenced tasks accepts, forges, collects votes, receives blocks and synchronises. `Node`
  says what each task does as a function, `NodeTasks` is the code on fields and proved against it, `Speculation` proves
  what every run of tasks keeps: the chain is linked, and pending changes are the pool's transactions in order on the
  committed tables unless something is known to be left over. Committing an own block without executing it again gives
  the tables that executing it gives, and no transaction is in the chain twice, after every run of *clean* tasks. What
  is not clean is three things, each with its exact condition and a run that shows it: a synchronisation that finds no
  block drops the pool but not the proposed block, whose transactions are then stored and never executed; a transaction
  that fails before block 1 leaves its sender's account pending, which is then committed with the block; and a
  synchronisation that takes block 10 back (or 100, and so on) takes only the session to the height below, since the
  heights are compared as strings, and leaves the block as the last one.
- **The ledger** (`Sums`, `Amounts`, `Folds`, `Ledger`, `LedgerRuns`, `LedgerBlocks`, `LedgerSupply`, `Basic`,
  `LedgerNode`). Contracts read votes and delegates from the committed tables while they write the pending view.
  `LedgerRuns` says what contracts and transactions do as functions of the state, `LedgerBlocks` adds the end of a block
  and of a round, and `Basic` is the code proved against both. Proved: the lock each contract takes makes what it reads
  current; over any run of blocks, whatever rounds end in it, coins plus fees grow by exactly what `unlock` appends and
  what rounds pay out, and delegates' votes equal the locked coins of their voters at the end exactly when they did
  before and every unlocking voter was a delegate. The genesis account pays with coins it does not have, and stays in
  debt; above genesis no contract puts an account into debt, and a payout does so exactly when its last forger cannot
  bear what the number of delegates does not divide. After whole rounds the coins have grown by the rewards the supply
  counts, less what the rounds left unpaid. `LedgerNode` puts the ledger into the node: its chain is a run of the
  ledger's blocks, of any length, so all of this holds of a node from genesis.
- **Issued assets** (`AssetLedger`, `AssetRuns`, `Uia`). Over any run of blocks, failing ones included, an asset's
  quantity is what circulates, grows by exactly what is issued in blocks that succeed, and stays within the maximum it
  was registered with; issuers keep their names, and every asset is of the issuer whose name it begins with.
- **Arithmetic of consensus** (`Arithmetic`, `Supply`, `Slots`, `Delegates`, `Rounds`). The supply is the sum of the
  rewards, the delegate shuffle is a permutation, each delegate owns one slot of a round, and a round pays out all of
  its pots but twice what the number of delegates does not divide, noting for each delegate just what it is paid.

`Sequences` and `Folds` have what the others share about lists and about runs. Contract execution in `Node`, hashes,
signatures and addresses are uninterpreted functions; the clock, outages of the database and answers of peers are
parameters.

`dafny verify dfyconfig.toml` checks everything.

## Model

| member | source | states |
|---|---|---|
| Changes.RevertApply | packages/database-postgres/src/basicEntityTracker.ts:335-373 | Taking back a change that fits the tables gives exactly the tables before it |
| Changes.ForwardExact | packages/database-postgres/src/basicTrackerSqlBuilder.ts:54-76 | The statement of a fitting change makes exactly its change, and reaches one row; an update is conditioned on the version below |
| Changes.InverseExact | packages/database-postgres/src/basicTrackerSqlBuilder.ts:78-108 | The inverse statement takes the changed tables back exactly, and reaches one row |
| Changes.CommitExact | packages/database-postgres/src/basicTrackerSqlBuilder.ts:30-36 | The statements of any stack of fitting changes turn the tables into the view, each hitting exactly one row |
| Changes.InverseSqlsExact | packages/database-postgres/src/basicTrackerSqlBuilder.ts:38-52 | The inverse statements, newest first, take the view back to the tables, each hitting exactly one row |
| Changes.BuildRollbackSqls | packages/database-postgres/src/basicTrackerSqlBuilder.ts:42-50 | Popping the changes one by one yields the inverse statements newest first |
| Changes.VersionChain | packages/database-postgres/src/basicEntityTracker.ts:190-227 | Of two consecutive changes of one key the later is a create, of `_version_` 1, exactly when the earlier is a delete; a modification counts one up, a delete has the same number |
| Changes.FirstVersion | packages/database-postgres/src/basicEntityTracker.ts:190-227 | The first change of a key starts from the number its row has in the tables, or creates the row exactly when there is none |
| Changes.RunUntouched | packages/database-postgres/src/dbSession.ts:258-269 | Pending changes leave every row alone whose key they do not touch |
| EntityCaches.UniqueIndex.Add | packages/database-postgres/src/defaultEntityUniqueIndex.ts:46-52 | Fails exactly for a value that is present, and else changes that value's entry only |
| EntityCaches.UniqueIndex.Delete | packages/database-postgres/src/defaultEntityUniqueIndex.ts:57-59 | Removes that value's entry only |
| EntityCaches.EvictMeaning | packages/database-postgres/src/uniquedCache.ts:37-42 | Dropping an evicted entity's value keeps an index exact for the rest of the cache |
| EntityCaches.AddMeaning | packages/database-postgres/src/uniquedCache.ts:70-77 | Adding an entity clashes exactly when another has its all-truthy value, and else makes the index exact again |
| EntityCaches.LRUEntityCache.Evict | packages/database-postgres/src/uniquedCache.ts:95-101 | The entity is gone and the indexes are still exactly the cached all-truthy entities |
| EntityCaches.LRUEntityCache.Put | packages/database-postgres/src/uniquedCache.ts:65-78 | Stores the entity first, disposes of another one exactly when the model is full, and keeps the indexes coherent exactly when no unique value clashes |
| EntityCaches.LRUEntityCache.Trim | packages/database-postgres/src/customCache.ts:14-31 | Capacity disposal takes one other entity of the full model and its index entries |
| EntityCaches.LRUEntityCache.RefreshCached | packages/database-postgres/src/lruEntityCache.ts:140-178 | Writes the new values into a cached entity, re-entering the indexes; coherent exactly when it succeeds, which it does without a clash |
| EntityCaches.LRUEntityCache.GetUnique | packages/database-postgres/src/uniquedCache.ts:107-114 | Looking up a unique value gives what a linear scan of the cached entities gives |
| EntityCaches.LRUEntityCache.Clear | packages/database-postgres/src/uniquedCache.ts:116-120 | Evicting everything leaves an empty cache with coherent indexes |
| Views.AgreedNoClash | packages/database-postgres/src/uniquedCache.ts:65-78 | A cache that shows a view with unique rows has no clash |
| Views.CreateShown | packages/database-postgres/src/basicEntityTracker.ts:146-162 | After a create the cache shows the view exactly when the key is new to it and its unique values are free |
| Views.LoadShown | packages/database-postgres/src/basicEntityTracker.ts:164-175 | Caching a row read elsewhere is right exactly when it is the view's row |
| Views.DeleteShown | packages/database-postgres/src/basicEntityTracker.ts:177-188 | After a delete the cache shows the view without the row |
| Views.ModifyShown | packages/database-postgres/src/basicEntityTracker.ts:190-227 | After a modification the cache shows the view exactly when the unique values are free |
| Views.UndoAgrees | packages/database-postgres/src/basicEntityTracker.ts:335-373 | Undoing one change takes the cache back to the view before it |
| Views.RollbackSqlExact | packages/database-postgres/src/basicTrackerSqlBuilder.ts:38-52 | Inverse SQL over any number of recorded blocks takes the tables to their exact content at the height below, one row per statement |
| EntityTrackers.BasicEntityTracker.TrackNew | packages/database-postgres/src/basicEntityTracker.ts:146-162 | Refused exactly for a cached key; otherwise the view gains the row with defaults and version 1, and the cache shows it exactly when the key was new and the view stays consistent |
| EntityTrackers.BasicEntityTracker.TrackPersistent | packages/database-postgres/src/basicEntityTracker.ts:164-175 | Refused exactly for a cached key; otherwise the entity is cached, and the cache shows the view exactly when it is the view's row |
| EntityTrackers.BasicEntityTracker.TrackDelete | packages/database-postgres/src/basicEntityTracker.ts:177-188 | The row leaves the cache with a delete pending; a cache that showed the view shows the view without the row |
| EntityTrackers.BasicEntityTracker.TrackModify | packages/database-postgres/src/basicEntityTracker.ts:190-227 | The view row gets the real changes and the next version, or nothing happens; a cache that showed the view shows the new one exactly when it stays consistent, and one that did not is in step afterwards only if the entity was the view's row |
| EntityTrackers.StaleModify | packages/database-postgres/src/basicEntityTracker.ts:190-227 | Modifying a row read from the tables leaves the cache in step only if it was the view's row |
| EntityTrackers.StaleDelete | packages/database-postgres/src/basicEntityTracker.ts:177-188 | Deleting a row read from the tables leaves the cache in step only if it was the view's row |
| EntityTrackers.BasicEntityTracker.UndoEntityChanges | packages/database-postgres/src/basicEntityTracker.ts:335-373 | Undoing one change in the cache makes it show the view before it, indexes included |
| EntityTrackers.BasicEntityTracker.UndoChanges | packages/database-postgres/src/basicEntityTracker.ts:375-380 | Popping a whole stack makes the cache show the tables below it, changed entities being cached again unless capacity took them |
| EntityTrackers.BasicEntityTracker.BeginConfirm | packages/database-postgres/src/basicEntityTracker.ts:419-431 | Opens an empty inner stack |
| EntityTrackers.BasicEntityTracker.Confirm | packages/database-postgres/src/basicEntityTracker.ts:433-439 | Moves the inner stack onto the outer one without changing what is pending |
| EntityTrackers.BasicEntityTracker.CancelConfirm | packages/database-postgres/src/basicEntityTracker.ts:441-446 | Takes everything since the begin back exactly; confirmed changes are untouched, and rows that were cached are cached again unless capacity took them |
| EntityTrackers.BasicEntityTracker.RejectChanges | packages/database-postgres/src/basicEntityTracker.ts:382-385 | Takes every pending change back: the cache shows the committed tables |
| EntityTrackers.NarratedHeights | packages/database-postgres/src/basicEntityTracker.ts:245-258 | The history has an entry for every height from the lowest to the current one |
| EntityTrackers.BasicEntityTracker.AcceptChanges | packages/database-postgres/src/basicEntityTracker.ts:245-258 | The pending changes become the height's history, the view becomes the tables, and the window stays complete and at most one longer than the hold |
| EntityTrackers.BasicEntityTracker.RemoveExpiredHistory | packages/database-postgres/src/basicEntityTracker.ts:494-505 | Forgets exactly the heights more than the hold below the current one |
| EntityTrackers.BasicEntityTracker.ClearHistoryBefore | packages/database-postgres/src/basicEntityTracker.ts:528-550 | Deletes exactly the heights below the new lowest one, or nothing outside the window |
| EntityTrackers.BasicEntityTracker.AttachHistory | packages/database-postgres/src/basicEntityTracker.ts:448-469 | Adds loaded heights and widens the window to them |
| EntityTrackers.BasicEntityTracker.LoadHistoryUntil | packages/database-postgres/src/basicEntityTracker.ts:487-492 | With a complete stored history the window reaches down to the height and still leads from tables to tables |
| EntityTrackers.BasicEntityTracker.GetChangesUntil | packages/database-postgres/src/basicEntityTracker.ts:508-526 | All changes from a height on, oldest first |
| EntityTrackers.RolledBackHistory | packages/database-postgres/src/basicEntityTracker.ts:400-409 | After the newest height is taken back the history is in step exactly when the height below was held, or none is left |
| EntityTrackers.BasicEntityTracker.RollbackChanges | packages/database-postgres/src/basicEntityTracker.ts:387-417 | Asked for the newest height, cache, version and history go back by it; asked for more, nothing happens |
| DbSessions.StaleAfterRollback | packages/database-postgres/src/basicEntityTracker.ts:388-390 | A cache left at the newest height shows the restored tables exactly when none of its entities differs in them |
| DbSessions.DbSession.CurrentKeys | packages/database-postgres/src/dbSession.ts:258-269 | A key no pending change touches, or one in the view that capacity did not take, reads as the view has it; a deleted key does exactly when it is not in the tables |
| DbSessions.DbSession.GetOrLoad | packages/database-postgres/src/dbSession.ts:258-267 | Reads from the cache or else from the tables and caches what it reads; the cache stays in step exactly for a current key |
| DbSessions.DbSession.EnsureEntityTracking | packages/database-postgres/src/dbSession.ts:427-443 | Not found exactly for a key neither cached nor in the tables; what is found is tracked, in step exactly for a current key and else a stale row |
| DbSessions.DbSession.Create | packages/database-postgres/src/dbSession.ts:186-212 | An error exactly for a cached key; the view gains the row, in step exactly when the key was new to it and the view stays consistent |
| DbSessions.DbSession.Load | packages/database-postgres/src/dbSession.ts:258-269 | Answers the view's row and stays in step exactly for a current key |
| DbSessions.DbSession.Update | packages/database-postgres/src/dbSession.ts:445-452 | Not found exactly for a key neither cached nor in the tables; right exactly for a current key in the view when the updated view stays consistent |
| DbSessions.DbSession.Increase | packages/database-postgres/src/dbSession.ts:454-473 | The same with each amount added to the view's value, whatever properties are named |
| DbSessions.DbSession.Delete | packages/database-postgres/src/dbSession.ts:475-478 | Not found exactly for a key neither cached nor in the tables; right, and the view without the row, exactly for a current key in the view |
| DbSessions.DbSession.LockInThisSession | packages/database-postgres/src/dbSession.ts:313-332 | Refused exactly for a held name, which stays held; inside a contract the confirmed names do not change |
| DbSessions.DbSession.BeginEntityTransaction | packages/database-postgres/src/dbSession.ts:480-482 | Opens a contract with the pending changes and held names as they are |
| DbSessions.DbSession.CommitEntityTransaction | packages/database-postgres/src/dbSession.ts:484-493 | Keeps view and held names and makes both confirmed |
| DbSessions.DbSession.RollbackEntityTransaction | packages/database-postgres/src/dbSession.ts:495-501 | Back to the confirmed view and names exactly, with the cache showing it |
| DbSessions.DbSession.RunTransaction | packages/database-postgres/src/dbSession.ts:345-356 | All statements, or none when one fails or the database is out of reach |
| DbSessions.DbSession.SaveChanges | packages/database-postgres/src/dbSession.ts:334-371 | Fails only by an outage; on success the tables are the view, locks are free and the height is recorded, on failure tables are unchanged, the cache is back to them and the locks stay |
| DbSessions.DbSession.RollbackChanges | packages/database-postgres/src/dbSession.ts:373-425 | The tables go back to their exact content at any recorded height; the cache and its version follow exactly when that is one block |
| DbSessions.DbSession.Perform | packages/database-postgres/src/dbSession.ts:186-478 | A safe operation on cache and change stack is refused exactly when it is an error on plain tables or asks for a held name, and otherwise has its effect on plain tables; which entity capacity takes is open |
| DbSessions.DbSession.PerformAll | packages/database-postgres/src/dbSession.ts:186-332 | Stops exactly at the first operation that is refused or not safe, at the moment all before it lead to |
| DbSessions.DbSession.Attempt | packages/database-postgres/src/dbSession.ts:480-501 | A contract is committed exactly when all its operations succeed and rolled back exactly when a safe one is refused; unless it leaves at an unsafe one, it is committed exactly when it succeeds on plain tables, with its effect on them, and else leaves view, pending changes and names as they were |
| DbSessions.DbSession.RunContracts | packages/database-postgres/src/dbSession.ts:308-332 | Contracts run one after the other, each with all its operations or taken back, unless one leaves at an unsafe operation |
| DbSessions.DbSession.RunBlock | packages/database-postgres/src/dbSession.ts:334-371 | Unless a contract leaves at an unsafe operation, the contracts that go through are those that do on plain tables, and the saved tables are what they make; an outage alone leaves the tables unchanged |
| Operations.RunsPlain | packages/database-postgres/src/dbSession.ts:186-332 | A run of successful operations does on the view what they do on plain tables, names included |
| Operations.FailsPlain | packages/database-postgres/src/dbSession.ts:480-501 | A contract with a refused operation fails on plain tables |
| Operations.BlockPlain | packages/database-postgres/src/dbSession.ts:308-332 | Contracts that ran one after the other leave the view plain tables have, and the same of them went through |
| Operations.NamesApart | packages/database-postgres/src/dbSession.ts:313-332 | No two contracts of a block that go through lock the same name |
| Operations.RunsResident | packages/database-postgres/src/dbSession.ts:186-269 | Rows cached at some moment are cached after any operations, or deleted, or were taken by capacity |
| Operations.OneOutcome | packages/database-postgres/src/dbSession.ts:480-501 | Without cache limits contract and state alone decide where a contract stops |
| Heights.AllGreater | packages/database-postgres/src/smartDB.ts:390 | All heights above a target compare greater as strings exactly when the last has no more digits or the target is 0 or a power of ten |
| Heights.SameLength | packages/database-postgres/src/smartDB.ts:390 | Decimal strings of one length compare as their numbers |
| Heights.LongerGreater | packages/database-postgres/src/smartDB.ts:390 | A longer decimal string is greater exactly when its leading digits are at least the other number |
| SmartDBs.StopsAtTarget | packages/database-postgres/src/smartDB.ts:390-394 | The deletion loop reaches its target exactly under that condition |
| SmartDBs.OneBlock | packages/database-postgres/src/smartDB.ts:390-394 | Rolling back one block fails exactly when the height gets shorter, as from 10 to 9 |
| SmartDBs.SmartDB.BeginBlock | packages/database-postgres/src/smartDB.ts:274-292 | Opens a block exactly for the next height |
| SmartDBs.SmartDB.CommitBlock | packages/database-postgres/src/smartDB.ts:334-367 | Block, history and tables advance together or stay, and the stored history still leads from block to block |
| SmartDBs.SmartDB.RollbackBlock | packages/database-postgres/src/smartDB.ts:369-417 | Refused exactly above the last height; tables go back exactly, blocks as far as string comparison lets them; everything is in step again exactly for no block, or one block of the same number of digits whose history is held |
| SmartDBs.SmartDB.DeleteAbove | packages/database-postgres/src/smartDB.ts:390-394 | Deletes exactly the blocks above the height at which the loop stops |
| Votes.AddPendingVotes | packages/main/src/core/ConsensusHelper.ts:9-42 | Collects the signatures of a matching message one by one, skipping known keys and bad signatures |
| Votes.CollectAllCertified | packages/main/src/core/ConsensusHelper.ts:9-42 | After any messages the signers are distinct, are the key set, and all verify for the pending height and id |
| Votes.CollectAllKeys | packages/main/src/core/ConsensusHelper.ts:21-40 | A key is counted exactly when it was before or some message has a valid vote of it for the pending block |
| Votes.OrderIrrelevant | packages/main/src/core/ConsensusHelper.ts:9-42 | The same messages in another order count the same keys and reach a quorum alike |
| Votes.SetPendingCertified | packages/main/src/core/ConsensusHelper.ts:44-49 | Replacing the pending block leaves a certificate exactly when there are no votes yet or height and id are the same |
| Votes.EnoughVotes | packages/base/src/consensusBase.ts:90-94 | Enough votes are at least 68 different keys, and 68 are enough |
| Votes.EnoughAtOnce | packages/base/src/consensusBase.ts:90-94 | One message with enough different valid votes makes a quorum |
| Votes.QuorumsMeet | packages/base/src/consensusBase.ts:90-94 | Two certificates whose keys are among 101 delegates share at least 35 signers |
| Votes.DelegatesOnly | packages/main/src/core/ConsensusHelper.ts:21-40 | Nothing asks whether a signer is a delegate: only delegates are counted exactly when only they were before and all valid votes for the pending block are theirs |
| Votes.BothSigned | packages/base/src/consensusBase.ts:90-94 | When two quorums form from messages with valid votes of 101 delegates only, at least 35 of them signed both blocks |
| Votes.AnyKeysSuffice | packages/main/src/core/ConsensusHelper.ts:29-37 | 68 different keys that sign are a quorum, whoever the delegates are, and are the keys counted |
| Votes.StrangersQuorums | packages/main/src/core/ConsensusHelper.ts:21-40 | For any set of delegates, concrete keys outside it make quorums for any two blocks, without a delegate and without a common signer |
| Votes.CreateVotes | packages/base/src/consensusBase.ts:60-77 | One signature for each key, in order, for the given height and id |
| LimitCaches.HoldsLastInsertions | packages/utils/src/limit-cache.ts:14-25 | After any run the cache holds exactly the last insertions it has room for, oldest first, without repeats |
| LimitCaches.LimitCache.Set | packages/utils/src/limit-cache.ts:14-25 | Index and map stay in step exactly unless a held key gets another value; the oldest key makes room |
| LimitCaches.StoreFailed | packages/main/src/core/StateHelper.ts:122-131 | Failed ids, always stored with one value, are exactly the held keys of the run |
| TransactionPools.LiveHole | packages/transaction-pool/src/index.ts:16-22 | Making a hole at an id's position removes that transaction only and keeps the order |
| TransactionPools.TransactionPool.Add | packages/transaction-pool/src/index.ts:11-14 | Appends a transaction; the index stays exact exactly for a new id |
| TransactionPools.TransactionPool.Remove | packages/transaction-pool/src/index.ts:16-22 | Removes the transaction with the id, if any, and nothing else |
| TransactionPools.TransactionPool.Get | packages/transaction-pool/src/index.ts:45-51 | Finds a transaction exactly when one with the id is in the pool |
| TransactionPools.TransactionPool.Has | packages/transaction-pool/src/index.ts:24-27 | True exactly when a transaction with the id is in the pool |
| TransactionPools.TransactionPool.GetUnconfirmed | packages/transaction-pool/src/index.ts:29-38 | All transactions in the order they came in, holes skipped |
| TransactionPools.TransactionPool.Clear | packages/transaction-pool/src/index.ts:40-43 | Leaves no transaction |
| NodeTasks.AreTransactionsDuplicated | packages/main/src/core/BlocksHelper.ts:118-127 | True exactly when two transactions share an id |
| NodeTasks.GetFeesOfAll | packages/main/src/core/BlocksHelper.ts:61-69 | The sum of the fees |
| NodeTasks.NodeState.ProcessUnconfirmedTransaction | packages/main/src/core/transactions.ts:64-101 | Accepts or refuses as specified: executed before it enters the pool, remembered as failed otherwise |
| NodeTasks.NodeState.ProcessUnconfirmedTransactions | packages/main/src/core/transactions.ts:37-44 | Transactions enter in order up to the first that does not |
| NodeTasks.NodeState.ApplyBlock | packages/main/src/core/blocks.ts:192-207 | Succeeds exactly when ids are distinct and every transaction succeeds in order, with their joint effect pending |
| NodeTasks.NodeState.ProcessBlockDbIO | packages/main/src/core/blocks.ts:248-267 | A wrong height is refused with nothing taken back; a local block is committed unexecuted; any later failure rejects all pending changes, unless the session is behind the last block |
| NodeTasks.NodeState.ProcessBlock | packages/main/src/core/blocks.ts:287-317 | Checks unless local, runs, and always clears pending block, votes and collecting |
| NodeTasks.NodeState.OnReceiveBlock | packages/main/src/core/blocks.ts:600-684 | A fitting block is processed on clean tables, then the pool's other transactions enter again |
| NodeTasks.NodeState.OnReceiveVotes | packages/main/src/core/blocks.ts:803-846 | Counts votes and commits the pending block once there are enough |
| NodeTasks.NodeState.Loop | packages/main/src/core/delegates.ts:144-205 | Forges in the slot: commits with enough own votes, proposes otherwise |
| NodeTasks.NodeState.GenerateBlockShort | packages/main/src/core/BlocksHelper.ts:71-116 | The block of the pool on the last block, with its fees, count and reward, signed |
| NodeTasks.NodeState.SyncBlocks | packages/main/src/core/loader.ts:62-86 | Drops the pool, takes the last block back if asked, and tries every block of the peer in order |
| NodeTasks.NodeState.RollbackLast | packages/database-postgres/src/smartDB.ts:369-417 | Fails exactly without history for the last block, keeping the locks; else tables and block go back, or only the tables where the height below is shorter |
| NodeTasks.NodeState.LoadBlocks | packages/main/src/core/blocks.ts:499-527 | Tries every block in order, whether or not the ones before were stored |
| Speculation.AcceptKeeps | packages/main/src/core/transactions.ts:64-151 | Accepting keeps the chain linked, the pool unconfirmed with distinct ids, and executed in order on the committed tables unless a failure before block 1 left something over |
| Speculation.FailedRefused | packages/main/src/core/transactions.ts:82-100 | What failed or was refused is refused again, and trying it again changes nothing |
| Speculation.RedoPool | packages/main/src/core/transactions.ts:37-44 | What enters again is a first part of the transactions in order; the next one is remembered as failed |
| Speculation.PoolAfterBlock | packages/main/src/core/blocks.ts:633-672 | After a fitting block the pool holds old pool transactions the block lacks, in order, up to the first that fails |
| Speculation.RemoteBlock | packages/main/src/core/blocks.ts:103-235 | A verified block of another node links to the last one, and run on clean tables it is re-executable |
| Speculation.LocalBlock | packages/main/src/core/blocks.ts:248-267 | A block committed unexecuted is re-executable exactly when running its transactions would give the same tables |
| Speculation.PoolCommits | packages/main/src/core/blocks.ts:248-267 | Running its transactions does give the same tables when they are the pool and nothing else is pending |
| Speculation.ForgeKeeps | packages/main/src/core/delegates.ts:147-196 | Forging keeps the invariant and commits only a block that extends the last one |
| Speculation.VotesKeep | packages/main/src/core/blocks.ts:803-846 | Votes keep the invariant; a pending block is committed only if it extends the last one |
| Speculation.BlockKeeps | packages/main/src/core/blocks.ts:600-684 | Receiving a block keeps the invariant, and re-executability when the session is at the last block |
| Speculation.AllKeep | packages/main/src/core/blocks.ts:499-527 | Trying any blocks keeps the invariant, and the chain re-executable exactly when it was and each stored block made the tables its transactions make, which is so whenever nothing is pending and the session is at the last block |
| Speculation.SyncKeeps | packages/main/src/core/loader.ts:62-86 | Synchronising keeps the invariant in every case, and re-executability unless it goes below the last block |
| Speculation.StepKeeps | packages/main/src/core/blocks.ts:287-317 | Every task keeps the invariant, and re-executability but for local commits, where it states exactly when, and for going below the last block |
| Speculation.ShrinkingBack | packages/database-postgres/src/smartDB.ts:388-396 | Taking back a block above a shorter height leaves it on the tables below; the chain is then re-executable exactly when the block changes nothing on them and each block that follows is stored with the tables it makes, as a single one always is |
| Speculation.StepExact | packages/main/src/core/blocks.ts:248-267 | For any task the exact condition under which the chain stays re-executable |
| Speculation.CleanStep | packages/main/src/core/delegates.ts:179-193 | A task that is clean (it commits only the pool with nothing left over, and does not go below the last block) keeps the chain re-executable, without repeats, and the session at its end |
| Speculation.CommitExtends | packages/main/src/core/ConsensusHelper.ts:44-49 | Every local commit extends the last block, and is of the pool unless a synchronisation dropped it |
| Speculation.FromGenesis | packages/main/src/core/blocks.ts:248-267 | From genesis, after any tasks: consecutive heights, matching ids, growing slots, right rewards and fees; pending changes are the pool in order unless something is left over, which needs height 0, a session behind, or no history; and after clean runs every block is re-executable, no transaction is there twice, and the session is at the last block |
| Speculation.NoneTwice | packages/main/src/core/BlocksHelper.ts:118-127 | No transaction of the last block is in an earlier one or twice in the block |
| Speculation.GenesisStays | packages/database-postgres/src/smartDB.ts:369-417 | No run of tasks touches the first tables |
| Speculation.SameTables | packages/main/src/core/blocks.ts:192-207 | Nodes with the same re-executable blocks on the same first tables have the same tables |
| Speculation.FollowerAgrees | packages/main/src/core/blocks.ts:633-678 | A node at the same block that drops its pending changes and runs a forged block ends with the forger's tables |
| Speculation.ForgedBlockPasses | packages/main/src/core/blocks.ts:103-175 | A node in step accepts a forged block exactly when it has at most 20000 transactions |
| Speculation.DroppedPool | packages/main/src/core/loader.ts:248-260 | An empty synchronisation while votes are collected lets the block be committed with none of its transactions executed |
| Speculation.FirstFailure | packages/main/src/core/transactions.ts:123-131 | A failure that leaves something pending, as the created sender before block 1, makes the pending changes other than the pool's |
| Speculation.FirstBlockAfterFailure | packages/main/src/core/transactions.ts:123-151 | The block then forged is re-executable exactly when what was left makes no difference to its tables |
| LostTransactions.SyncLosesTransactions | packages/main/src/core/loader.ts:248-260 | A concrete run of four tasks after which the stored block is not what its transactions make |
| LostTransactions.FailureStays | packages/main/src/core/transactions.ts:123-151 | A concrete run of three tasks after which block 1 has tables its transactions do not make |
| LostTransactions.TenthStays | packages/database-postgres/src/smartDB.ts:388-396 | A clean run to block 10, which stays the last block on the tables of height 9 when it is taken back |
| Ledgers.MovedKeeps | packages/main/src/contract/basic.ts:70-102 | A transfer keeps all coins and votes, and puts no account into debt exactly when the sender has the amount or was in debt |
| Ledgers.LockedKeeps | packages/main/src/contract/basic.ts:203-230 | Locking keeps all coins and adds to votes exactly what it adds to their backing; no new debt exactly when the sender has the amount or was in debt |
| Ledgers.WithVotesKeeps | packages/main/src/contract/basic.ts:331-343 | Voting keeps votes covered, and exact exactly if they were |
| Ledgers.WithoutVotesKeeps | packages/main/src/contract/basic.ts:382-395 | Taking votes back keeps them covered, and exact exactly if they were |
| Ledgers.UnlockedVotes | packages/main/src/contract/basic.ts:244-257 | Unlocking keeps votes covered, and exact exactly if they were and the account is a delegate or votes for no one |
| Ledgers.UnlockedCoins | packages/main/src/contract/basic.ts:248-254 | Unlocking keeps the coins exactly when the balance is 0, and how much it adds otherwise |
| Ledgers.RegisteredKeeps | packages/main/src/contract/basic.ts:271-288 | A new delegate has no votes and no voters |
| LedgerRuns.CurrentVotes | packages/main/src/contract/basic.ts:10-12 | The votes of an account whose lock is free are in the tables exactly as in the view |
| LedgerRuns.OneOwner | packages/main/src/contract/basic.ts:87-92 | A name has one account |
| LedgerRuns.ContractKeeps | packages/main/src/contract/basic.ts:46-398 | A contract that may run keeps coins, votes and rules, but for what an unlock appends to coins and strands of votes; above genesis it puts no account into debt |
| LedgerRuns.TransactionKeeps | packages/main/src/core/transactions.ts:103-185 | At any height a transaction takes exactly its fee from the coins but for what an unlock appends, and votes stay exact exactly unless it strands some; a failed one changes neither; above genesis no account gets into debt |
| LedgerRuns.TransactionsKeep | packages/main/src/core/blocks.ts:200-202 | Over a block's transactions coins plus fees grow by exactly what unlocks append, which is nothing exactly when no unlocking sender has other coins; votes are exact after exactly when they were and no unlock stranded any; no account gets into debt, even when one fails |
| LedgerRuns.GenesisTransfer | packages/main/src/contract/basic.ts:57-59 | In the genesis block a transfer takes the amount from a sender without it: new debt exactly when the sender had no debt and less than the amount |
| LedgerRuns.GenesisOwes | genesisBlock.localnet.json:9-23 | The first transfer from nothing succeeds, and its sender owes the amount |
| LedgerRuns.GenesisValid | packages/main/src/core/blocks.ts:192-207 | Whatever transactions a genesis block has, its ledger keeps the rules |
| LedgerRuns.GenesisOwed | packages/main/src/contract/basic.ts:57-59 | Without unlocks, what the genesis block gives to accounts is owed by others: all balances and locks add up to 0 |
| LedgerBlocks.BalancesKeep | packages/main/src/core/blocks.ts:458-461 | Changing balances alone keeps rules, names and votes |
| LedgerBlocks.PaidKeeps | packages/main/src/core/blocks.ts:440-461 | A payout adds to the coins the shares of both pots and takes the remainders, keeps rules and votes, and puts no account into debt exactly when the last forger can bear what does not divide |
| LedgerBlocks.PoorForger | packages/main/src/core/blocks.ts:440-461 | A forger without coins is left owing a pot that is smaller than the number of delegates |
| LedgerBlocks.BlockKeeps | packages/main/src/core/blocks.ts:350-466 | Over a committed block, end of round included, coins plus fees grow by exactly what unlocks append and what is paid out; votes are exact after exactly when they were and no unlock stranded any; no new debt unless a payout leaves its forger with it |
| LedgerBlocks.RunValid | packages/main/src/core/blocks.ts:192-207 | No run of blocks breaks the ledger's rules, even when one of them fails |
| LedgerBlocks.RunCoins | packages/main/src/core/blocks.ts:363-461 | Over any run of blocks, whatever rounds end in it, coins plus fees grow by exactly what unlocks append and what is paid out; unlocks append nothing exactly when no unlocking sender has other coins |
| LedgerBlocks.RunVotes | packages/main/src/contract/basic.ts:244-257 | Over any run of blocks votes are exact at the end exactly when they were and every unlocking voter was a delegate |
| LedgerBlocks.RunDebts | packages/main/src/core/blocks.ts:458-461 | Over any run of blocks no account gets into debt unless a payout leaves its forger with it |
| LedgerBlocks.DelegatesKeepVotes | packages/main/src/contract/basic.ts:244-257 | When every sender of an unlock is a delegate to begin with, votes are exact after any run exactly when they were before |
| LedgerSupply.InsideRun | packages/main/src/core/blocks.ts:363-376 | Inside a round nothing is paid out and the pot is the fees and rewards of its blocks so far |
| LedgerSupply.RoundCoins | packages/main/src/core/blocks.ts:350-466 | A whole round of 101 delegates adds to the coins exactly the rewards of its blocks and what unlocks append, less twice what 101 does not divide |
| LedgerSupply.SupplyKept | packages/utils/src/block-reward.ts:50-94 | After any number of whole rounds the coins have grown by the rewards the supply counts up to that height, and by what unlocks append, less what the rounds left unpaid |
| BasicContracts.IsUniq | packages/main/src/contract/basic.ts:35-44 | True exactly when no entry repeats |
| BasicContracts.Contracts.Transfer | packages/main/src/contract/basic.ts:47-116 | Exactly when it succeeds, and that it moves the amount to the recipient |
| BasicContracts.Contracts.SetUserName | packages/main/src/contract/basic.ts:118-139 | Exactly when it succeeds, and that only the name changes |
| BasicContracts.Contracts.Lock | packages/main/src/contract/basic.ts:160-232 | Exactly when it succeeds, and that coins and votes move together in the view although votes are read from the tables |
| BasicContracts.Contracts.Unlock | packages/main/src/contract/basic.ts:234-257 | Exactly when it succeeds, and the view it leads to |
| BasicContracts.Contracts.DeleteCreatedVotes | packages/main/src/contract/basic.ts:9-33 | Releases exactly the account's votes of the view |
| BasicContracts.Contracts.RegisterDelegate | packages/main/src/contract/basic.ts:259-291 | Exactly when it succeeds, and that one delegate without votes is added |
| BasicContracts.Contracts.CastVotes | packages/main/src/contract/basic.ts:293-345 | Exactly when it succeeds, in terms of the view's votes, and the votes it adds |
| BasicContracts.Contracts.Unvote | packages/main/src/contract/basic.ts:347-397 | Exactly when it succeeds, in terms of the view's votes, and the votes it takes back |
| BasicContracts.Contracts.Invoke | packages/main/src/core/transactions.ts:153-181 | A contract succeeds exactly when it may, and leads to exactly its view and locks |
| BasicContracts.Contracts.Apply | packages/main/src/core/transactions.ts:103-185 | Exactly when a transaction succeeds, and its exact state: fee, contract and lock together, or nothing but a missing sender created up to block 1 |
| BasicContracts.Contracts.ApplyAll | packages/main/src/core/blocks.ts:200-202 | Transactions in order up to the first that fails; when none does, coins plus fees grow by exactly what unlocks append, and votes are exact afterwards exactly when they were and no unlock stranded any; no account gets into debt |
| BasicContracts.Contracts.PayOut | packages/main/src/core/blocks.ts:440-461 | Fails exactly for a forger without a row; else every forger has one share per block and the last one what does not divide |
| BasicContracts.Contracts.ApplyRound | packages/main/src/core/blocks.ts:350-466 | Exactly when a block's bookkeeping succeeds, and the exact balances after the end of a round |
| BasicContracts.Contracts.RunBlock | packages/main/src/core/blocks.ts:248-267 | A block is committed exactly when all transactions and the bookkeeping succeed, with exact tables, pots, forgers and delegates; else everything pending is taken back, locks included |
| BasicContracts.Contracts.RunBlocks | packages/main/src/core/blocks.ts:363-461 | Blocks in order up to the first that fails, whatever rounds end in them; when none does, coins plus fees grow by exactly what unlocks append and what is paid out, votes are exact at the end exactly when they were and every unlocking voter was a delegate, and no account gets into debt unless a payout leaves its forger with it |
| LedgerNodes.LedgerAtomic | packages/main/src/core/transactions.ts:143-151 | A failed transaction of the ledger above block 1 leaves the pending changes as they were |
| LedgerNodes.RunIsApplied | packages/main/src/core/blocks.ts:192-207 | A node that runs a block's transactions does what the ledger does |
| LedgerNodes.BlockIsApplied | packages/main/src/core/blocks.ts:248-267 | A block of any height above genesis makes of the node's tables what the ledger makes of them, end of round included, and fails exactly when it does there |
| LedgerNodes.ChainIsApplied | packages/main/src/core/blocks.ts:192-207 | A re-executable chain of any length has the tables the ledger makes of the first ones with its blocks |
| LedgerNodes.LedgerKept | packages/main/src/core/blocks.ts:248-267 | A node from genesis, after any clean tasks, over any number of rounds: coins and fees are those of genesis, what unlocks appended and what rounds paid out; votes are exact exactly when they were and every unlocking voter was a delegate; no account got into debt unless a payout left its forger with it |
| LedgerNodes.LedgerSupplied | packages/utils/src/block-reward.ts:50-94 | When such a chain ends a round and the lists of its rounds had 101 delegates, the coins have grown by the rewards the supply counts and what unlocks appended, less what the rounds left unpaid |
| AssetLedger.MovedBacked | packages/main/src/smartdb/balance-manager.ts:53-56 | Moving coins keeps every asset backed |
| AssetLedger.IssuedBacked | packages/main/src/contract/uia.ts:88-98 | Issuing keeps an asset backed exactly when it starts from the view's quantity and stays within the maximum |
| AssetRuns.CurrentAsset | packages/main/src/contract/uia.ts:78-87 | While the lock on a name is free, the tables' asset is the view's |
| AssetRuns.ContractKeeps | packages/main/src/contract/uia.ts:10-149 | A contract that may run keeps every asset backed and of its issuer, changes what circulates of each currency by exactly what it issues, and keeps what the tables know current |
| AssetRuns.TransactionKeeps | packages/main/src/core/transactions.ts:143-181 | A failed transaction leaves no trace, locks included; a successful one adds exactly what it issues |
| AssetRuns.BlockKeeps | packages/main/src/core/blocks.ts:192-267 | A block that succeeds adds exactly what its transactions issue; one that fails leaves the tables as they were |
| AssetRuns.RunKeeps | packages/main/src/core/blocks.ts:192-267 | Over any run of blocks, failing ones included, every asset stays backed, issuers and assets stay what they are, and each currency grows by exactly what the blocks that succeed issue |
| AssetRuns.RunQuantity | packages/main/src/contract/uia.ts:82-98 | After any run an asset's quantity is what it was and what was issued since, all of it on accounts, within the maximum it was registered with, and the asset begins with its issuer's name |
| UiaContracts.Contracts.Increase | packages/main/src/smartdb/balance-manager.ts:27-47 | Changes one balance by the amount, creating it; an error exactly for a new balance in a wrong currency |
| UiaContracts.Contracts.Move | packages/main/src/smartdb/balance-manager.ts:53-56 | Takes from one account and gives to the other |
| UiaContracts.Contracts.RegisterIssuer | packages/main/src/contract/uia.ts:10-35 | Exactly when it succeeds in terms of the view, although names and accounts are looked up in the tables; its one new issuer, and its lock |
| UiaContracts.Contracts.RegisterAsset | packages/main/src/contract/uia.ts:37-71 | Exactly when it succeeds in terms of the view, that the asset starts with quantity 0, and that its name is locked afterwards |
| UiaContracts.Contracts.Issue | packages/main/src/contract/uia.ts:73-100 | Exactly when it succeeds in terms of the view, although the asset is read from the tables; what it issues, and that its name is locked afterwards |
| UiaContracts.Contracts.Transfer | packages/main/src/contract/uia.ts:102-149 | Exactly when it succeeds, and that it moves the amount to the recipient |
| UiaContracts.Contracts.Invoke | packages/main/src/core/transactions.ts:153-181 | A contract succeeds exactly when it may, with exactly its view and lock; one that fails keeps the lock it took until it is rolled back |
| UiaContracts.Contracts.Apply | packages/main/src/core/transactions.ts:143-181 | Exactly when a transaction succeeds, and its exact state: contract and lock together, or nothing |
| UiaContracts.Contracts.RunBlock | packages/main/src/core/blocks.ts:192-267 | A block is committed with free locks exactly when all its transactions succeed, and rolled back otherwise |
| Supplies.CalculateSupply | packages/utils/src/block-reward.ts:50-94 | The initial amount and the rewards of all heights up to the given one, for any schedule |
| Supplies.RewardsSplit | packages/utils/src/block-reward.ts:41-48 | Rewards are 0 below the offset and milestone by milestone above it |
| Supplies.MilestoneInRange | packages/utils/src/block-reward.ts:23-39 | From the offset on the milestone is an index of the list |
| Slots.SlotTimes | packages/utils/src/slots.ts:23-33 | A slot's time is in the slot, and earlier times are in earlier slots |
| Slots.RoundHeights | packages/base/src/roundBase.ts:5-13 | Round r is exactly heights 101(r-1)+1 to 101r |
| Delegates.Shuffle | packages/main/src/core/delegates.ts:294-305 | The nested loops shuffle the list in place as specified, in bounds and terminating |
| Delegates.ShuffleKeeps | packages/main/src/core/delegates.ts:294-305 | The shuffle is a permutation for every hash function |
| Delegates.ShuffleDistinct | packages/main/src/core/delegates.ts:294-305 | Distinct delegates stay distinct and the same |
| Delegates.SameRoundSameList | packages/main/src/core/delegates.ts:283-312 | All heights of a round have the same list, an arrangement of the bookkeeper's |
| Delegates.OneSlotEach | packages/main/src/core/delegates.ts:314-326 | Each of 101 distinct delegates owns exactly one of any 101 slots in a row |
| Delegates.GetBlockSlotData | packages/main/src/core/delegates.ts:48-70 | The earliest slot within a round that belongs to one of the keys, with its time, or none |
| Delegates.FoundSlotAccepted | packages/main/src/core/delegates.ts:314-326 | The found slot's time is accepted for its owner and for no one else |
| Delegates.SlotFound | packages/main/src/core/delegates.ts:48-70 | A node with one of the keys always finds a slot |
| Delegates.CompareOrders | packages/main/src/core/delegates.ts:372-382 | On different keys the comparison is a strict total order |
| Delegates.OneRanking | packages/main/src/core/delegates.ts:384-391 | The same delegates have one ranking, whatever order they are read in |
| Rounds.PotIsRound | packages/main/src/core/blocks.ts:333-374 | A round's pot is the fees and rewards of exactly its heights |
| Rounds.PayoutExact | packages/main/src/core/blocks.ts:440-456 | With 101 delegates the pot less twice its remainder is paid, all of it exactly when 101 divides it |
| Rounds.PayoutGeneral | packages/main/src/core/blocks.ts:440-456 | What is paid for any number of delegates and forged blocks |
| Rounds.CreditedAt | packages/main/src/core/blocks.ts:458-460 | Each account gets one share per block it forged |
| Rounds.RewardedAt | packages/main/src/core/blocks.ts:410-427 | Each delegate's row gets one share per block it forged, and its counts stay |
| Rounds.PaidIsNoted | packages/main/src/core/blocks.ts:410-461 | A payout adds to a forger's balance just what it notes as its fees and rewards |
| Rounds.PaidOutTotal | packages/main/src/core/blocks.ts:458-461 | What a payout adds to all balances |
| Rounds.RoundPays | packages/main/src/core/blocks.ts:376-461 | At a round's end all balances grow by the pots of exactly its blocks less twice the remainders |
| Rounds.RoundBook.ApplyRound | packages/main/src/core/blocks.ts:350-466 | Exactly when it succeeds; pots, produced and missed blocks, and at a round's end the exact balances, fees and rewards |
| Rounds.RoundBook.CountMissed | packages/main/src/core/blocks.ts:397-408 | Fails exactly for a missing row; one missed block for exactly the delegates that forged none |
| Rounds.RoundBook.EndRound | packages/main/src/core/blocks.ts:386-461 | Exactly when the end of a round succeeds, and all it changes |

## Left out

- HTTP, peer-to-peer transport, protobuf, command line, configuration and logging: input and output.
- SHA-256, Ed25519, base58 addresses and byte serialisation: functions and predicates without meaning of their own.
- TypeORM, JSON-SQL text and Postgres: a statement is its insert, update or delete on a map. Column widths and the rounding of `Number()` are not modelled; amounts are mathematical integers.
- A property that is `null`, `undefined` or missing is one and the same; the property changes of one change are a map by name. A modifier that lists a property under both spellings cannot be told apart.
- Primary keys are (model, id) pairs; how an object is normalised to a key is not modelled, nor is looking an entity up for `load` by a unique property.
- Caches of all models are one map and the unique indexes are values: the nesting of `modelCaches`, `UniquedCache`, `CustomCache` and `DefaultEntityUniqueIndex` as separate mutable objects is not modelled, nor that a model's cache is created on first use. Cached entities are values, so a caller that holds one and changes it behind the tracker's back is not modelled.
- Which entity the LRU library disposes of is left open; any other entity of the model may go.
- DbSessions.DbSession.Attempt: what a contract does after an operation that is not safe is not described; the code goes on with a cache that shows other rows than the view or has two entities with one unique value. When an operation is not safe is exact in `SafeAt`.
- DbSessions.DbSession.Increase: a sum of values that are not both decimal strings or both numbers is an uninterpreted function.
- DbSessions.DbSession.RollbackChanges: after more than one block only the tables are exact; the cache is stated to show the tables of the newest height.
- EntityTrackers.BasicEntityTracker.AcceptChanges: heights follow one another, or start anywhere with an empty history; `initVersion` at start-up is not modelled.
- SmartDBs.SmartDB.CommitBlock: hooks, the block cache and `ensureLastBlockLoaded` are not modelled; nor is a commit by a session that is behind the last block, which `Nodes.Append` describes.
- NodeTasks.NodeState.SyncBlocks: takes back at most one block. The code may take back up to four at once, after which the cache shows the newest tables while the database has older ones (`DbSessions.DbSession.RollbackChanges`); that state is not one of the machine. Synchronising from genesis, which leaves the pool alone, is not a task of the machine.
- NodeTasks.NodeState.RollbackLast: the history in memory starts with genesis; a node that starts on a stored chain holds none.
- LedgerBlocks.AppliedBlock: what a delegate's row counts (produced and missed blocks, fees and rewards) is stated of `Rounds` only; the ledger asks just whether the row is there. The delegates with most votes, the list of a height and the address of a public key are functions without meaning of their own there; `Delegates` says what the first two do.
- LedgerNodes.LedgerKept: starts from the tables genesis made; `LedgerRuns.GenesisValid` is about making them. Issued assets are not part of the node's ledger.
- NodeTasks.NodeState.ProcessUnconfirmedTransaction: transactions arrive with an id; a missing one is not filled in.
- NodeTasks.NodeState.OnReceiveBlock: `blockCache` is always empty between tasks, and a block from a fork only schedules another task; both are not modelled. Proposals of other nodes change no part of the modelled state.
- The 15-second limit of a sequenced task and an outage while pending changes are rejected are not modelled.
- BasicContracts.Contracts.Transfer: the transfer record, `setSecondPassphrase`, and the checks of `TransactionBase.verify` are not modelled.
- UiaContracts.Contracts.RegisterAsset: the checks of symbol, precision and description are one flag, and so is the pattern for names in `issue`. The transfer record is not modelled, and whether sender and fee are in order is one flag of a transaction.
- Rounds.RoundBook.ApplyRound: accounts are kept by public key; what a failing block has already changed is taken back by the session.
- The views of delegates with rate, approval and productivity, the block explorer queries and `contract/ml.ts`.
