/** Transactions, blocks and runs of blocks of the basic ledger, as functions on its state, and what they keep. */
module LedgerRuns {
  import opened Rows
  import opened Heights
  import opened Amounts
  import opened Sequences
  import opened Ledgers

  const MIN_LOCK_HEIGHT: nat := 5760 * 30
  const RESERVE: nat := 100000000

  // What is asked of addresses and new names.
  datatype Checks = Checks(isAddress: string -> bool, validName: string -> bool)

  // The committed tables, the view with the block's pending changes, and the accounts locked in this block.
  datatype State = State(tables: Ledger, view: Ledger, locks: set<string>)

  datatype Transaction = Transaction(sender: string, fee: nat, call: Call)

  // Votes of accounts that hold no lock are in the view just as in the tables.
  ghost predicate BallotsCurrent(tables: Ledger, view: Ledger, locks: set<string>) {
    forall v | v in tables.votes + view.votes && v.voter !in locks :: v in tables.votes && v in view.votes
  }

  ghost predicate Valid(s: State) {
    && Sound(s.tables) && Sound(s.view) && s.tables.delegates.Keys <= s.view.delegates.Keys
    && BallotsCurrent(s.tables, s.view, s.locks)
  }

  lemma CurrentVotes(tables: Ledger, view: Ledger, locks: set<string>, voter: string)
    requires BallotsCurrent(tables, view, locks) && voter !in locks
    ensures VotedBy(tables, voter) == VotedBy(view, voter)
  {
    forall d
      ensures Vote(voter, d) in tables.votes <==> Vote(voter, d) in view.votes
    {
      assert Vote(voter, d) in tables.votes + view.votes ==>
               Vote(voter, d) in tables.votes && Vote(voter, d) in view.votes;
    }
    assert forall d :: d in VotedBy(tables, voter) <==> Vote(voter, d) in tables.votes;
    assert forall d :: d in VotedBy(view, voter) <==> Vote(voter, d) in view.votes;
  }

  lemma LockedVotes(tables: Ledger, view: Ledger, view': Ledger, locks: set<string>, voter: string)
    requires BallotsCurrent(tables, view, locks)
    requires forall v: Vote | v.voter != voter :: v in view'.votes <==> v in view.votes
    ensures BallotsCurrent(tables, view', locks + {voter})
  {
    forall v | v in tables.votes + view'.votes && v.voter !in locks + {voter}
      ensures v in tables.votes && v in view'.votes
    {
      assert v in tables.votes + view.votes;
    }
  }

  /******* One contract *******/

  predicate HasName(l: Ledger, address: string, username: string) {
    address in l.accounts && l.accounts[address].username == Some(username)
  }

  predicate KnownName(l: Ledger, username: string) {
    exists a | a in l.accounts :: l.accounts[a].username == Some(username)
  }

  // The account with a name.
  ghost function Owner(l: Ledger, username: string): (r: string)
    ensures KnownName(l, username) ==> HasName(l, r, username)
  {
    if KnownName(l, username) then
      var a :| a in l.accounts && l.accounts[a].username == Some(username);
      a
    else ""
  }

  // Names are unique.
  lemma OneOwner(l: Ledger, address: string, username: string)
    requires NamesOk(l) && HasName(l, address, username)
    ensures Owner(l, username) == address
  {
    assert KnownName(l, username);
  }

  // Who receives a transfer: an address stands for itself, anything else is a username.
  ghost function Recipient(c: Checks, l: Ledger, recipient: string): string {
    if c.isAddress(recipient) then recipient else Owner(l, recipient)
  }

  // What vote and unvote ask of the list of delegates.
  predicate ProperList(tables: Ledger, delegates: seq<string>) {
    && 0 < |delegates| <= 33 && Distinct(delegates)
    && forall i | 0 <= i < |delegates| :: delegates[i] in tables.delegates
  }

  predicate TakesLock(call: Call, height: int) {
    !call.Transfer? && (call.RegisterDelegate? ==> height > 0)
  }

  /** Whether a contract succeeds. */
  predicate May(c: Checks, s: State, sender: string, call: Call, height: int)
    requires sender in s.view.accounts
  {
    var a := s.view.accounts[sender];
    && (TakesLock(call, height) ==> sender !in s.locks)
    && match call
       case Transfer(amount, recipient) =>
         && recipient != "" && ValidAmount(amount) && (height > 0 ==> a.gny >= amount)
         && sender != recipient && a.username != Some(recipient)
         && (c.isAddress(recipient) || KnownName(s.view, recipient))
       case SetUserName(username) => c.validName(username) && !KnownName(s.view, username) && a.username.None?
       case LockCoins(until, amount) =>
         && ValidAmount(until) && ValidAmount(amount) && a.gny - RESERVE >= amount
         && until >= height + MIN_LOCK_HEIGHT && (a.isLocked ==> until >= a.lockHeight + MIN_LOCK_HEIGHT)
       case Unlock => a.isLocked && height > a.lockHeight
       case RegisterDelegate => a.username.Some? && !a.isDelegate
       case CastVotes(delegates) =>
         && a.isLocked && ProperList(s.tables, delegates)
         && |VotedBy(s.view, sender)| + |delegates| <= 101 && VotedBy(s.view, sender) !! Names(delegates)
       case Unvote(delegates) =>
         a.isLocked && ProperList(s.tables, delegates) && Names(delegates) <= VotedBy(s.view, sender)
  }

  /** What a contract makes of the view. */
  ghost function After(c: Checks, l: Ledger, sender: string, call: Call): Ledger
    requires sender in l.accounts
  {
    var a := l.accounts[sender];
    match call
    case Transfer(amount, recipient) => Moved(l, sender, Recipient(c, l, recipient), amount)
    case SetUserName(username) => SetAccount(l, sender, a.(username := Some(username)))
    case LockCoins(until, amount) => Locked(l, sender, until, amount)
    case Unlock => Unlocked(l, sender)
    case RegisterDelegate => if a.username.Some? then Registered(l, sender, a.username.value) else l
    case CastVotes(delegates) => WithVotes(l, sender, Names(delegates))
    case Unvote(delegates) => WithoutVotes(l, sender, Names(delegates))
  }

  // What an unlocking sender gains beyond its locked coins: digits appended to a balance that is not 0.
  function Surplus(l: Ledger, sender: string, call: Call): int {
    var a := AccountOf(l, sender);
    if call.Unlock? && a.lockAmount >= 0 then a.gny * (Pow10(|Decimal(a.lockAmount)|) - 1) else 0
  }

  // A call that leaves votes behind that nothing backs.
  predicate Strands(l: Ledger, sender: string, call: Call) {
    call.Unlock? && !AccountOf(l, sender).isDelegate && VotedBy(l, sender) != {}
  }

  // What a successful contract does to coins, votes and names.
  ghost predicate Kept(l: Ledger, l': Ledger, sender: string, call: Call, height: int) {
    && Sound(l') && sender in l'.accounts && l.delegates.Keys <= l'.delegates.Keys
    && (height > 0 || !call.Unlock? ==> Total(l') == Total(l) + Surplus(l, sender, call))
    && (VotesExact(l') <==> VotesExact(l) && !Strands(l, sender, call))
    && (height > 0 ==> NoNewDebt(l, l'))
    && FlagsKept(l, l')
  }

  // A delegate stays one.
  ghost predicate FlagsKept(l: Ledger, l': Ledger) {
    forall a | AccountOf(l, a).isDelegate :: AccountOf(l', a).isDelegate
  }

  // The votes of all but the sender stay.
  lemma OthersVotes(c: Checks, l: Ledger, sender: string, call: Call)
    requires sender in l.accounts
    ensures forall v: Vote | v.voter != sender :: v in After(c, l, sender, call).votes <==> v in l.votes
    ensures !TakesLock(call, 1) ==> After(c, l, sender, call).votes == l.votes
    ensures call.RegisterDelegate? ==> After(c, l, sender, call).votes == l.votes
  {
  }

  lemma PartsKept(l: Ledger, l': Ledger, sender: string, call: Call, height: int)
    requires LocksOk(l') && VotesCovered(l') && NamesOk(l') && sender in l'.accounts
    requires l.delegates.Keys <= l'.delegates.Keys && FlagsKept(l, l') && (height > 0 ==> NoNewDebt(l, l'))
    requires height > 0 || !call.Unlock? ==> Total(l') == Total(l) + Surplus(l, sender, call)
    requires VotesExact(l') <==> VotesExact(l) && !Strands(l, sender, call)
    ensures Kept(l, l', sender, call, height)
  {
  }

  lemma SameFlags(l: Ledger, l': Ledger)
    requires SameNames(l, l')
    ensures FlagsKept(l, l')
  {
  }

  // A change of coins, votes and locks, but not of names.
  lemma RestKept(l: Ledger, l': Ledger, sender: string, call: Call, height: int)
    requires NamesOk(l) && SameNames(l, l') && l.delegates.Keys <= l'.delegates.Keys && sender in l'.accounts
    requires LocksOk(l') && VotesCovered(l') && (height > 0 ==> NoNewDebt(l, l'))
    requires height > 0 || !call.Unlock? ==> Total(l') == Total(l) + Surplus(l, sender, call)
    requires VotesExact(l') <==> VotesExact(l) && !Strands(l, sender, call)
    ensures Kept(l, l', sender, call, height)
  {
    NamesKept(l, l');
    SameFlags(l, l');
    PartsKept(l, l', sender, call, height);
  }

  lemma MovedKept(l: Ledger, sender: string, to: string, call: Call, height: int)
    requires Sound(l) && sender in l.accounts && to != sender && call.Transfer? && call.amount > 0
    requires height > 0 ==> l.accounts[sender].gny >= call.amount
    ensures Kept(l, Moved(l, sender, to, call.amount), sender, call, height)
  {
    MovedKeeps(l, sender, to, call.amount);
    RestKept(l, Moved(l, sender, to, call.amount), sender, call, height);
  }

  lemma TransferKept(c: Checks, l: Ledger, sender: string, call: Call, height: int)
    requires Sound(l) && sender in l.accounts && call.Transfer? && May(c, State(l, l, {}), sender, call, height)
    ensures Kept(l, After(c, l, sender, call), sender, call, height)
  {
    MovedKept(l, sender, Recipient(c, l, call.recipient), call, height);
  }

  lemma NameKept(c: Checks, l: Ledger, sender: string, call: Call, height: int)
    requires Sound(l) && sender in l.accounts && call.SetUserName? && May(c, State(l, l, {}), sender, call, height)
    ensures Kept(l, After(c, l, sender, call), sender, call, height)
  {
    var a := l.accounts[sender].(username := Some(call.username));
    var l' := SetAccount(l, sender, a);
    NamedKeeps(l, sender, call.username);
    SameCoins(l, sender, a);
    assert FlagsKept(l, l') && NoNewDebt(l, l');
    PartsKept(l, l', sender, call, height);
  }

  lemma LockKept(c: Checks, l: Ledger, sender: string, call: Call, height: int)
    requires Sound(l) && sender in l.accounts && call.LockCoins? && May(c, State(l, l, {}), sender, call, height)
    ensures Kept(l, After(c, l, sender, call), sender, call, height)
  {
    LockedKeeps(l, sender, call.height, call.lockedAmount);
    RestKept(l, Locked(l, sender, call.height, call.lockedAmount), sender, call, height);
  }

  lemma UnlockKept(c: Checks, l: Ledger, sender: string, call: Call, height: int)
    requires Sound(l) && sender in l.accounts && call.Unlock? && l.accounts[sender].isLocked
    requires height > 0 ==> l.accounts[sender].gny >= 0
    ensures Kept(l, After(c, l, sender, call), sender, call, height)
  {
    UnlockedVotes(l, sender);
    UnlockedRest(l, sender);
    if height > 0 {
      UnlockedCoins(l, sender);
    }
    RestKept(l, Unlocked(l, sender), sender, call, height);
  }

  lemma UnlockedRest(l: Ledger, sender: string)
    requires Sound(l) && sender in l.accounts
    ensures LocksOk(Unlocked(l, sender)) && SameNames(l, Unlocked(l, sender))
    ensures Unlocked(l, sender).delegates.Keys == l.delegates.Keys
  {
  }

  lemma RegisteredRest(l: Ledger, sender: string, username: string)
    requires LocksOk(l) && sender in l.accounts
    ensures var l' := Registered(l, sender, username);
            LocksOk(l') && FlagsKept(l, l') && NoNewDebt(l, l')
  {
  }

  lemma RegisterKept(c: Checks, l: Ledger, sender: string, call: Call, height: int)
    requires Sound(l) && sender in l.accounts && call.RegisterDelegate? && May(c, State(l, l, {}), sender, call, height)
    ensures Kept(l, After(c, l, sender, call), sender, call, height)
  {
    var l' := Registered(l, sender, l.accounts[sender].username.value);
    RegisteredNames(l, sender, l.accounts[sender].username.value);
    RegisteredKeeps(l, sender, l.accounts[sender].username.value);
    RegisteredRest(l, sender, l.accounts[sender].username.value);
    PartsKept(l, l', sender, call, height);
  }

  lemma VoteKept(c: Checks, l: Ledger, sender: string, call: Call, height: int)
    requires Sound(l) && sender in l.accounts && call.CastVotes? && Names(call.delegates) <= l.delegates.Keys
    requires VotedBy(l, sender) !! Names(call.delegates)
    ensures Kept(l, After(c, l, sender, call), sender, call, height)
  {
    WithVotesKeeps(l, sender, Names(call.delegates));
    RestKept(l, WithVotes(l, sender, Names(call.delegates)), sender, call, height);
  }

  lemma UnvoteKept(c: Checks, l: Ledger, sender: string, call: Call, height: int)
    requires Sound(l) && sender in l.accounts && call.Unvote? && Names(call.delegates) <= VotedBy(l, sender)
    ensures Kept(l, After(c, l, sender, call), sender, call, height)
  {
    WithoutVotesKeeps(l, sender, Names(call.delegates));
    RestKept(l, WithoutVotes(l, sender, Names(call.delegates)), sender, call, height);
  }

  lemma ListRegistered(s: State, delegates: seq<string>)
    requires Valid(s) && ProperList(s.tables, delegates)
    ensures Names(delegates) <= s.view.delegates.Keys
  {
  }

  /** A successful contract keeps coins and votes, but for what an unlock appends or strands. */
  lemma ContractKeeps(c: Checks, s: State, sender: string, call: Call, height: int)
    requires Valid(s) && sender in s.view.accounts && May(c, s, sender, call, height)
    requires height > 0 ==> s.view.accounts[sender].gny >= 0
    ensures Kept(s.view, After(c, s.view, sender, call), sender, call, height)
    ensures Valid(Locking(s, After(c, s.view, sender, call), sender, call, height))
  {
    match call {
      case Transfer(_, _) => TransferKept(c, s.view, sender, call, height);
      case SetUserName(_) => NameKept(c, s.view, sender, call, height);
      case LockCoins(_, _) => LockKept(c, s.view, sender, call, height);
      case Unlock => UnlockKept(c, s.view, sender, call, height);
      case RegisterDelegate => RegisterKept(c, s.view, sender, call, height);
      case CastVotes(delegates) =>
        ListRegistered(s, delegates);
        VoteKept(c, s.view, sender, call, height);
      case Unvote(_) => UnvoteKept(c, s.view, sender, call, height);
    }
    OthersVotes(c, s.view, sender, call);
    LockedVotes(s.tables, s.view, After(c, s.view, sender, call), s.locks, sender);
  }

  // The state with a new view, and the sender's lock if the contract takes it.
  function Locking(s: State, view: Ledger, sender: string, call: Call, height: int): State {
    State(s.tables, view, if TakesLock(call, height) then s.locks + {sender} else s.locks)
  }

  /******* One transaction *******/

  // The ledger with the sender's account.
  function Entered(l: Ledger, sender: string): Ledger {
    if sender in l.accounts then l else SetAccount(l, sender, NEW_ACCOUNT)
  }

  // The ledger after the sender paid the fee, a missing sender created.
  function Charged(l: Ledger, sender: string, height: int, fee: nat): Ledger {
    var a := AccountOf(l, sender);
    SetAccount(l, sender, if height == 0 then a else a.(gny := a.gny - fee))
  }

  // The state in which the contract of a transaction runs.
  function ChargedState(s: State, t: Transaction, height: int): State {
    s.(view := Charged(s.view, t.sender, height, t.fee))
  }

  predicate Passes(c: Checks, s: State, t: Transaction, height: int) {
    && (t.sender in s.view.accounts || height <= 1)
    && (height == 0 || AccountOf(s.view, t.sender).gny >= t.fee)
    && May(c, ChargedState(s, t, height), t.sender, t.call, height)
  }

  /** One transaction: the sender pays the fee and the contract runs. A failure leaves no trace, but that a missing
      sender is created before, up to the first block, and stays. */
  ghost function Applied(c: Checks, s: State, t: Transaction, height: int): (State, bool) {
    if Passes(c, s, t, height) then
      var charged := ChargedState(s, t, height);
      (Locking(s, After(c, charged.view, t.sender, t.call), t.sender, t.call, height), true)
    else (if height <= 1 then s.(view := Entered(s.view, t.sender)) else s, false)
  }

  lemma ChargedSound(l: Ledger, sender: string, height: int, fee: nat)
    requires Sound(l)
    ensures var l' := Charged(l, sender, height, fee);
            && Sound(l') && l'.delegates == l.delegates && l'.votes == l.votes
            && Total(l') == Total(l) - (if height == 0 then 0 else fee)
            && (VotesExact(l') <==> VotesExact(l))
  {
    var l' := Charged(l, sender, height, fee);
    SameCoins(l, sender, l'.accounts[sender]);
    NamesKept(l, l');
  }

  lemma EnteredCharged(l: Ledger, sender: string, height: int, fee: nat)
    ensures Charged(Entered(l, sender), sender, height, fee) == Charged(l, sender, height, fee)
    ensures AccountOf(Entered(l, sender), sender) == AccountOf(l, sender)
  {
  }

  lemma EnteredSound(l: Ledger, sender: string)
    requires Sound(l)
    ensures var l' := Entered(l, sender);
            && Sound(l') && l'.delegates == l.delegates && l'.votes == l.votes && FlagsKept(l, l')
            && Total(l') == Total(l) && (VotesExact(l') <==> VotesExact(l)) && NoNewDebt(l, l')
  {
    ChargedSound(l, sender, 0, 0);
    if sender in l.accounts {
      assert l.accounts[sender := l.accounts[sender]] == l.accounts;
    }
  }

  lemma ChargedFlags(l: Ledger, sender: string, height: int, fee: nat)
    ensures FlagsKept(l, Charged(l, sender, height, fee))
    ensures height == 0 || AccountOf(l, sender).gny >= fee ==> NoNewDebt(l, Charged(l, sender, height, fee))
  {
  }

  lemma PassedKeeps(c: Checks, s: State, t: Transaction, height: int)
    requires Valid(s) && Passes(c, s, t, height)
    ensures var charged := Charged(s.view, t.sender, height, t.fee);
            && Valid(Applied(c, s, t, height).0)
            && Kept(charged, Applied(c, s, t, height).0.view, t.sender, t.call, height)
  {
    ChargedSound(s.view, t.sender, height, t.fee);
    ContractKeeps(c, ChargedState(s, t, height), t.sender, t.call, height);
  }

  /** What a transaction keeps. A successful one takes exactly the fee from the coins, but for what an unlock appends,
      and exact votes stay exact unless an unlock strands some; a failed one changes neither. */
  lemma TransactionKeeps(c: Checks, s: State, t: Transaction, height: int)
    requires Valid(s)
    ensures var (s', ok) := Applied(c, s, t, height);
            var charged := Charged(s.view, t.sender, height, t.fee);
            && Valid(s') && s'.tables == s.tables && FlagsKept(s.view, s'.view)
            && (height > 0 ==> NoNewDebt(s.view, s'.view))
            && (ok && (height > 0 || !t.call.Unlock?) ==>
                  Total(s'.view) == Total(s.view) - (if height == 0 then 0 else t.fee)
                      + Surplus(charged, t.sender, t.call))
            && (!ok ==> Total(s'.view) == Total(s.view))
            && (VotesExact(s'.view) <==> VotesExact(s.view) && !(ok && Strands(charged, t.sender, t.call)))
  {
    if Passes(c, s, t, height) {
      ChargedSound(s.view, t.sender, height, t.fee);
      ChargedFlags(s.view, t.sender, height, t.fee);
      PassedKeeps(c, s, t, height);
    } else {
      EnteredSound(s.view, t.sender);
    }
  }

  /******* Blocks *******/

  /** Transactions in order, up to the first that fails. */
  ghost function AppliedAll(c: Checks, s: State, txs: seq<Transaction>, height: int): (State, bool) {
    if txs == [] then (s, true)
    else
      var (before, ok) := AppliedAll(c, s, txs[..|txs| - 1], height);
      if ok then Applied(c, before, txs[|txs| - 1], height) else (before, false)
  }

  // After a failure nothing more is applied.
  lemma {:induction false} FailureStays(c: Checks, s: State, txs: seq<Transaction>, n: nat, height: int)
    requires n <= |txs| && !AppliedAll(c, s, txs[..n], height).1
    ensures AppliedAll(c, s, txs, height) == AppliedAll(c, s, txs[..n], height)
  {
    if n == |txs| {
      assert txs[..n] == txs;
    } else {
      assert txs[..|txs| - 1][..n] == txs[..n];
      FailureStays(c, s, txs[..|txs| - 1], n, height);
    }
  }

  // The ledger from which the contract of transaction i runs.
  ghost function ChargedAt(c: Checks, s: State, txs: seq<Transaction>, i: nat, height: int): Ledger
    requires i < |txs|
  {
    Charged(AppliedAll(c, s, txs[..i], height).0.view, txs[i].sender, height, txs[i].fee)
  }

  /** What the unlocks among transactions append to balances. */
  ghost function SurplusAll(c: Checks, s: State, txs: seq<Transaction>, height: int): int {
    if txs == [] then 0
    else
      var n := |txs| - 1;
      SurplusAll(c, s, txs[..n], height) + Surplus(ChargedAt(c, s, txs, n, height), txs[n].sender, txs[n].call)
  }

  // One of the transactions is an unlock that strands votes.
  ghost predicate StrandsIn(c: Checks, s: State, txs: seq<Transaction>, height: int) {
    if txs == [] then false
    else
      var n := |txs| - 1;
      StrandsIn(c, s, txs[..n], height) || Strands(ChargedAt(c, s, txs, n, height), txs[n].sender, txs[n].call)
  }

  // One of the transactions is an unlock whose sender has coins left besides the locked ones.
  ghost predicate AppendsIn(c: Checks, s: State, txs: seq<Transaction>, height: int) {
    if txs == [] then false
    else
      var n := |txs| - 1;
      AppendsIn(c, s, txs[..n], height) || Appends(ChargedAt(c, s, txs, n, height), txs[n].sender, txs[n].call)
  }

  predicate Appends(l: Ledger, sender: string, call: Call) {
    call.Unlock? && AccountOf(l, sender).gny != 0
  }

  function Fees(txs: seq<Transaction>): nat {
    if txs == [] then 0 else Fees(txs[..|txs| - 1]) + txs[|txs| - 1].fee
  }

  /** The transactions of a block, none failing: with the fees they pay the coins are as before, plus what unlocks
      appended, which is nothing exactly when no unlocking sender has other coins. Votes are exact afterwards exactly
      when they were and no unlock stranded any. No account gets into debt, even when one of them fails. */
  lemma {:induction false} TransactionsKeep(c: Checks, s: State, txs: seq<Transaction>, height: int)
    requires Valid(s) && height > 0
    ensures var (s', ok) := AppliedAll(c, s, txs, height);
            && Valid(s') && s'.tables == s.tables && NoNewDebt(s.view, s'.view) && FlagsKept(s.view, s'.view)
            && (ok ==> Total(s'.view) + Fees(txs) == Total(s.view) + SurplusAll(c, s, txs, height))
            && (ok ==> SurplusAll(c, s, txs, height) >= 0)
            && (ok ==> (SurplusAll(c, s, txs, height) == 0 <==> !AppendsIn(c, s, txs, height)))
            && (ok ==> (VotesExact(s'.view) <==> VotesExact(s.view) && !StrandsIn(c, s, txs, height)))
  {
    if txs == [] {
    } else {
      var n := |txs| - 1;
      TransactionsKeep(c, s, txs[..n], height);
      var (before, ok) := AppliedAll(c, s, txs[..n], height);
      if ok {
        TransactionKeeps(c, before, txs[n], height);
        if Passes(c, before, txs[n], height) {
          SurplusSign(c, before, txs[n], height);
        }
      }
    }
  }

  lemma SurplusSign(c: Checks, s: State, t: Transaction, height: int)
    requires Valid(s) && height > 0 && Passes(c, s, t, height)
    ensures var charged := Charged(s.view, t.sender, height, t.fee);
            && Surplus(charged, t.sender, t.call) >= 0
            && (Surplus(charged, t.sender, t.call) == 0 <==> !Appends(charged, t.sender, t.call))
  {
    var a := AccountOf(Charged(s.view, t.sender, height, t.fee), t.sender);
    ChargedSound(s.view, t.sender, height, t.fee);
    if t.call.Unlock? {
      assert a.gny >= 0 && a.lockAmount > 0;
      PowMonotone(1, |Decimal(a.lockAmount)|);
      assert Pow10(1) == 10;
      NonZeroProduct(a.gny, Pow10(|Decimal(a.lockAmount)|) - 1);
    }
  }

  // The view becomes the tables, and the locks are free.
  function Committed(s: State): State {
    State(s.view, s.view, {})
  }

  // Pending changes and locks are given up.
  function RolledBack(s: State): State {
    State(s.tables, s.tables, {})
  }

  /******* The genesis block *******/

  /** In the genesis block a transfer needs no balance: the account that issues the coins owes them, exactly when it has
      fewer. */
  lemma GenesisTransfer(c: Checks, s: State, t: Transaction)
    requires Valid(s) && t.call.Transfer? && Passes(c, s, t, 0)
    ensures var s' := Applied(c, s, t, 0).0;
            && AccountOf(s'.view, t.sender).gny == AccountOf(s.view, t.sender).gny - t.call.amount
            && (NoNewDebt(s.view, s'.view) <==>
                  AccountOf(s.view, t.sender).gny < 0 || AccountOf(s.view, t.sender).gny >= t.call.amount)
  {
    var charged := Charged(s.view, t.sender, 0, t.fee);
    assert charged == Entered(s.view, t.sender) by { EnteredCharged(s.view, t.sender, 0, t.fee); }
    MovedKeeps(charged, t.sender, Recipient(c, charged, t.call.recipient), t.call.amount);
    assert forall a :: AccountOf(charged, a).gny == AccountOf(s.view, a).gny;
  }

  // No accounts at all, and nothing pending.
  function Nothing(): State {
    var none := Ledger(map[], map[], {});
    State(none, none, {})
  }

  /** From nothing: whoever pays first, pays with debt. */
  lemma GenesisOwes(c: Checks, sender: string, recipient: string, amount: int)
    requires ValidAmount(amount) && c.isAddress(recipient) && recipient != "" && sender != recipient
    ensures var (s, ok) := Applied(c, Nothing(), Transaction(sender, 0, Transfer(amount, recipient)), 0);
            ok && AccountOf(s.view, sender).gny == -amount && AccountOf(s.view, recipient).gny == amount
  {
    var s := Nothing();
    var t := Transaction(sender, 0, Transfer(amount, recipient));
    assert Charged(s.view, sender, 0, 0).accounts == map[sender := NEW_ACCOUNT];
    assert Passes(c, s, t, 0);
  }

  lemma NothingValid()
    ensures Valid(Nothing()) && Total(Nothing().view) == 0
  {
  }

  /** The genesis block makes a ledger that keeps the rules. */
  lemma {:induction false} GenesisValid(c: Checks, txs: seq<Transaction>)
    ensures Valid(AppliedAll(c, Nothing(), txs, 0).0)
  {
    if txs == [] {
      NothingValid();
    } else {
      GenesisValid(c, txs[..|txs| - 1]);
      TransactionKeeps(c, AppliedAll(c, Nothing(), txs[..|txs| - 1], 0).0, txs[|txs| - 1], 0);
    }
  }

  predicate NoUnlocks(txs: seq<Transaction>) {
    forall i | 0 <= i < |txs| :: !txs[i].call.Unlock?
  }

  /** All coins of a genesis block without unlocks are owed: debts included, they add up to 0. */
  lemma {:induction false} GenesisOwed(c: Checks, txs: seq<Transaction>)
    requires NoUnlocks(txs)
    ensures Total(AppliedAll(c, Nothing(), txs, 0).0.view) == 0
  {
    if txs == [] {
      NothingValid();
    } else {
      var n := |txs| - 1;
      assert NoUnlocks(txs[..n]) && !txs[n].call.Unlock?;
      GenesisOwed(c, txs[..n]);
      GenesisValid(c, txs[..n]);
      var (before, ok) := AppliedAll(c, Nothing(), txs[..n], 0);
      if ok {
        OwedMore(c, before, txs[n]);
      }
    }
  }

  lemma OwedMore(c: Checks, s: State, t: Transaction)
    requires Valid(s) && !t.call.Unlock?
    ensures Total(Applied(c, s, t, 0).0.view) == Total(s.view)
  {
    TransactionKeeps(c, s, t, 0);
  }
}
