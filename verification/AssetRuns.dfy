/** Transactions, blocks and runs of blocks on issued assets, as functions on their state, and what they keep.
`registerAsset` and `issue` look issuers and assets up in the committed tables; locks make what they find current. */
module AssetRuns {
  import opened Rows
  import opened Amounts
  import opened AssetLedger
  import opened Folds

  datatype Lock = IssuerLock(address: string) | AssetLock(name: string) | IssueLock(name: string)

  // The committed tables, the view with the block's pending changes, and the names locked in this block.
  datatype State = State(tables: Assets, view: Assets, locks: set<Lock>)

  // Flags tell whether the arguments without a meaning here pass their checks.
  datatype Call =
    | RegisterIssuer(name: string, properDescription: bool)
    | RegisterAsset(symbol: string, maximum: int, properArguments: bool)
    | Issue(currency: string, amount: int, properName: bool)
    | Transfer(currency: string, amount: int, recipient: string)

  // A transaction, with its sender's username and whether the sender exists and pays the fee.
  datatype Transaction = Transaction(sender: string, username: Option<string>, paid: bool, call: Call)

  // What is an address, and the accounts with a username in the committed tables.
  datatype Accounts = Accounts(isAddress: string -> bool, named: map<string, string>)

  predicate Known(tables: Assets, view: Assets, name: string, locks: set<Lock>)
    requires name in tables.assets
  {
    && name in view.assets
    && view.assets[name].issuerId == tables.assets[name].issuerId
    && view.assets[name].maximum == tables.assets[name].maximum
    && (IssueLock(name) !in locks ==> view.assets[name].quantity == tables.assets[name].quantity)
  }

  // The tables know issuers and assets as the view does, unless a lock is held.
  predicate Current(tables: Assets, view: Assets, locks: set<Lock>) {
    && (forall a | a in tables.issuers :: a in view.issuers && view.issuers[a] == tables.issuers[a])
    && (forall a | a in view.issuers :: a in tables.issuers || IssuerLock(a) in locks)
    && (forall n | n in tables.assets :: Known(tables, view, n, locks))
    && (forall n | n in view.assets :: n in tables.assets || AssetLock(n) in locks)
  }

  ghost predicate Valid(s: State) {
    Sound(s.tables) && Sound(s.view) && Current(s.tables, s.view, s.locks)
  }

  // Between blocks nothing is pending.
  ghost predicate Resting(s: State) {
    Valid(s) && s.view == s.tables && s.locks == {}
  }

  /** While the lock on a name is free, the tables' asset is the view's. */
  lemma CurrentAsset(s: State, sender: string, name: string, amount: int)
    requires Valid(s) && IssueLock(name) !in s.locks
    ensures MayIssue(s.tables, sender, name, amount) <==>
              name in s.tables.assets && MayIssue(s.view, sender, name, amount)
    ensures name in s.tables.assets ==> name in s.view.assets && s.view.assets[name] == s.tables.assets[name]
    ensures name in s.tables.assets ==> Dotted(name)
  {
    assert name in s.tables.assets ==> Known(s.tables, s.view, name, s.locks) && QuantityOk(s.view, name);
  }

  /** While their locks are free, the tables know whether an account is an issuer and whether an asset exists. */
  lemma CurrentNames(s: State, address: string, name: string)
    requires Valid(s)
    ensures IssuerLock(address) !in s.locks ==> (address in s.tables.issuers <==> address in s.view.issuers)
    ensures AssetLock(name) !in s.locks ==> (name in s.tables.assets <==> name in s.view.assets)
  {
  }

  // A name that an issuer has in the tables it has in the view.
  lemma NamesInView(s: State, name: string)
    requires Valid(s)
    ensures name in s.tables.issuers.Values ==> name in s.view.issuers.Values
  {
    if name in s.tables.issuers.Values {
      var a :| a in s.tables.issuers && s.tables.issuers[a] == name;
      assert s.view.issuers[a] == name;
    }
  }

  // Only assets have balances.
  lemma CurrencyKnown(l: Assets, h: Holding)
    requires Backed(l) && h in l.balances
    ensures h.currency in l.assets && Dotted(h.currency)
  {
    assert h.currency in Currencies(l);
    assert QuantityOk(l, h.currency);
  }

  /******* One contract *******/

  // The locks a contract asks for.
  function LocksOf(s: State, sender: string, call: Call): set<Lock> {
    match call
    case RegisterIssuer(name, properDescription) =>
      if IssuerName(name) && properDescription then {IssuerLock(sender)} else {}
    case RegisterAsset(symbol, maximum, properArguments) =>
      if properArguments && ValidAmount(maximum) && sender in s.tables.issuers
      then {AssetLock(FullName(s.tables.issuers[sender], symbol))} else {}
    case Issue(currency, amount, properName) =>
      if properName && ValidAmount(amount) then {IssueLock(currency)} else {}
    case Transfer(currency, amount, recipient) => {}
  }

  /** Whether a contract succeeds: all but the sender's being an issuer and the asset's being committed is asked of the
      view. */
  predicate May(e: Accounts, s: State, sender: string, username: Option<string>, call: Call) {
    && LocksOf(s, sender, call) !! s.locks
    && match call
       case RegisterIssuer(name, properDescription) =>
         IssuerName(name) && properDescription && sender !in s.view.issuers && name !in s.view.issuers.Values
       case RegisterAsset(symbol, maximum, properArguments) =>
         && properArguments && ValidAmount(maximum) && sender in s.tables.issuers
         && FullName(s.tables.issuers[sender], symbol) !in s.view.assets
       case Issue(currency, amount, properName) =>
         && properName && ValidAmount(amount) && currency in s.tables.assets
         && MayIssue(s.view, sender, currency, amount)
       case Transfer(currency, amount, recipient) =>
         && |currency| <= 30 && 0 < |recipient| <= 50 && ValidAmount(amount)
         && sender != recipient && username != Some(recipient)
         && BalanceOf(s.view, sender, currency) >= amount
         && (e.isAddress(recipient) || recipient in e.named)
  }

  // An address stands for itself; anything else is a username.
  function Recipient(e: Accounts, recipient: string): string
    requires e.isAddress(recipient) || recipient in e.named
  {
    if e.isAddress(recipient) then recipient else e.named[recipient]
  }

  /** What a contract that succeeds makes of the view. */
  function After(e: Accounts, s: State, sender: string, username: Option<string>, call: Call): Assets
    requires May(e, s, sender, username, call)
  {
    match call
    case RegisterIssuer(name, _) => WithIssuer(s.view, sender, name)
    case RegisterAsset(symbol, maximum, _) =>
      WithAsset(s.view, FullName(s.tables.issuers[sender], symbol), sender, maximum)
    case Issue(currency, amount, _) => WithIssue(s.view, sender, currency, amount)
    case Transfer(currency, amount, recipient) => Moved(s.view, currency, sender, Recipient(e, recipient), amount)
  }

  // What a call issues of a currency.
  function IssuedBy(call: Call, currency: string): int {
    if call.Issue? && call.currency == currency then call.amount else 0
  }

  // What a contract keeps.
  ghost predicate Kept(l: Assets, l': Assets, call: Call) {
    Sound(l') && Grown(l, l') && forall c :: Circulating(l', c) == Circulating(l, c) + IssuedBy(call, c)
  }

  lemma IssuerKept(l: Assets, sender: string, name: string, call: Call)
    requires Sound(l) && call.RegisterIssuer? && IssuerName(name)
    requires sender !in l.issuers && name !in l.issuers.Values
    ensures Kept(l, WithIssuer(l, sender, name), call)
  {
    WithIssuerIssuers(l, sender, name);
    WithIssuerBacked(l, sender, name);
  }

  lemma AssetKept(l: Assets, sender: string, symbol: string, call: Call)
    requires Sound(l) && call.RegisterAsset? && ValidAmount(call.maximum) && sender in l.issuers
    requires FullName(l.issuers[sender], symbol) !in l.assets
    ensures Kept(l, WithAsset(l, FullName(l.issuers[sender], symbol), sender, call.maximum), call)
  {
    var issuer := l.issuers[sender];
    var name := FullName(issuer, symbol);
    assert Dotted(name) by { assert name[|issuer|] == '.'; }
    RegisteredBacked(l, name, sender, call.maximum);
    BeforeDotIs(issuer, symbol);
  }

  lemma IssueKept(l: Assets, sender: string, call: Call)
    requires Sound(l) && call.Issue? && ValidAmount(call.amount) && MayIssue(l, sender, call.currency, call.amount)
    ensures Kept(l, WithIssue(l, sender, call.currency, call.amount), call)
  {
    WithIssueBacked(l, sender, call.currency, call.amount);
    WithIssueGrown(l, sender, call.currency, call.amount);
    WithIssueCirculating(l, sender, call.currency, call.amount);
  }

  lemma TransferKept(l: Assets, sender: string, to: string, call: Call)
    requires Sound(l) && call.Transfer? && 0 < call.amount <= BalanceOf(l, sender, call.currency)
    ensures Kept(l, Moved(l, call.currency, sender, to, call.amount), call)
  {
    MovedBacked(l, call.currency, sender, to, call.amount);
    forall c
      ensures Circulating(Moved(l, call.currency, sender, to, call.amount), c) == Circulating(l, c)
    {
      MovedCirculating(l, call.currency, sender, to, call.amount, c);
    }
  }

  // The state after a contract.
  function Done(e: Accounts, s: State, sender: string, username: Option<string>, call: Call): State
    requires May(e, s, sender, username, call)
  {
    s.(view := After(e, s, sender, username, call), locks := s.locks + LocksOf(s, sender, call))
  }

  /** A contract that succeeds keeps the rules of the assets and changes what circulates by just what it issues. */
  lemma ContractKeeps(e: Accounts, s: State, sender: string, username: Option<string>, call: Call)
    requires Valid(s) && May(e, s, sender, username, call)
    ensures Valid(Done(e, s, sender, username, call)) && Kept(s.view, After(e, s, sender, username, call), call)
  {
    match call {
      case RegisterIssuer(name, _) => IssuerKept(s.view, sender, name, call);
      case RegisterAsset(symbol, maximum, _) =>
        assert s.view.issuers[sender] == s.tables.issuers[sender];
        AssetKept(s.view, sender, symbol, call);
      case Issue(currency, amount, _) => IssueKept(s.view, sender, call);
      case Transfer(currency, amount, recipient) => TransferKept(s.view, sender, Recipient(e, recipient), call);
    }
    DoneCurrent(e, s, sender, username, call);
  }

  lemma DoneCurrent(e: Accounts, s: State, sender: string, username: Option<string>, call: Call)
    requires Valid(s) && May(e, s, sender, username, call)
    ensures var s' := Done(e, s, sender, username, call);
            Current(s'.tables, s'.view, s'.locks)
  {
    var s' := Done(e, s, sender, username, call);
    forall n | n in s.tables.assets
      ensures Known(s'.tables, s'.view, n, s'.locks)
    {
      assert Known(s.tables, s.view, n, s.locks);
    }
  }

  /******* Transactions *******/

  /** One transaction. A failure leaves no trace, locks included. */
  function Applied(e: Accounts, s: State, t: Transaction): (State, bool) {
    if t.paid && May(e, s, t.sender, t.username, t.call) then (Done(e, s, t.sender, t.username, t.call), true)
    else (s, false)
  }

  /** Whether it fails or not, a transaction keeps the rules, and the tables. What circulates grows by just what a
      successful one issues. */
  lemma TransactionKeeps(e: Accounts, s: State, t: Transaction, c: string)
    requires Valid(s)
    ensures var (s', ok) := Applied(e, s, t);
            && Valid(s') && s'.tables == s.tables && (!ok ==> s' == s) && Grown(s.view, s'.view)
            && (ok ==> Circulating(s'.view, c) == Circulating(s.view, c) + IssuedBy(t.call, c))
  {
    if t.paid && May(e, s, t.sender, t.username, t.call) {
      ContractKeeps(e, s, t.sender, t.username, t.call);
    }
  }

  /** Transactions in order, up to the first that fails. */
  function AppliedAll(e: Accounts, s: State, txs: seq<Transaction>): (State, bool) {
    if txs == [] then (s, true)
    else
      var (before, ok) := AppliedAll(e, s, txs[..|txs| - 1]);
      if ok then Applied(e, before, txs[|txs| - 1]) else (before, false)
  }

  function IssuedByAll(txs: seq<Transaction>, currency: string): int {
    if txs == [] then 0 else IssuedByAll(txs[..|txs| - 1], currency) + IssuedBy(txs[|txs| - 1].call, currency)
  }

  lemma {:induction false} TransactionsKeep(e: Accounts, s: State, txs: seq<Transaction>, c: string)
    requires Valid(s)
    ensures var (s', ok) := AppliedAll(e, s, txs);
            && Valid(s') && s'.tables == s.tables && Grown(s.view, s'.view)
            && (ok ==> Circulating(s'.view, c) == Circulating(s.view, c) + IssuedByAll(txs, c))
  {
    if txs == [] {
    } else {
      var n := |txs| - 1;
      var (before, ok) := AppliedAll(e, s, txs[..n]);
      TransactionsKeep(e, s, txs[..n], c);
      if ok {
        TransactionKeeps(e, before, txs[n], c);
        GrownOn(s.view, before.view, Applied(e, before, txs[n]).0.view);
      }
    }
  }

  // After a failure nothing more is applied.
  lemma {:induction false} FailureStays(e: Accounts, s: State, txs: seq<Transaction>, n: nat)
    requires n <= |txs| && !AppliedAll(e, s, txs[..n]).1
    ensures AppliedAll(e, s, txs) == AppliedAll(e, s, txs[..n])
  {
    if n == |txs| {
      assert txs[..n] == txs;
    } else {
      assert txs[..|txs| - 1][..n] == txs[..n];
      FailureStays(e, s, txs[..|txs| - 1], n);
    }
  }

  /******* Blocks and runs *******/

  // The transactions of a block, and the usernames that are committed when it runs.
  datatype Body = Body(named: map<string, string>, transactions: seq<Transaction>)

  /** A block whose transactions all succeed is committed; any other leaves the tables as they were. */
  function AppliedBlock(isAddress: string -> bool, s: State, body: Body): (State, bool) {
    var (s', ok) := AppliedAll(Accounts(isAddress, body.named), s, body.transactions);
    if ok then (State(s'.view, s'.view, {}), true) else (State(s.tables, s.tables, {}), false)
  }

  lemma BlockKeeps(isAddress: string -> bool, s: State, body: Body, c: string)
    requires Resting(s)
    ensures var (s', ok) := AppliedBlock(isAddress, s, body);
            && Resting(s') && Grown(s.tables, s'.tables) && (!ok ==> s' == s)
            && (ok ==> Circulating(s'.tables, c) == Circulating(s.tables, c) + IssuedByAll(body.transactions, c))
  {
    TransactionsKeep(Accounts(isAddress, body.named), s, body.transactions, c);
  }

  // One block of a run; the run goes on after a block that fails.
  function BlockStep(isAddress: string -> bool): Step<State, Body> {
    (s: State, body: Body, height: nat) => (AppliedBlock(isAddress, s, body).0, true)
  }

  /** Blocks in order. */
  ghost function AppliedBlocks(isAddress: string -> bool, s: State, bodies: seq<Body>): State {
    Fold(BlockStep(isAddress), s, bodies, 1).0
  }

  // What a block issues of a currency, which is nothing when it fails.
  function IssuedAt(isAddress: string -> bool, c: string): (State, Body, nat) -> int {
    (s: State, body: Body, height: nat) =>
      if AppliedBlock(isAddress, s, body).1 then IssuedByAll(body.transactions, c) else 0
  }

  ghost function IssuedOf(isAddress: string -> bool, s: State, bodies: seq<Body>, c: string): int {
    SumOver(BlockStep(isAddress), IssuedAt(isAddress, c), s, bodies, 1)
  }

  /** Any run of blocks, some failing or not: the rules hold, issuers and assets stay what they are, and what circulates
      of a currency grows by just what the blocks that succeed issue of it. */
  lemma {:induction false} RunKeeps(isAddress: string -> bool, s: State, bodies: seq<Body>, c: string)
    requires Resting(s)
    ensures var s' := AppliedBlocks(isAddress, s, bodies);
            && Resting(s') && Grown(s.tables, s'.tables)
            && Circulating(s'.tables, c) == Circulating(s.tables, c) + IssuedOf(isAddress, s, bodies, c)
    ensures Fold(BlockStep(isAddress), s, bodies, 1).1
  {
    if bodies == [] {
    } else {
      var n := |bodies| - 1;
      RunKeeps(isAddress, s, bodies[..n], c);
      var before := AppliedBlocks(isAddress, s, bodies[..n]);
      BlockKeeps(isAddress, before, bodies[n], c);
      GrownOn(s.tables, before.tables, AppliedBlocks(isAddress, s, bodies).tables);
    }
  }

  function QuantityOf(l: Assets, name: string): int {
    if name in l.assets then l.assets[name].quantity else 0
  }

  /** An asset's quantity is what it was and what was issued of it since, which is never more than the maximum it was
      registered with; all its coins are on accounts of the ledger. */
  lemma RunQuantity(isAddress: string -> bool, s: State, bodies: seq<Body>, name: string)
    requires Resting(s)
    ensures var l, l' := s.tables, AppliedBlocks(isAddress, s, bodies).tables;
            && QuantityOf(l', name) == QuantityOf(l, name) + IssuedOf(isAddress, s, bodies, name)
            && QuantityOf(l', name) == Circulating(l', name)
            && (name in l.assets ==> QuantityOf(l', name) <= l.assets[name].maximum)
            && (name in l'.assets ==> OfIssuer(l', name))
  {
    RunKeeps(isAddress, s, bodies, name);
    QuantityCirculates(s.tables, name);
    QuantityCirculates(AppliedBlocks(isAddress, s, bodies).tables, name);
  }

  lemma QuantityCirculates(l: Assets, name: string)
    requires Backed(l)
    ensures QuantityOf(l, name) == Circulating(l, name)
  {
    if name in l.assets {
      assert QuantityOk(l, name);
    } else {
      assert forall h | h in l.balances :: h.currency in Currencies(l);
      assert Holders(l, name) == {};
    }
  }
}
