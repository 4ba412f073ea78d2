/** The contracts on issued assets, run on a session's tables, view and locks. */
module UiaContracts {
  import opened Rows
  import opened Amounts
  import opened AssetLedger
  import opened AssetRuns

  class Contracts {
    const isAddress: string -> bool
    // The committed tables, the view with the block's pending changes, and the names locked in this block.
    var tables: Assets
    var view: Assets
    var locks: set<Lock>
    // Usernames of the accounts in the tables.
    var named: map<string, string>

    function Now(): State
      reads this
    {
      State(tables, view, locks)
    }

    function Directory(): Accounts
      reads this
    {
      Accounts(isAddress, named)
    }

    ghost predicate Proper()
      reads this
    {
      AssetRuns.Valid(Now())
    }

    constructor (isAddress: string -> bool, tables: Assets, named: map<string, string>)
      requires Sound(tables)
      ensures Proper() && Now() == State(tables, tables, {}) && this.isAddress == isAddress && this.named == named
    {
      this.isAddress, this.tables, view, locks, this.named := isAddress, tables, tables, {}, named;
    }

    // Takes a lock. False is the error of one that is held.
    method TakeLock(lock: Lock) returns (ok: bool)
      modifies this`locks
      ensures locks == old(locks) + {lock} && (ok <==> lock !in old(locks))
    {
      ok := lock !in locks;
      locks := locks + {lock};
    }

    /******* Balances *******/

    /** Changes a balance, creating it when there is none. False is the error of a wrong currency. */
    method Increase(address: string, currency: string, amount: int) returns (ok: bool)
      modifies this`view
      ensures ok <==>
                amount == 0 || Holding(address, currency) in old(view).balances || currency == "GNY" || Dotted(currency)
      ensures view == if ok && amount != 0 then BalanceAdded(old(view), currency, address, amount) else old(view)
    {
      if amount == 0 {
        return true;
      }
      var key := Holding(address, currency);
      if key in view.balances {
        view := view.(balances := view.balances[key := view.balances[key] + amount]);
      } else {
        if currency != "GNY" && !Dotted(currency) {
          return false;
        }
        view := view.(balances := view.balances[key := amount]);
      }
      ok := true;
    }

    method Decrease(address: string, currency: string, amount: int) returns (ok: bool)
      modifies this`view
      ensures ok <==>
                amount == 0 || Holding(address, currency) in old(view).balances || currency == "GNY" || Dotted(currency)
      ensures view == if ok && amount != 0 then BalanceAdded(old(view), currency, address, -amount) else old(view)
    {
      ok := Increase(address, currency, -amount);
    }

    /** Takes coins from one account and gives them to another. */
    method Move(currency: string, amount: int, from: string, to: string)
      requires Proper() && 0 < amount <= BalanceOf(view, from, currency)
      modifies this`view
      ensures view == Moved(old(view), currency, from, to, amount)
    {
      assert Dotted(currency) by { CurrencyKnown(view, Holding(from, currency)); }
      var taken := Decrease(from, currency, amount);
      var given := Increase(to, currency, amount);
    }

    /******* Contracts *******/

    /** Makes the sender an issuer. A name that is in use only in this block is found when its row is created. */
    method RegisterIssuer(sender: string, name: string, properDescription: bool) returns (ok: bool)
      requires Proper()
      modifies this`view, this`locks
      ensures ok <==>
                IssuerName(name) && properDescription && IssuerLock(sender) !in old(locks)
                    && sender !in old(view).issuers && name !in old(view).issuers.Values
      ensures view == if ok then WithIssuer(old(view), sender, name) else old(view)
      ensures locks == old(locks) + LocksOf(old(Now()), sender, Call.RegisterIssuer(name, properDescription))
    {
      if !IssuerName(name) || !properDescription {
        return false;
      }
      CurrentNames(Now(), sender, "");
      ok := TakeLock(IssuerLock(sender));
      if !ok {
        return;
      }
      NamesInView(old(Now()), name);
      if name in tables.issuers.Values || sender in tables.issuers || name in view.issuers.Values {
        return false;
      }
      view := view.(issuers := view.issuers[sender := name]);
    }

    /** Registers an asset of the sender's issuer name, which nobody can register again in the block. */
    method RegisterAsset(sender: string, symbol: string, maximum: int, properArguments: bool) returns (ok: bool)
      requires Proper()
      modifies this`view, this`locks
      ensures ok <==> properArguments && ValidAmount(maximum) && sender in tables.issuers
                      && AssetLock(FullName(tables.issuers[sender], symbol)) !in old(locks)
                      && FullName(tables.issuers[sender], symbol) !in old(view).assets
      ensures view == if ok then WithAsset(old(view), FullName(tables.issuers[sender], symbol), sender, maximum)
                      else old(view)
      ensures locks == old(locks) + LocksOf(old(Now()), sender, Call.RegisterAsset(symbol, maximum, properArguments))
    {
      if !properArguments || !ValidAmount(maximum) || sender !in tables.issuers {
        return false;
      }
      var fullName := FullName(tables.issuers[sender], symbol);
      CurrentNames(Now(), "", fullName);
      ok := TakeLock(AssetLock(fullName));
      if ok {
        ok := fullName !in tables.assets;
        if ok {
          view := view.(assets := view.assets[fullName := Asset(sender, maximum, 0)]);
        }
      }
    }

    /** Issues coins of an asset to its issuer. The quantity it starts from is the tables' one, which the lock makes the
        view's one; so a second issue in the block is refused. */
    method Issue(sender: string, name: string, amount: int, properName: bool) returns (ok: bool)
      requires Proper()
      modifies this`view, this`locks
      ensures ok <==>
                properName && ValidAmount(amount) && IssueLock(name) !in old(locks) && name in tables.assets
                    && MayIssue(old(view), sender, name, amount)
      ensures ok ==> view == WithIssue(old(view), sender, name, amount)
      ensures !ok ==> view == old(view)
      ensures locks == old(locks) + LocksOf(old(Now()), sender, Call.Issue(name, amount, properName))
    {
      if !properName || !ValidAmount(amount) {
        return false;
      }
      ghost var before := Now();
      ok := TakeLock(IssueLock(name));
      if ok {
        CurrentAsset(before, sender, name, amount);
        ok := IssueLocked(sender, name, amount);
      }
    }

    // The part of an issue under the lock.
    method IssueLocked(sender: string, name: string, amount: int) returns (ok: bool)
      requires amount > 0
      requires name in tables.assets ==> name in view.assets && view.assets[name] == tables.assets[name] && Dotted(name)
      modifies this`view
      ensures ok <==> MayIssue(tables, sender, name, amount)
      ensures ok ==> MayIssue(old(view), sender, name, amount) && view == WithIssue(old(view), sender, name, amount)
      ensures !ok ==> view == old(view)
    {
      if name !in tables.assets {
        return false;
      }
      var asset := tables.assets[name];
      if asset.issuerId != sender || asset.quantity + amount > asset.maximum {
        return false;
      }
      view := view.(assets := view.assets[name := view.assets[name].(quantity := asset.quantity + amount)]);
      ok := Increase(sender, name, amount);
    }

    /** Moves coins of any currency between two accounts. */
    method Transfer(sender: string, username: Option<string>, currency: string, amount: int, recipient: string)
      returns (ok: bool)
      requires Proper()
      modifies this`view
      ensures ok <==> |currency| <= 30 && 0 < |recipient| <= 50 && ValidAmount(amount)
                      && sender != recipient && username != Some(recipient)
                      && BalanceOf(old(view), sender, currency) >= amount
                      && (isAddress(recipient) || recipient in named)
      ensures !ok ==> view == old(view)
      ensures ok ==> view == Moved(old(view), currency, sender, Recipient(Directory(), recipient), amount)
    {
      if |currency| > 30 || |recipient| == 0 || |recipient| > 50 || !ValidAmount(amount) {
        return false;
      }
      if sender == recipient || username == Some(recipient) || BalanceOf(view, sender, currency) < amount {
        return false;
      }
      if !isAddress(recipient) && recipient !in named {
        return false;
      }
      var recipientAddress := if isAddress(recipient) then recipient else named[recipient];
      Move(currency, amount, sender, recipientAddress);
      ok := true;
    }

    /******* Transactions and blocks *******/

    /** Runs one contract. */
    method Invoke(sender: string, username: Option<string>, call: Call) returns (ok: bool)
      requires Proper()
      modifies this`view, this`locks
      ensures ok <==> May(Directory(), old(Now()), sender, username, call)
      ensures ok ==> Now() == Done(Directory(), old(Now()), sender, username, call)
      ensures !ok ==> view == old(view) && locks == old(locks) + LocksOf(old(Now()), sender, call)
    {
      match call {
        case RegisterIssuer(name, properDescription) => ok := RegisterIssuer(sender, name, properDescription);
        case RegisterAsset(symbol, maximum, properArguments) =>
          ok := RegisterAsset(sender, symbol, maximum, properArguments);
        case Issue(currency, amount, properName) => ok := Issue(sender, currency, amount, properName);
        case Transfer(currency, amount, recipient) => ok := Transfer(sender, username, currency, amount, recipient);
      }
    }

    /** One transaction; a failure takes everything back, locks included. */
    method Apply(t: Transaction) returns (ok: bool)
      requires Proper()
      modifies this`view, this`locks
      ensures Proper() && (Now(), ok) == Applied(Directory(), old(Now()), t)
    {
      TransactionKeeps(Directory(), Now(), t, "");
      var savedView, savedLocks := view, locks;
      ok := t.paid;
      if ok {
        ok := Invoke(t.sender, t.username, t.call);
      }
      if !ok {
        view, locks := savedView, savedLocks;
      }
    }

    /** The transactions of a block, up to the first that fails. */
    method ApplyAll(txs: seq<Transaction>) returns (ok: bool)
      requires Proper()
      modifies this`view, this`locks
      ensures Proper() && (Now(), ok) == AppliedAll(Directory(), old(Now()), txs)
    {
      for i := 0 to |txs|
        invariant Proper() && (Now(), true) == AppliedAll(Directory(), old(Now()), txs[..i])
      {
        assert txs[..i + 1][..i] == txs[..i];
        ok := Apply(txs[i]);
        if !ok {
          FailureStays(Directory(), old(Now()), txs, i + 1);
          return;
        }
      }
      assert txs[..|txs|] == txs;
      ok := true;
    }

    /** A block: committed when all its transactions succeed, rolled back otherwise. */
    method RunBlock(txs: seq<Transaction>) returns (ok: bool)
      requires Proper()
      modifies this`tables, this`view, this`locks
      ensures Proper() && (Now(), ok) == AppliedBlock(isAddress, old(Now()), Body(named, txs))
    {
      ok := ApplyAll(txs);
      if ok {
        tables, locks := view, {};
      } else {
        view, locks := tables, {};
      }
    }
  }
}
