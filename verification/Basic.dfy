/** The basic contracts on the pending view of a block. Votes and delegates are looked up in the committed tables; the
lock each contract takes on its sender's account is what makes the sender's votes found there current. */
module BasicContracts {
  import opened Rows
  import opened Heights
  import opened Amounts
  import opened Sequences
  import opened Ledgers
  import opened LedgerRuns
  import opened LedgerBlocks
  import opened Slots
  import R = Rounds

  method IsUniq(arr: seq<string>) returns (uniq: bool)
    ensures uniq <==> Distinct(arr)
  {
    var s: set<string> := {};
    for k := 0 to |arr|
      invariant s == Names(arr[..k]) && Distinct(arr[..k])
    {
      assert arr[..k + 1] == arr[..k] + [arr[k]];
      if arr[k] in s {
        var i :| 0 <= i < k && arr[..k][i] == arr[k];
        assert arr[i] == arr[k];
        return false;
      }
      NamesSnoc(arr[..k], arr[k]);
      assert forall i | 0 <= i < k :: arr[..k][i] in s;
      s := s + {arr[k]};
    }
    assert arr[..|arr|] == arr;
    uniq := true;
  }

  lemma NamesSnoc(s: seq<string>, x: string)
    ensures Names(s + [x]) == Names(s) + {x}
  {
    assert forall i | 0 <= i < |s| :: (s + [x])[i] == s[i];
    assert (s + [x])[|s|] == x;
  }

  datatype BallotChange = Keep | Create | Delete

  function Changed(l: Ledger, voter: string, names: set<string>, amount: int, change: BallotChange): Ledger {
    Shifted(l, names, amount).(votes := match change
                                        case Keep => l.votes
                                        case Create => l.votes + Ballots(voter, names)
                                        case Delete => l.votes - Ballots(voter, names))
  }

  lemma ChangedSnoc(l: Ledger, voter: string, names: set<string>, d: string, amount: int, change: BallotChange)
    requires d in l.delegates && d !in names
    ensures var before := Changed(l, voter, names, amount, change);
            var after := Changed(l, voter, names + {d}, amount, change);
            && after.delegates == before.delegates[d := before.delegates[d] + amount]
            && after.accounts == before.accounts
            && after.votes == match change
                              case Keep => before.votes
                              case Create => before.votes + {Vote(voter, d)}
                              case Delete => before.votes - {Vote(voter, d)}
  {
    assert Ballots(voter, names + {d}) == Ballots(voter, names) + {Vote(voter, d)};
  }

  class Contracts {
    const checks: Checks
    const rota: Rota
    // The committed tables, the view with the block's pending changes, and the accounts locked in this block.
    var tables: Ledger
    var view: Ledger
    var locks: set<string>
    // The pots by round, the delegates of the blocks so far, and those of the bookkeeper.
    var pots: map<nat, R.Pot>
    var forgers: seq<string>
    var bookkeeper: seq<string>

    function Now(): State
      reads this
    {
      State(tables, view, locks)
    }

    function Whole(): Books
      reads this
    {
      Books(Now(), pots, forgers, bookkeeper)
    }

    ghost predicate Proper()
      reads this
    {
      Valid(Now())
    }

    constructor (checks: Checks, rota: Rota, tables: Ledger, bookkeeper: seq<string>)
      requires Sound(tables)
      ensures Proper() && this.checks == checks && this.rota == rota
      ensures Whole() == Books(State(tables, tables, {}), map[], [], bookkeeper)
    {
      this.checks, this.rota := checks, rota;
      this.tables, view, locks := tables, tables, {};
      pots, forgers, this.bookkeeper := map[], [], bookkeeper;
    }

    /** Takes the lock on an account. False is the error of one that is held. */
    method LockAccount(address: string) returns (ok: bool)
      requires Proper()
      modifies this`locks
      ensures Proper() && locks == old(locks) + {address} && (ok <==> address !in old(locks))
    {
      ok := address !in locks;
      LockedVotes(tables, view, view, locks, address);
      locks := locks + {address};
    }

    // For each of the delegates, adds the amount to its votes, then creates or deletes the voter's vote for it.
    method ChangeVotes(voter: string, names: set<string>, amount: int, change: BallotChange)
      requires names <= view.delegates.Keys
      modifies this`view
      ensures view == Changed(old(view), voter, names, amount, change)
    {
      var todo := names;
      ghost var all := names;
      while todo != {}
        invariant todo <= all && view == Changed(old(view), voter, all - todo, amount, change)
      {
        var d :| d in todo;
        ChangedSnoc(old(view), voter, all - todo, d, amount, change);
        view := view.(delegates := view.delegates[d := view.delegates[d] + amount]);
        match change {
          case Keep =>
          case Create => view := view.(votes := view.votes + {Vote(voter, d)});
          case Delete => view := view.(votes := view.votes - {Vote(voter, d)});
        }
        assert all - (todo - {d}) == (all - todo) + {d};
        todo := todo - {d};
      }
      assert all - todo == names;
    }

    /******* Contracts *******/

    method FindByName(username: string) returns (r: Option<string>)
      ensures r.Some? ==> HasName(view, r.value, username)
      ensures r.None? ==> forall a | a in view.accounts :: view.accounts[a].username != Some(username)
    {
      if exists a | a in view.accounts :: view.accounts[a].username == Some(username) {
        var a :| a in view.accounts && view.accounts[a].username == Some(username);
        r := Some(a);
      } else {
        r := None;
      }
    }

    method Transfer(sender: string, amount: int, recipient: string, height: int) returns (ok: bool, ghost to: string)
      requires Proper() && sender in view.accounts
      modifies this`view
      ensures ok <==>
                && recipient != "" && ValidAmount(amount)
                && (height > 0 ==> old(view).accounts[sender].gny >= amount)
                && sender != recipient && old(view).accounts[sender].username != Some(recipient)
                && (checks.isAddress(recipient) || KnownName(old(view), recipient))
      ensures ok ==> view == Moved(old(view), sender, to, amount) && to != sender
      ensures ok ==> if checks.isAddress(recipient) then to == recipient else HasName(old(view), to, recipient)
      ensures !ok ==> view == old(view)
    {
      to := recipient;
      if recipient == "" || !ValidAmount(amount) || (height > 0 && view.accounts[sender].gny < amount) {
        return false, to;
      }
      if sender == recipient || view.accounts[sender].username == Some(recipient) {
        return false, to;
      }
      var found := FindRecipient(recipient);
      if found.None? {
        return false, to;
      }
      Pay(sender, found.value, amount);
      ok, to := true, found.value;
    }

    // An address stands for itself; anything else is a username.
    method FindRecipient(recipient: string) returns (r: Option<string>)
      ensures r.None? <==> !checks.isAddress(recipient) && !KnownName(view, recipient)
      ensures r.Some? ==> if checks.isAddress(recipient) then r.value == recipient
              else HasName(view, r.value, recipient)
    {
      if checks.isAddress(recipient) {
        r := Some(recipient);
      } else {
        r := FindByName(recipient);
      }
    }

    method Pay(sender: string, recipient: string, amount: int)
      requires sender in view.accounts
      modifies this`view
      ensures view == Moved(old(view), sender, recipient, amount)
    {
      var account := AccountOf(view, recipient);
      view := SetAccount(view, recipient, account.(gny := account.gny + amount));
      var payer := view.accounts[sender];
      view := SetAccount(view, sender, payer.(gny := payer.gny - amount));
    }

    method SetUserName(sender: string, username: string, validName: bool) returns (ok: bool)
      requires Proper() && sender in view.accounts
      modifies this`view, this`locks
      ensures ok <==>
                validName && sender !in old(locks) && !KnownName(old(view), username)
                    && old(view).accounts[sender].username.None?
      ensures ok ==> view == SetAccount(old(view), sender, old(view).accounts[sender].(username := Some(username)))
      ensures !ok ==> view == old(view)
      ensures (ok ==> locks == old(locks) + {sender}) && locks <= old(locks) + {sender}
              && BallotsCurrent(tables, view, locks)
    {
      if !validName {
        return false;
      }
      ok := LockAccount(sender);
      if ok {
        var found := FindByName(username);
        ok := found.None? && view.accounts[sender].username.None?;
        if ok {
          view := SetAccount(view, sender, view.accounts[sender].(username := Some(username)));
        }
      }
    }

    method Lock(sender: string, height: int, amount: int, blockHeight: int) returns (ok: bool)
      requires Proper() && sender in view.accounts
      modifies this`view, this`locks
      ensures var a := old(view).accounts[sender];
              ok <==>
                && ValidAmount(height) && ValidAmount(amount) && sender !in old(locks)
                && a.gny - RESERVE >= amount && height >= blockHeight + MIN_LOCK_HEIGHT
                && (a.isLocked ==> height >= a.lockHeight + MIN_LOCK_HEIGHT)
      ensures view == if ok then Locked(old(view), sender, height, amount) else old(view)
      ensures (ok ==> locks == old(locks) + {sender}) && locks <= old(locks) + {sender}
              && BallotsCurrent(tables, view, locks)
    {
      if !ValidAmount(height) || !ValidAmount(amount) {
        return false;
      }
      ok := LockAccount(sender);
      if !ok {
        return;
      }
      var a := view.accounts[sender];
      if a.gny - RESERVE < amount {
        return false;
      }
      if a.isLocked {
        if (if blockHeight > a.lockHeight then blockHeight else a.lockHeight) + MIN_LOCK_HEIGHT > height {
          return false;
        }
      } else if height < blockHeight + MIN_LOCK_HEIGHT {
        return false;
      }
      CurrentVotes(tables, view, old(locks), sender);
      var voteList := VotedBy(tables, sender);
      VotedRegistered(view, sender);
      view := SetAccount(view, sender,
                         a.(isLocked := true, lockHeight := height, gny := a.gny - amount,
                            lockAmount := a.lockAmount + amount));
      ChangeVotes(sender, voteList, amount, Keep);
      LockedVotes(tables, old(view), view, old(locks), sender);
    }

    method Unlock(sender: string, blockHeight: int) returns (ok: bool)
      requires Proper() && sender in view.accounts
      modifies this`view, this`locks
      ensures ok <==>
                sender !in old(locks) && old(view).accounts[sender].isLocked
                    && blockHeight > old(view).accounts[sender].lockHeight
      ensures view == if ok then Unlocked(old(view), sender) else old(view)
      ensures (ok ==> locks == old(locks) + {sender}) && locks <= old(locks) + {sender}
              && BallotsCurrent(tables, view, locks)
    {
      ok := LockAccount(sender);
      if !ok {
        return;
      }
      var a := view.accounts[sender];
      if !a.isLocked || blockHeight <= a.lockHeight {
        return false;
      }
      CurrentVotes(tables, view, old(locks), sender);
      if a.isDelegate {
        DeleteCreatedVotes(sender, a);
      }
      var gny := Concatenated(a.gny, a.lockAmount);
      view := SetAccount(view, sender, a.(isLocked := false, lockHeight := 0, lockAmount := 0, gny := gny));
      LockedVotes(tables, old(view), view, old(locks), sender);
    }

    method DeleteCreatedVotes(sender: string, account: Account)
      requires Proper() && sender in view.accounts && account == view.accounts[sender] && account.isDelegate
      requires VotedBy(tables, sender) == VotedBy(view, sender)
      modifies this`view
      ensures view == VotesReleased(old(view), sender)
    {
      var voteList := VotedBy(tables, sender);
      VotedRegistered(view, sender);
      if |voteList| > 0 && account.lockAmount > 0 {
        ChangeVotes(sender, voteList, -account.lockAmount, Delete);
      } else if account.lockAmount > 0 {
        assert voteList == {};
        assert Ballots(sender, voteList) == {};
        assert WithoutVotes(view, sender, voteList) == view;
      }
    }

    method RegisterDelegate(sender: string, blockHeight: int) returns (ok: bool)
      requires Proper() && sender in view.accounts
      modifies this`view, this`locks
      ensures ok <==>
                (blockHeight > 0 ==> sender !in old(locks)) && old(view).accounts[sender].username.Some?
                    && !old(view).accounts[sender].isDelegate
      ensures view == if ok then Registered(old(view), sender, old(view).accounts[sender].username.value) else old(view)
      ensures (ok ==> locks == if blockHeight > 0 then old(locks) + {sender} else old(locks))
              && locks <= old(locks) + {sender} && BallotsCurrent(tables, view, locks)
    {
      if blockHeight > 0 {
        ok := LockAccount(sender);
        if !ok {
          return;
        }
      }
      var a := view.accounts[sender];
      ok := a.username.Some? && !a.isDelegate;
      if ok {
        view := view.(delegates := view.delegates[a.username.value := 0]);
        view := SetAccount(view, sender, a.(isDelegate := true));
      }
    }

    method CastVotes(sender: string, delegates: seq<string>) returns (ok: bool)
      requires Proper() && sender in view.accounts
      modifies this`view, this`locks
      ensures ok <==> && sender !in old(locks) && old(view).accounts[sender].isLocked && ProperList(tables, delegates)
                      && |VotedBy(old(view), sender)| + |delegates| <= 101
                      && VotedBy(old(view), sender) !! Names(delegates)
      ensures view == if ok then WithVotes(old(view), sender, Names(delegates)) else old(view)
      ensures (ok ==> locks == old(locks) + {sender}) && locks <= old(locks) + {sender}
              && BallotsCurrent(tables, view, locks)
    {
      ok := LockAccount(sender);
      if !ok {
        return;
      }
      CurrentVotes(tables, view, old(locks), sender);
      ok := CheckList(sender, delegates);
      var currentVotes := VotedBy(tables, sender);
      if !ok || |currentVotes| + |delegates| > 101 || !(currentVotes !! Names(delegates)) {
        return false;
      }
      ListRegistered(Now(), delegates);
      GiveVotes(sender, Names(delegates));
    }

    method Unvote(sender: string, delegates: seq<string>) returns (ok: bool)
      requires Proper() && sender in view.accounts
      modifies this`view, this`locks
      ensures ok <==> && sender !in old(locks) && old(view).accounts[sender].isLocked && ProperList(tables, delegates)
                      && Names(delegates) <= VotedBy(old(view), sender)
      ensures view == if ok then WithoutVotes(old(view), sender, Names(delegates)) else old(view)
      ensures (ok ==> locks == old(locks) + {sender}) && locks <= old(locks) + {sender}
              && BallotsCurrent(tables, view, locks)
    {
      ok := LockAccount(sender);
      if !ok {
        return;
      }
      CurrentVotes(tables, view, old(locks), sender);
      ok := CheckList(sender, delegates);
      var currentVotes := VotedBy(tables, sender);
      if !ok || !(Names(delegates) <= currentVotes) {
        return false;
      }
      ListRegistered(Now(), delegates);
      TakeVotesBack(sender, Names(delegates));
    }

    // Votes for delegates, by an account that holds its lock.
    method GiveVotes(sender: string, names: set<string>)
      requires sender in view.accounts && names <= view.delegates.Keys && sender in locks
      requires BallotsCurrent(tables, view, locks)
      modifies this`view
      ensures view == WithVotes(old(view), sender, names) && BallotsCurrent(tables, view, locks)
    {
      ChangedVotes(view, sender, names);
      ChangeVotes(sender, names, view.accounts[sender].lockAmount, Create);
      OthersStay(old(view), sender, names);
      LockedVotes(tables, old(view), view, locks, sender);
      assert locks + {sender} == locks;
    }

    method TakeVotesBack(sender: string, names: set<string>)
      requires sender in view.accounts && names <= view.delegates.Keys && sender in locks
      requires BallotsCurrent(tables, view, locks)
      modifies this`view
      ensures view == WithoutVotes(old(view), sender, names) && BallotsCurrent(tables, view, locks)
    {
      ChangedVotes(view, sender, names);
      ChangeVotes(sender, names, -view.accounts[sender].lockAmount, Delete);
      OthersStay(old(view), sender, names);
      LockedVotes(tables, old(view), view, locks, sender);
      assert locks + {sender} == locks;
    }

    method CheckList(sender: string, delegates: seq<string>) returns (ok: bool)
      requires sender in view.accounts
      ensures ok <==> view.accounts[sender].isLocked && ProperList(tables, delegates)
    {
      if !view.accounts[sender].isLocked || |delegates| == 0 || |delegates| > 33 {
        return false;
      }
      ok := IsUniq(delegates);
      if ok {
        for i := 0 to |delegates|
          invariant forall j | 0 <= j < i :: delegates[j] in tables.delegates
        {
          if delegates[i] !in tables.delegates {
            return false;
          }
        }
      }
    }

    /******* Transactions *******/

    /** Runs one contract. */
    method Invoke(sender: string, call: Call, blockHeight: int) returns (ok: bool)
      requires Proper() && sender in view.accounts && (blockHeight > 0 ==> view.accounts[sender].gny >= 0)
      modifies this`view, this`locks
      ensures Proper()
      ensures ok <==> May(checks, old(Now()), sender, call, blockHeight)
      ensures ok ==> Now() == Locking(old(Now()), After(checks, old(view), sender, call), sender, call, blockHeight)
      ensures !ok ==> view == old(view)
    {
      match call {
        case Transfer(amount, recipient) =>
          ghost var to;
          ok, to := Transfer(sender, amount, recipient, blockHeight);
          if ok && !checks.isAddress(recipient) {
            OneOwner(old(view), to, recipient);
          }
        case SetUserName(username) => ok := SetUserName(sender, username, checks.validName(username));
        case LockCoins(height, amount) => ok := Lock(sender, height, amount, blockHeight);
        case Unlock => ok := Unlock(sender, blockHeight);
        case RegisterDelegate => ok := RegisterDelegate(sender, blockHeight);
        case CastVotes(delegates) => ok := CastVotes(sender, delegates);
        case Unvote(delegates) => ok := Unvote(sender, delegates);
      }
      if ok {
        ContractKeeps(checks, old(Now()), sender, call, blockHeight);
      }
    }

    /** One transaction: the sender pays the fee and the contract runs; a failure takes both back, locks included. Up to
        the first block a missing sender is created before that, and stays. */
    method Apply(t: Transaction, blockHeight: int) returns (ok: bool)
      requires Proper()
      modifies this`view, this`locks
      ensures Proper() && (Now(), ok) == Applied(checks, old(Now()), t, blockHeight)
    {
      EnteredCharged(view, t.sender, blockHeight, t.fee);
      EnteredSound(view, t.sender);
      ok := EnsureSender(t.sender, blockHeight);
      if ok {
        var savedView, savedLocks := view, locks;
        ok := ApplyContract(t.sender, t.fee, t.call, blockHeight);
        if !ok {
          view, locks := savedView, savedLocks;
        }
      }
      assert (Now(), ok) == Applied(checks, old(Now()), t, blockHeight);
      assert Proper() by { TransactionKeeps(checks, old(Now()), t, blockHeight); }
    }

    // Up to the first block a missing sender is created.
    method EnsureSender(sender: string, blockHeight: int) returns (ok: bool)
      requires Proper()
      modifies this`view
      ensures ok <==> sender in old(view).accounts || blockHeight <= 1
      ensures view == if ok then Entered(old(view), sender) else old(view)
    {
      ok := true;
      if sender !in view.accounts {
        if blockHeight > 1 {
          return false;
        }
        view := SetAccount(view, sender, NEW_ACCOUNT);
      }
    }

    // The part of a transaction between begin and commit.
    method ApplyContract(sender: string, fee: nat, call: Call, blockHeight: int) returns (ok: bool)
      requires Proper() && sender in view.accounts
      modifies this`view, this`locks
      ensures ok <==>
                && (blockHeight == 0 || old(view).accounts[sender].gny >= fee)
                && May(checks, old(Now()).(view := Charged(old(view), sender, blockHeight, fee)), sender, call,
                       blockHeight)
      ensures ok ==>
                Now() == Locking(old(Now()), After(checks, Charged(old(view), sender, blockHeight, fee), sender, call),
                                 sender, call, blockHeight)
    {
      ok := PayFee(sender, fee, blockHeight);
      if ok {
        ok := Invoke(sender, call, blockHeight);
      }
    }

    // The fee, but for the genesis block.
    method PayFee(sender: string, fee: nat, blockHeight: int) returns (ok: bool)
      requires Proper() && sender in view.accounts
      modifies this`view
      ensures ok <==> blockHeight == 0 || old(view).accounts[sender].gny >= fee
      ensures ok ==> Proper() && view == Charged(old(view), sender, blockHeight, fee)
      ensures ok && blockHeight > 0 ==> view.accounts[sender].gny >= 0
    {
      if blockHeight == 0 {
        assert view.accounts[sender := view.accounts[sender]] == view.accounts;
        return true;
      }
      var a := view.accounts[sender];
      ok := a.gny >= fee;
      if ok {
        ChargedValid(Now(), sender, blockHeight, fee);
        view := SetAccount(view, sender, a.(gny := a.gny - fee));
      }
    }

    /** The transactions of a block, up to the first that fails. When none does, coins and fees grow by just what
        unlocks append, and votes stay exact just when no unlock strands any. No account gets into debt. */
    method ApplyAll(txs: seq<Transaction>, blockHeight: int) returns (ok: bool)
      requires Proper() && blockHeight > 0
      modifies this`view, this`locks
      ensures Proper() && (Now(), ok) == AppliedAll(checks, old(Now()), txs, blockHeight)
      ensures NoNewDebt(old(view), view)
      ensures ok ==> Total(view) + Fees(txs) == Total(old(view)) + SurplusAll(checks, old(Now()), txs, blockHeight)
      ensures ok ==> (VotesExact(view) <==> VotesExact(old(view)) && !StrandsIn(checks, old(Now()), txs, blockHeight))
    {
      TransactionsKeep(checks, Now(), txs, blockHeight);
      ok := true;
      for i := 0 to |txs|
        invariant Proper() && (Now(), true) == AppliedAll(checks, old(Now()), txs[..i], blockHeight)
      {
        assert txs[..i + 1][..i] == txs[..i];
        ok := Apply(txs[i], blockHeight);
        if !ok {
          LedgerRuns.FailureStays(checks, old(Now()), txs, i + 1, blockHeight);
          return;
        }
      }
      assert txs[..|txs|] == txs;
    }

    /******* The end of a block *******/

    method Credit(address: string, amount: int)
      requires address in view.accounts
      modifies this`view
      ensures view == Credited(old(view), address, amount)
    {
      var a := view.accounts[address];
      view := SetAccount(view, address, a.(gny := a.gny + amount));
    }

    // One share more. False is the error of a missing row.
    method ShareOne(key: string, share: int, ghost l: Ledger, ghost done: seq<string>) returns (ok: bool)
      requires view == WithBalances(l, R.Credited(Balances(l), done, share))
      modifies this`view
      ensures ok <==> HasRow(l, rota.addressOf(key))
      ensures ok ==> view == WithBalances(l, R.Credited(Balances(l), done + [rota.addressOf(key)], share))
    {
      SameRows(l, R.Credited(Balances(l), done, share), rota.addressOf(key));
      ok := HasRow(view, rota.addressOf(key));
      if ok {
        OneShareMore(l, done, rota.addressOf(key), share);
        Credit(rota.addressOf(key), share);
      }
    }

    // Equal shares, one for each block.
    method ShareOut(keys: seq<string>, share: int) returns (ok: bool)
      modifies this`view
      ensures ok <==> forall k | k in keys :: HasRow(old(view), rota.addressOf(k))
      ensures ok ==> view == WithBalances(old(view), R.Credited(Balances(old(view)), Addresses(rota, keys), share))
    {
      ghost var l := view;
      ok := true;
      NothingShared(l);
      for i := 0 to |keys|
        invariant ok && forall k | k in keys[..i] :: HasRow(l, rota.addressOf(k))
        invariant view == WithBalances(l, R.Credited(Balances(l), Addresses(rota, keys[..i]), share))
      {
        assert keys[..i + 1] == keys[..i] + [keys[i]];
        assert Addresses(rota, keys[..i + 1]) == Addresses(rota, keys[..i]) + [rota.addressOf(keys[i])];
        ok := ShareOne(keys[i], share, l, Addresses(rota, keys[..i]));
        if !ok {
          return;
        }
      }
      assert keys[..|keys|] == keys;
    }

    // Every delegate of the list that forged no block has a row, in which that is counted.
    method CheckMissed(list: seq<string>, forged: seq<string>) returns (ok: bool)
      ensures ok <==> forall k | k in list && k !in forged :: HasRow(view, rota.addressOf(k))
    {
      for i := 0 to |list|
        invariant forall k | k in list[..i] && k !in forged :: HasRow(view, rota.addressOf(k))
      {
        assert list[..i + 1] == list[..i] + [list[i]];
        if list[i] !in forged && !HasRow(view, rota.addressOf(list[i])) {
          return false;
        }
      }
      assert list[..|list|] == list;
      ok := true;
    }

    /** Pays a pot to the forgers, and charges the last one what does not divide. */
    method PayOut(pot: R.Pot, n: nat, keys: seq<string>, last: string) returns (ok: bool)
      requires n > 0 && last in keys
      modifies this`view
      ensures ok <==> forall k | k in keys :: HasRow(old(view), rota.addressOf(k))
      ensures ok ==> view == Paid(old(view), pot, n, Addresses(rota, keys), rota.addressOf(last))
    {
      var feeAverage, rewardAverage := pot.fee / n, pot.reward / n;
      ok := ShareOut(keys, feeAverage + rewardAverage);
      if ok {
        var remainder := feeAverage * n - pot.fee + (rewardAverage * n - pot.reward);
        PaidOnce(old(view), pot, n, Addresses(rota, keys), rota.addressOf(last));
        Credit(rota.addressOf(last), remainder);
      }
    }

    /** A block's round bookkeeping on the view. False is the error of a missing row or an empty list. */
    method ApplyRound(body: Body, height: nat) returns (ok: bool)
      modifies this`view
      ensures ok <==> RoundOk(rota, old(Whole()), old(view), body.delegate, height)
      ensures ok ==> view == Settled(rota, old(Whole()), old(view), body, height)
    {
      if !HasRow(view, rota.addressOf(body.delegate)) {
        return false;
      }
      if !EndsRound(height) {
        return true;
      }
      var list := rota.arrange(bookkeeper, height);
      if list == [] {
        return false;
      }
      var forged := Forgers(Whole(), body.delegate);
      ok := CheckMissed(list, forged);
      if ok {
        ok := PayOut(FullPot(Whole(), body, height), |list|, forged, body.delegate);
      }
    }

    // The part of a block before the commit.
    method TryBlock(body: Body, height: nat) returns (ok: bool)
      requires Proper() && height > 0
      modifies this`view, this`locks
      ensures var (s, all) := AppliedAll(checks, old(Now()), body.transactions, height);
              && (ok <==> all && RoundOk(rota, old(Whole()), s.view, body.delegate, height))
              && (ok ==> Now() == s.(view := Settled(rota, old(Whole()), s.view, body, height)))
    {
      ghost var start := Whole();
      ok := ApplyAll(body.transactions, height);
      if ok {
        SameBooks(rota, start, Whole(), view, body, height);
        ok := ApplyRound(body, height);
      }
    }

    /** A block: its transactions, its round bookkeeping, and the commit; what fails is taken back. */
    method RunBlock(body: Body, height: nat) returns (ok: bool)
      requires Proper() && height > 0
      modifies this
      ensures Proper() && (Whole(), ok) == AppliedBlock(checks, rota, old(Whole()), body, height)
    {
      BlockValid(checks, rota, Whole(), body, height);
      ok := TryBlock(body, height);
      if ok {
        CommitBlock(body, height);
      } else {
        view, locks := tables, {};
      }
    }

    // The view becomes the tables, the locks are free, and the books are brought up to date.
    method CommitBlock(body: Body, height: nat)
      modifies this
      ensures Now() == LedgerRuns.Committed(old(Now())) && pots == PotsAfter(old(Whole()), body, height)
      ensures forgers == old(forgers) + [body.delegate]
      ensures bookkeeper == if EndsRound(height) then rota.top(old(Now())) else old(bookkeeper)
    {
      if EndsRound(height) {
        bookkeeper := rota.top(Now());
      }
      pots := PotsAfter(Whole(), body, height);
      tables, locks, forgers := view, {}, forgers + [body.delegate];
    }

    // One block more in a run.
    method RunNext(bodies: seq<Body>, i: nat, first: nat, ghost start: Books) returns (ok: bool)
      requires Proper() && first > 0 && i < |bodies|
      requires AppliedBlocks(checks, rota, start, bodies[..i], first) == (Whole(), true)
      modifies this
      ensures Proper() && AppliedBlocks(checks, rota, start, bodies[..i + 1], first) == (Whole(), ok)
    {
      OneBlockMore(checks, rota, start, bodies, i, first, Whole());
      ok := RunBlock(bodies[i], first + i);
    }

    // The loop over the blocks.
    method RunEach(bodies: seq<Body>, first: nat) returns (ok: bool)
      requires Proper() && first > 0
      modifies this
      ensures Proper() && AppliedBlocks(checks, rota, old(Whole()), bodies, first) == (Whole(), ok)
    {
      ghost var start := Whole();
      ok := true;
      for i := 0 to |bodies|
        invariant Proper() && ok && AppliedBlocks(checks, rota, start, bodies[..i], first) == (Whole(), true)
      {
        ok := RunNext(bodies, i, first, start);
        if !ok {
          FailedRun(checks, rota, start, bodies, i + 1, first);
          return;
        }
      }
      assert bodies[..|bodies|] == bodies;
    }

    /** Blocks in order, up to the first that fails, whatever rounds end in them. When none does, coins and fees grow by
        just what unlocks append and what is paid out, votes are exact at the end just when they were and every
        unlocking voter was a delegate, and no account gets into debt unless a payout leaves its forger with it. */
    method RunBlocks(bodies: seq<Body>, first: nat) returns (ok: bool)
      requires Proper() && first > 0
      modifies this
      ensures Proper() && (Whole(), ok) == AppliedBlocks(checks, rota, old(Whole()), bodies, first)
      ensures ok ==>
                Total(view) + AllFees(bodies)
                == Total(old(view)) + SurplusOf(checks, rota, old(Whole()), bodies, first)
                   + PaidOf(checks, rota, old(Whole()), bodies, first)
      ensures ok ==>
                (VotesExact(view) <==> VotesExact(old(view)) && !StrandsEver(checks, rota, old(Whole()), bodies, first))
      ensures ok && !DipsEver(checks, rota, old(Whole()), bodies, first) ==> NoNewDebt(old(view), view)
    {
      ok := RunEach(bodies, first);
      if ok {
        RunCoins(checks, rota, old(Whole()), bodies, first);
        RunVotes(checks, rota, old(Whole()), bodies, first);
        if !DipsEver(checks, rota, old(Whole()), bodies, first) {
          RunDebts(checks, rota, old(Whole()), bodies, first);
        }
      }
    }
  }

  // The round bookkeeping does not look at the state of the books.
  lemma SameBooks(q: Rota, b: Books, b': Books, l: Ledger, body: Body, height: nat)
    requires b'.(state := b.state) == b
    ensures RoundOk(q, b', l, body.delegate, height) <==> RoundOk(q, b, l, body.delegate, height)
    ensures Settled(q, b', l, body, height) == Settled(q, b, l, body, height)
    ensures PotsAfter(b', body, height) == PotsAfter(b, body, height)
  {
  }

  function Credited(l: Ledger, address: string, amount: int): Ledger {
    var a := AccountOf(l, address);
    SetAccount(l, address, a.(gny := a.gny + amount))
  }

  lemma SameRows(l: Ledger, gny: map<string, int>, address: string)
    ensures HasRow(WithBalances(l, gny), address) <==> HasRow(l, address)
  {
  }

  lemma ChargedValid(s: State, sender: string, height: int, fee: nat)
    requires Valid(s)
    ensures Valid(s.(view := Charged(s.view, sender, height, fee)))
  {
    ChargedSound(s.view, sender, height, fee);
  }

  // Casting and taking back votes, as changes of votes.
  lemma ChangedVotes(l: Ledger, voter: string, names: set<string>)
    requires voter in l.accounts
    ensures Changed(l, voter, names, l.accounts[voter].lockAmount, Create) == WithVotes(l, voter, names)
    ensures Changed(l, voter, names, -l.accounts[voter].lockAmount, Delete) == WithoutVotes(l, voter, names)
  {
  }

  lemma OthersStay(l: Ledger, voter: string, names: set<string>)
    ensures forall v: Vote | v.voter != voter :: v in WithVotes(l, voter, names).votes <==> v in l.votes
    ensures forall v: Vote | v.voter != voter :: v in WithoutVotes(l, voter, names).votes <==> v in l.votes
  {
  }

  lemma NothingShared(l: Ledger)
    ensures WithBalances(l, Balances(l)) == l
  {
    assert WithBalances(l, Balances(l)).accounts == l.accounts;
  }

  // One amount more on one account.
  lemma OneMoreCredit(l: Ledger, gny: map<string, int>, key: string, amount: int)
    requires gny.Keys == l.accounts.Keys && key in l.accounts
    ensures WithBalances(l, R.Credited(gny, [key], amount)) == Credited(WithBalances(l, gny), key, amount)
  {
    assert [key][..0] == [];
    assert WithBalances(l, R.Credited(gny, [key], amount)).accounts
           == Credited(WithBalances(l, gny), key, amount).accounts;
  }

  lemma PaidOnce(l: Ledger, pot: R.Pot, n: nat, keys: seq<string>, last: string)
    requires n > 0 && last in l.accounts
    ensures Paid(l, pot, n, keys, last)
            == Credited(WithBalances(l, R.Credited(Balances(l), keys, pot.fee / n + pot.reward / n)), last,
                        pot.fee / n * n - pot.fee + (pot.reward / n * n - pot.reward))
  {
    var share, rest := pot.fee / n + pot.reward / n, pot.fee / n * n - pot.fee + (pot.reward / n * n - pot.reward);
    var shared := R.Credited(Balances(l), keys, share);
    assert R.PaidOut(Balances(l), pot, n, keys, last) == R.Credited(shared, [last], rest);
    OneMoreCredit(l, shared, last, rest);
  }

  lemma OneShareMore(l: Ledger, keys: seq<string>, key: string, amount: int)
    requires key in l.accounts
    ensures WithBalances(l, R.Credited(Balances(l), keys + [key], amount))
            == Credited(WithBalances(l, R.Credited(Balances(l), keys, amount)), key, amount)
  {
    R.CreditedSnoc(Balances(l), keys, key, amount);
    OneMoreCredit(l, R.Credited(Balances(l), keys, amount), key, amount);
  }

  lemma VotedRegistered(l: Ledger, voter: string)
    requires VotesCovered(l)
    ensures VotedBy(l, voter) <= l.delegates.Keys
  {
    forall d | d in VotedBy(l, voter)
      ensures d in l.delegates
    {
      assert Vote(voter, d) in l.votes;
    }
  }
}
