/** Accounts, delegates and votes: the effect of each contract of the basic ledger, and the sums it keeps. */
module Ledgers {
  import opened Rows
  import opened Heights
  import opened Sums

  datatype Account = Account(gny: int, lockAmount: int, lockHeight: int, isLocked: bool, isDelegate: bool,
                             username: Option<string>)

  datatype Vote = Vote(voter: string, delegate: string)

  // Delegates are kept by username, with their votes.
  datatype Ledger = Ledger(accounts: map<string, Account>, delegates: map<string, int>, votes: set<Vote>)

  const NEW_ACCOUNT := Account(0, 0, 0, false, false, None)

  // The delegates an account votes for.
  function VotedBy(l: Ledger, voter: string): set<string> {
    set v | v in l.votes && v.voter == voter :: v.delegate
  }

  function VotersOf(l: Ledger, delegate: string): set<string> {
    set v | v in l.votes && v.delegate == delegate :: v.voter
  }

  function LockOf(l: Ledger, address: string): int {
    if address in l.accounts then l.accounts[address].lockAmount else 0
  }

  function CoinsOf(l: Ledger, address: string): int {
    if address in l.accounts then l.accounts[address].gny + l.accounts[address].lockAmount else 0
  }

  /** All coins of all accounts. */
  ghost function Total(l: Ledger): int {
    Sum(l.accounts.Keys, a => CoinsOf(l, a))
  }

  /** The locked coins of a delegate's voters. */
  ghost function Weight(l: Ledger, delegate: string): int {
    Sum(VotersOf(l, delegate), a => LockOf(l, a))
  }

  /******* Updates and sums *******/

  function SetAccount(l: Ledger, address: string, a: Account): Ledger {
    l.(accounts := l.accounts[address := a])
  }

  lemma SetAccountTotal(l: Ledger, address: string, a: Account)
    ensures Total(SetAccount(l, address, a)) == Total(l) - CoinsOf(l, address) + a.gny + a.lockAmount
  {
    var l' := SetAccount(l, address, a);
    var f, g := (x: string) => CoinsOf(l, x), (x: string) => CoinsOf(l', x);
    assert l'.accounts.Keys == l.accounts.Keys + {address};
    if address in l.accounts {
      assert l'.accounts.Keys == l.accounts.Keys;
      SumChange(l.accounts.Keys, f, g, address);
    } else {
      SumAdd(l.accounts.Keys, g, address);
      SumSame(l.accounts.Keys, f, g);
    }
  }

  lemma SetAccountWeight(l: Ledger, address: string, a: Account, delegate: string)
    ensures Weight(SetAccount(l, address, a), delegate)
            == Weight(l, delegate) + (if Vote(address, delegate) in l.votes then a.lockAmount - LockOf(l, address)
                                      else 0)
  {
    var l' := SetAccount(l, address, a);
    assert VotersOf(l', delegate) == VotersOf(l, delegate);
    assert address in VotersOf(l, delegate) <==> Vote(address, delegate) in l.votes;
    SumChange(VotersOf(l, delegate), x => LockOf(l, x), x => LockOf(l', x), address);
  }

  // Adds an amount to the votes of some delegates.
  function Shifted(l: Ledger, names: set<string>, amount: int): Ledger {
    l.(delegates := map d | d in l.delegates :: l.delegates[d] + (if d in names then amount else 0))
  }

  function Ballots(voter: string, names: set<string>): set<Vote> {
    set d | d in names :: Vote(voter, d)
  }

  lemma BallotsWeight(l: Ledger, voter: string, names: set<string>, delegate: string)
    requires Ballots(voter, names) !! l.votes
    ensures Weight(l.(votes := l.votes + Ballots(voter, names)), delegate)
            == Weight(l, delegate) + (if delegate in names then LockOf(l, voter) else 0)
  {
    var l' := l.(votes := l.votes + Ballots(voter, names));
    SumSame(VotersOf(l', delegate), x => LockOf(l', x), x => LockOf(l, x));
    if delegate in names {
      assert Vote(voter, delegate) in Ballots(voter, names);
      assert VotersOf(l', delegate) == VotersOf(l, delegate) + {voter};
      SumAdd(VotersOf(l, delegate), x => LockOf(l, x), voter);
    } else {
      assert VotersOf(l', delegate) == VotersOf(l, delegate);
    }
  }

  lemma UnballotsWeight(l: Ledger, voter: string, names: set<string>, delegate: string)
    requires Ballots(voter, names) <= l.votes
    ensures Weight(l.(votes := l.votes - Ballots(voter, names)), delegate)
            == Weight(l, delegate) - (if delegate in names then LockOf(l, voter) else 0)
  {
    var l' := l.(votes := l.votes - Ballots(voter, names));
    assert Ballots(voter, names) !! l'.votes;
    assert l'.votes + Ballots(voter, names) == l.votes;
    assert l'.(votes := l'.votes + Ballots(voter, names)) == l;
    BallotsWeight(l', voter, names, delegate);
  }

  /******* Effects *******/

  datatype Call =
    | Transfer(amount: int, recipient: string)
    | SetUserName(username: string)
    | LockCoins(height: int, lockedAmount: int)
    | Unlock
    | RegisterDelegate
    | CastVotes(delegates: seq<string>)
    | Unvote(delegates: seq<string>)

  // `unlock` appends the decimal digits of the locked amount to those of the balance.
  function Concatenated(gny: int, lockAmount: nat): int {
    if gny < 0 then -((-gny) * Pow10(|Decimal(lockAmount)|) + lockAmount)
    else gny * Pow10(|Decimal(lockAmount)|) + lockAmount
  }

  function Names(s: seq<string>): set<string> {
    set i | 0 <= i < |s| :: s[i]
  }

  function AccountOf(l: Ledger, address: string): Account {
    if address in l.accounts then l.accounts[address] else NEW_ACCOUNT
  }

  function Moved(l: Ledger, from: string, to: string, amount: int): Ledger {
    var paid := SetAccount(l, to, AccountOf(l, to).(gny := AccountOf(l, to).gny + amount));
    SetAccount(paid, from, AccountOf(paid, from).(gny := AccountOf(paid, from).gny - amount))
  }

  function Locked(l: Ledger, sender: string, height: int, amount: int): Ledger {
    var a := AccountOf(l, sender);
    Shifted(SetAccount(l, sender, a.(isLocked := true, lockHeight := height, gny := a.gny - amount,
                                     lockAmount := a.lockAmount + amount)),
            VotedBy(l, sender), amount)
  }

  // The votes of an unlocking account go only if it is a delegate.
  function VotesReleased(l: Ledger, sender: string): Ledger {
    var a := AccountOf(l, sender);
    if a.isDelegate && a.lockAmount > 0 then WithoutVotes(l, sender, VotedBy(l, sender)) else l
  }

  function Unlocked(l: Ledger, sender: string): Ledger {
    var a := AccountOf(l, sender);
    SetAccount(VotesReleased(l, sender), sender,
               a.(isLocked := false, lockHeight := 0, lockAmount := 0,
                  gny := if a.lockAmount < 0 then a.gny else Concatenated(a.gny, a.lockAmount)))
  }

  function Registered(l: Ledger, sender: string, username: string): Ledger {
    SetAccount(l.(delegates := l.delegates[username := 0]), sender, AccountOf(l, sender).(isDelegate := true))
  }

  function WithVotes(l: Ledger, sender: string, names: set<string>): Ledger {
    Shifted(l, names, LockOf(l, sender)).(votes := l.votes + Ballots(sender, names))
  }

  function WithoutVotes(l: Ledger, sender: string, names: set<string>): Ledger {
    Shifted(l, names, -LockOf(l, sender)).(votes := l.votes - Ballots(sender, names))
  }

  /******* What they keep *******/

  // Every delegate has at least the locked coins of its voters, who vote for registered delegates only.
  ghost predicate VotesCovered(l: Ledger) {
    && (forall v | v in l.votes :: v.delegate in l.delegates)
    && (forall d | d in l.delegates :: l.delegates[d] >= Weight(l, d))
  }

  ghost predicate VotesExact(l: Ledger) {
    forall d | d in l.delegates :: l.delegates[d] == Weight(l, d)
  }

  // No account that owed nothing owes something. In the genesis block the coins come from an account that then owes
  // them.
  ghost predicate NoNewDebt(l: Ledger, l': Ledger) {
    forall a | AccountOf(l, a).gny >= 0 :: AccountOf(l', a).gny >= 0
  }

  predicate LocksOk(l: Ledger) {
    forall a | a in l.accounts ::
      l.accounts[a].lockAmount >= 0 && (l.accounts[a].isLocked <==> l.accounts[a].lockAmount > 0)
  }

  // The weights of two ledgers differ as their delegates' votes do.
  ghost predicate InStep(l: Ledger, l': Ledger) {
    && l.delegates.Keys == l'.delegates.Keys
    && forall d | d in l.delegates :: l'.delegates[d] - l.delegates[d] == Weight(l', d) - Weight(l, d)
  }

  lemma InStepKeeps(l: Ledger, l': Ledger)
    requires InStep(l, l')
    ensures VotesCovered(l) && (forall v | v in l'.votes :: v.delegate in l'.delegates) ==> VotesCovered(l')
    ensures VotesExact(l) <==> VotesExact(l')
  {
  }

  lemma ShiftedWeight(l: Ledger, names: set<string>, amount: int, delegate: string)
    ensures Weight(Shifted(l, names, amount), delegate) == Weight(l, delegate)
  {
    var l' := Shifted(l, names, amount);
    assert VotersOf(l', delegate) == VotersOf(l, delegate);
    SumSame(VotersOf(l, delegate), x => LockOf(l, x), x => LockOf(l', x));
  }

  lemma ShiftedTotal(l: Ledger, names: set<string>, amount: int, votes: set<Vote>)
    ensures Total(Shifted(l, names, amount).(votes := votes)) == Total(l)
  {
    var l' := Shifted(l, names, amount).(votes := votes);
    assert l'.accounts == l.accounts;
    SumSame(l.accounts.Keys, x => CoinsOf(l, x), x => CoinsOf(l', x));
  }

  /** A transfer moves coins between two accounts: the total and all votes are as before. */
  lemma MovedKeeps(l: Ledger, from: string, to: string, amount: int)
    requires from != to && from in l.accounts
    ensures Total(Moved(l, from, to, amount)) == Total(l)
    ensures VotesCovered(l) ==> VotesCovered(Moved(l, from, to, amount))
    ensures VotesExact(l) <==> VotesExact(Moved(l, from, to, amount))
    ensures LocksOk(l) ==> LocksOk(Moved(l, from, to, amount))
    ensures amount >= 0 ==>
              (NoNewDebt(l, Moved(l, from, to, amount)) <==> l.accounts[from].gny < 0 || l.accounts[from].gny >= amount)
  {
    var a := AccountOf(l, to).(gny := AccountOf(l, to).gny + amount);
    var paid := SetAccount(l, to, a);
    var b := AccountOf(paid, from).(gny := AccountOf(paid, from).gny - amount);
    SetAccountTotal(l, to, a);
    SetAccountTotal(paid, from, b);
    forall d
      ensures Weight(SetAccount(paid, from, b), d) == Weight(l, d)
    {
      SetAccountWeight(l, to, a, d);
      SetAccountWeight(paid, from, b, d);
    }
    InStepKeeps(l, Moved(l, from, to, amount));
    assert AccountOf(Moved(l, from, to, amount), from).gny == l.accounts[from].gny - amount;
  }

  /** Locking moves coins within the account and adds them to the votes of its delegates. */
  lemma LockedKeeps(l: Ledger, sender: string, height: int, amount: int)
    requires sender in l.accounts
    ensures Total(Locked(l, sender, height, amount)) == Total(l)
    ensures VotesCovered(l) ==> VotesCovered(Locked(l, sender, height, amount))
    ensures (VotesExact(l) <==> VotesExact(Locked(l, sender, height, amount)))
    ensures LocksOk(l) && amount > 0 ==> LocksOk(Locked(l, sender, height, amount))
    ensures amount >= 0 ==>
              (NoNewDebt(l, Locked(l, sender, height, amount)) <==>
                 l.accounts[sender].gny < 0 || l.accounts[sender].gny >= amount)
  {
    var a := l.accounts[sender];
    var a' := a.(isLocked := true, lockHeight := height, gny := a.gny - amount, lockAmount := a.lockAmount + amount);
    var l1 := SetAccount(l, sender, a');
    SetAccountTotal(l, sender, a');
    ShiftedTotal(l1, VotedBy(l, sender), amount, l1.votes);
    assert Shifted(l1, VotedBy(l, sender), amount).(votes := l1.votes) == Locked(l, sender, height, amount);
    forall d
      ensures Weight(Locked(l, sender, height, amount), d)
              == Weight(l, d) + (if d in VotedBy(l, sender) then amount else 0)
    {
      SetAccountWeight(l, sender, a', d);
      ShiftedWeight(l1, VotedBy(l, sender), amount, d);
      assert d in VotedBy(l, sender) <==> Vote(sender, d) in l.votes;
    }
    InStepKeeps(l, Locked(l, sender, height, amount));
    assert AccountOf(Locked(l, sender, height, amount), sender).gny == a.gny - amount;
  }

  /** Votes for other delegates add the sender's locked coins to each. */
  lemma WithVotesKeeps(l: Ledger, sender: string, names: set<string>)
    requires VotedBy(l, sender) !! names && names <= l.delegates.Keys
    ensures Total(WithVotes(l, sender, names)) == Total(l)
    ensures VotesCovered(l) ==> VotesCovered(WithVotes(l, sender, names))
    ensures (VotesExact(l) <==> VotesExact(WithVotes(l, sender, names)))
  {
    var l1 := Shifted(l, names, LockOf(l, sender));
    ShiftedTotal(l, names, LockOf(l, sender), l.votes + Ballots(sender, names));
    forall v | v in Ballots(sender, names)
      ensures v !in l.votes
    {
      assert v in l.votes ==> v.delegate in VotedBy(l, sender);
    }
    forall d
      ensures Weight(WithVotes(l, sender, names), d) == Weight(l, d) + (if d in names then LockOf(l, sender) else 0)
    {
      ShiftedWeight(l, names, LockOf(l, sender), d);
      BallotsWeight(l1, sender, names, d);
    }
    InStepKeeps(l, WithVotes(l, sender, names));
  }

  lemma WithoutVotesWeight(l: Ledger, sender: string, names: set<string>, d: string)
    requires names <= VotedBy(l, sender)
    ensures Weight(WithoutVotes(l, sender, names), d) == Weight(l, d) - (if d in names then LockOf(l, sender) else 0)
  {
    forall v | v in Ballots(sender, names)
      ensures v in l.votes
    {
      assert v.delegate in VotedBy(l, sender);
    }
    ShiftedWeight(l, names, -LockOf(l, sender), d);
    UnballotsWeight(Shifted(l, names, -LockOf(l, sender)), sender, names, d);
  }

  lemma WithoutVotesKeeps(l: Ledger, sender: string, names: set<string>)
    requires names <= VotedBy(l, sender)
    ensures Total(WithoutVotes(l, sender, names)) == Total(l)
    ensures VotesCovered(l) ==> VotesCovered(WithoutVotes(l, sender, names))
    ensures VotesExact(l) <==> VotesExact(WithoutVotes(l, sender, names))
  {
    ShiftedTotal(l, names, -LockOf(l, sender), l.votes - Ballots(sender, names));
    forall d
      ensures Weight(WithoutVotes(l, sender, names), d) == Weight(l, d) - (if d in names then LockOf(l, sender) else 0)
    {
      WithoutVotesWeight(l, sender, names, d);
    }
    InStepKeeps(l, WithoutVotes(l, sender, names));
  }

  lemma ReleasedKeeps(l: Ledger, sender: string)
    ensures Total(VotesReleased(l, sender)) == Total(l)
    ensures VotesCovered(l) ==> VotesCovered(VotesReleased(l, sender))
    ensures VotesExact(l) <==> VotesExact(VotesReleased(l, sender))
  {
    WithoutVotesKeeps(l, sender, VotedBy(l, sender));
  }

  lemma UnlockedWeight(l: Ledger, sender: string, d: string)
    requires sender in l.accounts
    ensures Weight(Unlocked(l, sender), d)
            == Weight(VotesReleased(l, sender), d) - (if Vote(sender, d) in VotesReleased(l, sender).votes
                                                      then LockOf(l, sender) else 0)
  {
    var a := l.accounts[sender];
    SetAccountWeight(VotesReleased(l, sender), sender, Unlocked(l, sender).accounts[sender], d);
  }

  // What an unlock does to the votes and the weight of one delegate.
  lemma UnlockedDelegate(l: Ledger, sender: string, d: string)
    requires sender in l.accounts && l.accounts[sender].lockAmount > 0 && d in l.delegates && VotesCovered(l)
    ensures var l2 := Unlocked(l, sender);
            && l2.delegates.Keys == l.delegates.Keys
            && l2.delegates[d] - Weight(l2, d)
               == l.delegates[d] - Weight(l, d)
                  + (if d in VotedBy(l, sender) && !l.accounts[sender].isDelegate then l.accounts[sender].lockAmount
                     else 0)
  {
    UnlockedWeight(l, sender, d);
    assert d in VotedBy(l, sender) <==> Vote(sender, d) in l.votes;
    if l.accounts[sender].isDelegate {
      NoneLeft(l, sender);
      WithoutVotesWeight(l, sender, VotedBy(l, sender), d);
    }
  }

  /** Unlocking keeps the votes covered. They are exact afterwards exactly when they were and the account is a delegate
      or votes for no one: otherwise its delegates keep votes that nothing backs. */
  lemma UnlockedVotes(l: Ledger, sender: string)
    requires sender in l.accounts && l.accounts[sender].lockAmount > 0 && VotesCovered(l)
    ensures VotesCovered(Unlocked(l, sender))
    ensures VotesExact(Unlocked(l, sender)) <==>
              VotesExact(l) && (l.accounts[sender].isDelegate || VotedBy(l, sender) == {})
  {
    var l2 := Unlocked(l, sender);
    forall d | d in l.delegates
      ensures l2.delegates[d] - Weight(l2, d)
              == l.delegates[d] - Weight(l, d)
                 + (if d in VotedBy(l, sender) && !l.accounts[sender].isDelegate then l.accounts[sender].lockAmount
                    else 0)
    {
      UnlockedDelegate(l, sender, d);
    }
    if !l.accounts[sender].isDelegate && VotedBy(l, sender) != {} {
      var d :| d in VotedBy(l, sender);
      assert Vote(sender, d) in l.votes;
      assert l2.delegates[d] - Weight(l2, d) > 0;
    }
  }

  lemma NoneLeft(l: Ledger, sender: string)
    ensures VotedBy(WithoutVotes(l, sender, VotedBy(l, sender)), sender) == {}
    ensures forall d :: Vote(sender, d) !in WithoutVotes(l, sender, VotedBy(l, sender)).votes
  {
    forall d
      ensures Vote(sender, d) !in WithoutVotes(l, sender, VotedBy(l, sender)).votes
    {
      assert Vote(sender, d) in l.votes ==> d in VotedBy(l, sender);
    }
  }

  /** Unlocking appends digits: it is the addition it is meant to be exactly when nothing else is on the account. */
  lemma UnlockedCoins(l: Ledger, sender: string)
    requires sender in l.accounts && l.accounts[sender].lockAmount >= 0 && l.accounts[sender].gny >= 0
    ensures var a := l.accounts[sender];
            Total(Unlocked(l, sender)) == Total(l) + a.gny * (Pow10(|Decimal(a.lockAmount)|) - 1)
    ensures Total(Unlocked(l, sender)) == Total(l) <==> l.accounts[sender].gny == 0
    ensures NoNewDebt(l, Unlocked(l, sender))
  {
    var a := l.accounts[sender];
    var p := Pow10(|Decimal(a.lockAmount)|);
    ReleasedKeeps(l, sender);
    SetAccountTotal(VotesReleased(l, sender), sender, Unlocked(l, sender).accounts[sender]);
    assert p >= 10 by { PowMonotone(1, |Decimal(a.lockAmount)|); assert Pow10(1) == 10; }
    assert a.gny * p - a.gny == a.gny * (p - 1);
    NonZeroProduct(a.gny, p - 1);
  }

  lemma NonZeroProduct(a: nat, b: nat)
    requires b > 0
    ensures a * b == 0 <==> a == 0
    ensures a * b >= 0
  {
  }

  /******* Names *******/

  // Usernames are unique, and each delegate is a delegate account's username.
  ghost predicate NamesOk(l: Ledger) {
    && (forall a, b | a in l.accounts && b in l.accounts && a != b && l.accounts[a].username.Some? ::
          l.accounts[a].username != l.accounts[b].username)
    && (forall d | d in l.delegates :: exists a | a in l.accounts ::
        l.accounts[a].username == Some(d) && l.accounts[a].isDelegate)
  }

  /** A newly registered delegate has no votes and no voters. */
  lemma RegisteredKeeps(l: Ledger, sender: string, username: string)
    requires sender in l.accounts && username !in l.delegates && (forall v | v in l.votes :: v.delegate in l.delegates)
    ensures Total(Registered(l, sender, username)) == Total(l)
    ensures VotesCovered(l) ==> VotesCovered(Registered(l, sender, username))
    ensures VotesExact(l) <==> VotesExact(Registered(l, sender, username))
  {
    var l1 := l.(delegates := l.delegates[username := 0]);
    var l2 := Registered(l, sender, username);
    SetAccountTotal(l1, sender, l2.accounts[sender]);
    SumSame(l.accounts.Keys, x => CoinsOf(l, x), x => CoinsOf(l1, x));
    forall d
      ensures Weight(l2, d) == Weight(l, d)
    {
      SetAccountWeight(l1, sender, l2.accounts[sender], d);
      assert VotersOf(l1, d) == VotersOf(l, d);
      SumSame(VotersOf(l, d), x => LockOf(l, x), x => LockOf(l1, x));
    }
    assert VotersOf(l, username) == {};
    assert forall d | d in l.delegates :: l2.delegates[d] == l.delegates[d];
  }

  lemma RegisteredNames(l: Ledger, sender: string, username: string)
    requires sender in l.accounts && l.accounts[sender].username == Some(username) && !l.accounts[sender].isDelegate
             && NamesOk(l)
    ensures username !in l.delegates && NamesOk(Registered(l, sender, username))
  {
    var l2 := Registered(l, sender, username);
    forall d | d in l2.delegates
      ensures exists a | a in l2.accounts :: l2.accounts[a].username == Some(d) && l2.accounts[a].isDelegate
    {
      if d == username {
        assert l2.accounts[sender].isDelegate;
      } else {
        var a :| a in l.accounts && l.accounts[a].username == Some(d) && l.accounts[a].isDelegate;
        assert l2.accounts[a].isDelegate;
      }
    }
  }

  // Naming an account that has no name with a name no one has.
  lemma NamedKeeps(l: Ledger, sender: string, username: string)
    requires sender in l.accounts && l.accounts[sender].username.None? && NamesOk(l)
    requires forall a | a in l.accounts :: l.accounts[a].username != Some(username)
    ensures NamesOk(SetAccount(l, sender, l.accounts[sender].(username := Some(username))))
  {
    var l' := SetAccount(l, sender, l.accounts[sender].(username := Some(username)));
    forall d | d in l'.delegates
      ensures exists a | a in l'.accounts :: l'.accounts[a].username == Some(d) && l'.accounts[a].isDelegate
    {
      var a :| a in l.accounts && l.accounts[a].username == Some(d) && l.accounts[a].isDelegate;
      assert l'.accounts[a].username == Some(d) && l'.accounts[a].isDelegate;
    }
  }

  // An account of which only the balance, the name or the lock height changes.
  lemma SameCoins(l: Ledger, address: string, a: Account)
    requires LocksOk(l) && a.lockAmount == LockOf(l, address) && (a.isLocked <==> a.lockAmount > 0)
    ensures LocksOk(SetAccount(l, address, a))
    ensures VotesCovered(l) ==> VotesCovered(SetAccount(l, address, a))
    ensures VotesExact(l) <==> VotesExact(SetAccount(l, address, a))
    ensures Total(SetAccount(l, address, a)) == Total(l) + a.gny - AccountOf(l, address).gny
  {
    SetAccountTotal(l, address, a);
    forall d
      ensures Weight(SetAccount(l, address, a), d) == Weight(l, d)
    {
      SetAccountWeight(l, address, a, d);
    }
    InStepKeeps(l, SetAccount(l, address, a));
  }

  // No account changes its name or its delegate flag; new ones have no name.
  predicate SameNames(l: Ledger, l': Ledger) {
    && l'.delegates.Keys == l.delegates.Keys && l.accounts.Keys <= l'.accounts.Keys
    && forall a | a in l'.accounts ::
         if a in l.accounts
         then l'.accounts[a].username == l.accounts[a].username && l'.accounts[a].isDelegate == l.accounts[a].isDelegate
         else l'.accounts[a].username.None?
  }

  lemma NamesKept(l: Ledger, l': Ledger)
    requires NamesOk(l) && SameNames(l, l')
    ensures NamesOk(l')
  {
    forall d | d in l'.delegates
      ensures exists x | x in l'.accounts :: l'.accounts[x].username == Some(d) && l'.accounts[x].isDelegate
    {
      var x :| x in l.accounts && l.accounts[x].username == Some(d) && l.accounts[x].isDelegate;
      assert l'.accounts[x].username == Some(d) && l'.accounts[x].isDelegate;
    }
  }

  // What holds of a ledger and its pending view in every block.
  ghost predicate Sound(l: Ledger) {
    LocksOk(l) && VotesCovered(l) && NamesOk(l)
  }
}
