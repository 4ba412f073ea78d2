/** Blocks of the basic ledger over rounds: their transactions, the pot they fill, and who is paid when a round ends. */
module LedgerBlocks {
  import opened Rows
  import opened Folds
  import opened Slots
  import opened Sums
  import opened Arithmetic
  import opened Ledgers
  import opened LedgerRuns
  import opened R = Rounds

  // What the ledger makes of a block: its transactions, the public key of its delegate, its reward.
  datatype Body = Body(transactions: seq<Transaction>, delegate: string, reward: nat)

  // The address of a public key, the delegates with most votes, and the list of a height from the bookkeeper's.
  datatype Rota = Rota(addressOf: string -> string, top: State -> seq<string>,
                       arrange: (seq<string>, nat) -> seq<string>)

  // The state with the pots by round, the delegates of the blocks so far, and the delegates of the bookkeeper.
  datatype Books = Books(state: State, pots: map<nat, Pot>, forgers: seq<string>, bookkeeper: seq<string>)

  /******* Paying out *******/

  function Balances(l: Ledger): map<string, int> {
    map a | a in l.accounts :: l.accounts[a].gny
  }

  function WithBalances(l: Ledger, gny: map<string, int>): Ledger {
    l.(accounts := map a | a in l.accounts ::
         if a in gny then l.accounts[a].(gny := gny[a]) else l.accounts[a])
  }

  // The ledger after a payout to the forgers' addresses.
  function Paid(l: Ledger, pot: Pot, n: nat, forgers: seq<string>, last: string): Ledger
    requires n > 0
  {
    WithBalances(l, PaidOut(Balances(l), pot, n, forgers, last))
  }

  lemma BalancesWeight(l: Ledger, gny: map<string, int>, d: string)
    requires gny.Keys == l.accounts.Keys
    ensures Weight(WithBalances(l, gny), d) == Weight(l, d)
  {
    var l' := WithBalances(l, gny);
    assert VotersOf(l', d) == VotersOf(l, d);
    SumSame(VotersOf(l, d), a => LockOf(l, a), a => LockOf(l', a));
  }

  lemma BalancesTotal(l: Ledger, gny: map<string, int>)
    requires gny.Keys == l.accounts.Keys
    ensures Ledgers.Total(WithBalances(l, gny)) == Ledgers.Total(l) + R.Total(gny) - R.Total(Balances(l))
  {
    var l' := WithBalances(l, gny);
    var keys, locks := l.accounts.Keys, (a: string) => LockOf(l, a);
    assert l'.accounts.Keys == keys && Balances(l).Keys == keys;
    SumPlus(keys, a => if a in gny then gny[a] else 0, locks, a => CoinsOf(l', a));
    SumPlus(keys, a => if a in Balances(l) then Balances(l)[a] else 0, locks, a => CoinsOf(l, a));
  }

  /** Changing balances changes the coins by as much, and neither rules nor votes nor names. */
  lemma BalancesKeep(l: Ledger, gny: map<string, int>)
    requires gny.Keys == l.accounts.Keys && Sound(l)
    ensures var l' := WithBalances(l, gny);
            && Sound(l') && (VotesExact(l') <==> VotesExact(l)) && FlagsKept(l, l') && l'.delegates == l.delegates
  {
    var l' := WithBalances(l, gny);
    forall d
      ensures Weight(l', d) == Weight(l, d)
    {
      BalancesWeight(l, gny, d);
    }
    InStepKeeps(l, l');
    NamesKept(l, l');
  }

  // The last forger ends with debt, having had none: it is charged what does not divide.
  predicate Dips(l: Ledger, pot: Pot, n: nat, forgers: seq<string>, last: string)
    requires n > 0
  {
    var gny := AccountOf(l, last).gny;
    last in l.accounts && gny >= 0
        && gny + Gain(pot.fee, n, forgers, last, last) + Gain(pot.reward, n, forgers, last, last) < 0
  }

  /** A payout adds `Payout` of both pots to the coins, keeps rules and votes, and leaves no new debt exactly when the
      last forger can bear what does not divide. */
  lemma PaidKeeps(l: Ledger, pot: Pot, n: nat, forgers: seq<string>, last: string)
    requires n > 0 && Sound(l) && last in l.accounts && forall a | a in forgers :: a in l.accounts
    ensures var l' := Paid(l, pot, n, forgers, last);
            && Sound(l') && (VotesExact(l') <==> VotesExact(l)) && FlagsKept(l, l') && l'.delegates == l.delegates
            && Ledgers.Total(l') == Ledgers.Total(l) + Payout(pot.fee, n, |forgers|) + Payout(pot.reward, n, |forgers|)
            && (NoNewDebt(l, l') <==> !Dips(l, pot, n, forgers, last))
  {
    var gny := PaidOut(Balances(l), pot, n, forgers, last);
    BalancesKeep(l, gny);
    BalancesTotal(l, gny);
    PaidOutTotal(Balances(l), pot, n, forgers, last);
    PaidDebt(l, pot, n, forgers, last);
  }

  lemma PaidDebt(l: Ledger, pot: Pot, n: nat, forgers: seq<string>, last: string)
    requires n > 0 && last in l.accounts
    ensures NoNewDebt(l, Paid(l, pot, n, forgers, last)) <==> !Dips(l, pot, n, forgers, last)
  {
    var l' := Paid(l, pot, n, forgers, last);
    forall a | a in l.accounts
      ensures AccountOf(l', a).gny
              == AccountOf(l, a).gny + Gain(pot.fee, n, forgers, last, a) + Gain(pot.reward, n, forgers, last, a)
      ensures a != last ==> AccountOf(l', a).gny >= AccountOf(l, a).gny
    {
      PaidIsNoted(Balances(l), pot, n, forgers, last, a);
      NotNegative(multiset(forgers)[a], pot.fee / n);
      NotNegative(multiset(forgers)[a], pot.reward / n);
    }
  }

  lemma NotNegative(a: nat, b: nat)
    ensures a * b >= 0
  {
  }

  /** A forger without coins is left with debt by a pot that is smaller than the list of delegates. */
  lemma PoorForger(l: Ledger, fee: nat, n: nat, forgers: seq<string>, last: string)
    requires 0 < fee < n && last in l.accounts && l.accounts[last].gny == 0
    ensures Dips(l, Pot(fee, 0), n, forgers, last)
    ensures AccountOf(Paid(l, Pot(fee, 0), n, forgers, last), last).gny == 0 - fee
  {
    PaidIsNoted(Balances(l), Pot(fee, 0), n, forgers, last, last);
    assert fee / n == 0;
  }

  /******* One block *******/

  // The delegate has a row: its account's name is registered.
  predicate HasRow(l: Ledger, address: string) {
    && address in l.accounts && l.accounts[address].username.Some?
    && l.accounts[address].username.value in l.delegates
  }

  // The delegates of at most 100 blocks.
  function LastForgers(forgers: seq<string>): seq<string> {
    if |forgers| <= DELEGATES - 1 then forgers else forgers[|forgers| - (DELEGATES - 1)..]
  }

  function Forgers(b: Books, delegate: string): seq<string> {
    LastForgers(b.forgers) + [delegate]
  }

  function Addresses(q: Rota, keys: seq<string>): seq<string> {
    seq(|keys|, i requires 0 <= i < |keys| => q.addressOf(keys[i]))
  }

  predicate EndsRound(height: nat) {
    height % DELEGATES == 0
  }

  /** Whether a round's bookkeeping for a block succeeds on a ledger: no row is missing, and no list empty. */
  predicate RoundOk(q: Rota, b: Books, l: Ledger, delegate: string, height: nat) {
    && HasRow(l, q.addressOf(delegate))
    && (EndsRound(height) ==>
          && q.arrange(b.bookkeeper, height) != []
          && (forall k | k in q.arrange(b.bookkeeper, height) && k !in Forgers(b, delegate) ::
              HasRow(l, q.addressOf(k)))
          && (forall k | k in Forgers(b, delegate) :: HasRow(l, q.addressOf(k))))
  }

  function PotsAfter(b: Books, body: Body, height: nat): map<nat, Pot> {
    Added(b.pots, CalculateRound(height), Forged(body.delegate, Fees(body.transactions), body.reward))
  }

  // The pot that is paid out at the end of a round.
  function FullPot(b: Books, body: Body, height: nat): Pot {
    PotOf(PotsAfter(b, body, height), CalculateRound(height))
  }

  /** The ledger after a block's round bookkeeping. */
  function Settled(q: Rota, b: Books, l: Ledger, body: Body, height: nat): Ledger {
    var list := q.arrange(b.bookkeeper, height);
    if EndsRound(height) && list != [] then
      Paid(l, FullPot(b, body, height), |list|, Addresses(q, Forgers(b, body.delegate)), q.addressOf(body.delegate))
    else l
  }

  /** The books after a block whose transactions led to a state. */
  function Closed(q: Rota, b: Books, s: State, body: Body, height: nat): Books {
    var end := s.(view := Settled(q, b, s.view, body, height));
    Books(Committed(end), PotsAfter(b, body, height), b.forgers + [body.delegate],
          if EndsRound(height) then q.top(end) else b.bookkeeper)
  }

  /** A block, committed when no transaction and no part of the bookkeeping fails, and else taken back. */
  ghost function AppliedBlock(c: Checks, q: Rota, b: Books, body: Body, height: nat): (Books, bool) {
    var (s, ok) := AppliedAll(c, b.state, body.transactions, height);
    if ok && RoundOk(q, b, s.view, body.delegate, height) then (Closed(q, b, s, body, height), true)
    else (b.(state := RolledBack(b.state)), false)
  }

  // What is paid out at a block.
  function PaidAt(q: Rota, b: Books, body: Body, height: nat): int {
    var list, pot := q.arrange(b.bookkeeper, height), FullPot(b, body, height);
    if EndsRound(height) && list != [] then
      Payout(pot.fee, |list|, |Forgers(b, body.delegate)|) + Payout(pot.reward, |list|, |Forgers(b, body.delegate)|)
    else 0
  }

  // The block ends a round and leaves its forger with debt.
  ghost predicate DipsAt(c: Checks, q: Rota, b: Books, body: Body, height: nat) {
    var list, l := q.arrange(b.bookkeeper, height), AppliedAll(c, b.state, body.transactions, height).0.view;
    && EndsRound(height) && list != []
    && Dips(l, FullPot(b, body, height), |list|, Addresses(q, Forgers(b, body.delegate)), q.addressOf(body.delegate))
  }

  lemma SettledKeeps(q: Rota, b: Books, l: Ledger, body: Body, height: nat)
    requires Sound(l) && RoundOk(q, b, l, body.delegate, height)
    ensures var l' := Settled(q, b, l, body, height);
            && Sound(l') && (VotesExact(l') <==> VotesExact(l)) && FlagsKept(l, l') && l'.delegates == l.delegates
            && Ledgers.Total(l') == Ledgers.Total(l) + PaidAt(q, b, body, height)
  {
    if EndsRound(height) {
      var forgers, keys := Addresses(q, Forgers(b, body.delegate)), Forgers(b, body.delegate);
      forall a | a in forgers
        ensures a in l.accounts
      {
        var i :| 0 <= i < |keys| && forgers[i] == a;
        assert keys[i] in keys;
      }
      PaidKeeps(l, FullPot(b, body, height), |q.arrange(b.bookkeeper, height)|, forgers, q.addressOf(body.delegate));
    }
  }

  lemma SettledDebt(c: Checks, q: Rota, b: Books, body: Body, height: nat)
    requires AppliedBlock(c, q, b, body, height).1
    ensures var l := AppliedAll(c, b.state, body.transactions, height).0.view;
            NoNewDebt(l, Settled(q, b, l, body, height)) <==> !DipsAt(c, q, b, body, height)
  {
    var l := AppliedAll(c, b.state, body.transactions, height).0.view;
    if EndsRound(height) {
      PaidDebt(l, FullPot(b, body, height), |q.arrange(b.bookkeeper, height)|, Addresses(q, Forgers(b, body.delegate)),
               q.addressOf(body.delegate));
    }
  }

  lemma CommittedValid(s: State)
    requires Sound(s.view)
    ensures Valid(Committed(s))
  {
  }

  lemma BlockValid(c: Checks, q: Rota, b: Books, body: Body, height: nat)
    requires Valid(b.state) && height > 0
    ensures Valid(AppliedBlock(c, q, b, body, height).0.state)
  {
    var (s, ok) := AppliedAll(c, b.state, body.transactions, height);
    TransactionsKeep(c, b.state, body.transactions, height);
    if ok && RoundOk(q, b, s.view, body.delegate, height) {
      SettledKeeps(q, b, s.view, body, height);
      CommittedValid(s.(view := Settled(q, b, s.view, body, height)));
    } else {
      CommittedValid(State(b.state.tables, b.state.tables, {}));
    }
  }

  /** A block that is committed: coins and fees grow by what unlocks append and what is paid out, votes stay exact
      exactly unless an unlock strands some, and no one gets into debt unless a payout leaves its forger with it. */
  lemma BlockKeeps(c: Checks, q: Rota, b: Books, body: Body, height: nat)
    requires Valid(b.state) && height > 0 && AppliedBlock(c, q, b, body, height).1
    ensures var l, l' := b.state.view, AppliedBlock(c, q, b, body, height).0.state.view;
            var surplus := SurplusAll(c, b.state, body.transactions, height);
            && Ledgers.Total(l') + Fees(body.transactions) == Ledgers.Total(l) + surplus + PaidAt(q, b, body, height)
            && surplus >= 0 && (surplus == 0 <==> !AppendsIn(c, b.state, body.transactions, height))
            && (VotesExact(l') <==> VotesExact(l) && !StrandsIn(c, b.state, body.transactions, height))
            && FlagsKept(l, l')
            && (!DipsAt(c, q, b, body, height) ==> NoNewDebt(l, l'))
  {
    var s := AppliedAll(c, b.state, body.transactions, height).0;
    TransactionsKeep(c, b.state, body.transactions, height);
    SettledKeeps(q, b, s.view, body, height);
    SettledDebt(c, q, b, body, height);
  }

  /******* Runs *******/

  ghost function BlockStep(c: Checks, q: Rota): Step<Books, Body> {
    (b: Books, body: Body, height: nat) => AppliedBlock(c, q, b, body, height)
  }

  lemma StepIs(c: Checks, q: Rota, b: Books, body: Body, height: nat)
    ensures BlockStep(c, q)(b, body, height) == AppliedBlock(c, q, b, body, height)
  {
  }

  /** Blocks in order, up to the first that fails; the first has the given height. */
  ghost function AppliedBlocks(c: Checks, q: Rota, b: Books, bodies: seq<Body>, first: nat): (Books, bool) {
    Fold(BlockStep(c, q), b, bodies, first)
  }

  lemma OneBlockMore(c: Checks, q: Rota, b: Books, bodies: seq<Body>, n: nat, first: nat, before: Books)
    requires n < |bodies| && AppliedBlocks(c, q, b, bodies[..n], first) == (before, true)
    ensures AppliedBlocks(c, q, b, bodies[..n + 1], first) == AppliedBlock(c, q, before, bodies[n], first + n)
  {
    More(BlockStep(c, q), b, bodies, n, first, before);
  }

  lemma FailedRun(c: Checks, q: Rota, b: Books, bodies: seq<Body>, n: nat, first: nat)
    requires n <= |bodies| && !AppliedBlocks(c, q, b, bodies[..n], first).1
    ensures AppliedBlocks(c, q, b, bodies, first) == AppliedBlocks(c, q, b, bodies[..n], first)
  {
    Folds.FailureStays(BlockStep(c, q), b, bodies, n, first);
  }

  ghost function SurplusAt(c: Checks): (Books, Body, nat) -> int {
    (b: Books, body: Body, height: nat) => SurplusAll(c, b.state, body.transactions, height)
  }

  ghost function PayoutAt(q: Rota): (Books, Body, nat) -> int {
    (b: Books, body: Body, height: nat) => PaidAt(q, b, body, height)
  }

  // What a block adds to the coins.
  ghost function AddedAt(c: Checks, q: Rota): (Books, Body, nat) -> int {
    (b: Books, body: Body, height: nat) =>
      SurplusAll(c, b.state, body.transactions, height) + PaidAt(q, b, body, height) - Fees(body.transactions)
  }

  ghost function StrandsAt(c: Checks): (Books, Body, nat) -> bool {
    (b: Books, body: Body, height: nat) => StrandsIn(c, b.state, body.transactions, height)
  }

  ghost function AppendsAt(c: Checks): (Books, Body, nat) -> bool {
    (b: Books, body: Body, height: nat) => AppendsIn(c, b.state, body.transactions, height)
  }

  ghost function DippingAt(c: Checks, q: Rota): (Books, Body, nat) -> bool {
    (b: Books, body: Body, height: nat) => DipsAt(c, q, b, body, height)
  }

  /** What unlocks append in a run, and what is paid out. */
  ghost function SurplusOf(c: Checks, q: Rota, b: Books, bodies: seq<Body>, first: nat): int {
    SumOver(BlockStep(c, q), SurplusAt(c), b, bodies, first)
  }

  ghost function PaidOf(c: Checks, q: Rota, b: Books, bodies: seq<Body>, first: nat): int {
    SumOver(BlockStep(c, q), PayoutAt(q), b, bodies, first)
  }

  // Somewhere an unlock strands votes: its sender votes and is no delegate.
  ghost predicate StrandsEver(c: Checks, q: Rota, b: Books, bodies: seq<Body>, first: nat) {
    Ever(BlockStep(c, q), StrandsAt(c), b, bodies, first)
  }

  // Somewhere the sender of an unlock has coins besides the locked ones.
  ghost predicate AppendsEver(c: Checks, q: Rota, b: Books, bodies: seq<Body>, first: nat) {
    Ever(BlockStep(c, q), AppendsAt(c), b, bodies, first)
  }

  // Somewhere a payout leaves its forger with debt.
  ghost predicate DipsEver(c: Checks, q: Rota, b: Books, bodies: seq<Body>, first: nat) {
    Ever(BlockStep(c, q), DippingAt(c, q), b, bodies, first)
  }

  function AllFees(bodies: seq<Body>): nat {
    if bodies == [] then 0 else AllFees(bodies[..|bodies| - 1]) + Fees(bodies[|bodies| - 1].transactions)
  }

  ghost function ValidBooks(): Books -> bool {
    (b: Books) => Valid(b.state)
  }

  lemma StepsValid(c: Checks, q: Rota)
    ensures forall b, body, h: nat | ValidBooks()(b) && h > 0 :: ValidBooks()(BlockStep(c, q)(b, body, h).0)
  {
    forall b: Books, body, h: nat | Valid(b.state) && h > 0
      ensures Valid(BlockStep(c, q)(b, body, h).0.state)
    {
      BlockValid(c, q, b, body, h);
    }
  }

  /** A run of blocks never breaks the ledger's rules, even when one of them fails. */
  lemma RunValid(c: Checks, q: Rota, b: Books, bodies: seq<Body>, first: nat)
    requires Valid(b.state) && first > 0
    ensures Valid(AppliedBlocks(c, q, b, bodies, first).0.state)
  {
    StepsValid(c, q);
    FoldKeeps(BlockStep(c, q), ValidBooks(), b, bodies, first);
  }

  lemma {:induction false} AddedSplits(c: Checks, q: Rota, b: Books, bodies: seq<Body>, first: nat)
    ensures SumOver(BlockStep(c, q), AddedAt(c, q), b, bodies, first)
            == SurplusOf(c, q, b, bodies, first) + PaidOf(c, q, b, bodies, first) - AllFees(bodies)
  {
    if bodies == [] {
    } else {
      AddedSplits(c, q, b, bodies[..|bodies| - 1], first);
    }
  }

  /** Any run of blocks, none failing, whatever rounds end in it: coins and fees together grow by exactly what unlocks
      append and what is paid out. Unlocks append nothing exactly when no unlocking sender has coins besides the locked
      ones. */
  lemma RunCoins(c: Checks, q: Rota, b: Books, bodies: seq<Body>, first: nat)
    requires Valid(b.state) && first > 0 && AppliedBlocks(c, q, b, bodies, first).1
    ensures Ledgers.Total(AppliedBlocks(c, q, b, bodies, first).0.state.view) + AllFees(bodies)
            == Ledgers.Total(b.state.view) + SurplusOf(c, q, b, bodies, first) + PaidOf(c, q, b, bodies, first)
    ensures SurplusOf(c, q, b, bodies, first) >= 0
    ensures SurplusOf(c, q, b, bodies, first) == 0 <==> !AppendsEver(c, q, b, bodies, first)
  {
    StepsValid(c, q);
    var total := (b: Books) => Ledgers.Total(b.state.view);
    var f := BlockStep(c, q);
    forall t, body, h: nat | ValidBooks()(t) && h > 0 && f(t, body, h).1
      ensures total(f(t, body, h).0) == total(t) + AddedAt(c, q)(t, body, h)
      ensures SurplusAt(c)(t, body, h) >= 0 && (SurplusAt(c)(t, body, h) == 0 <==> !AppendsAt(c)(t, body, h))
    {
      BlockKeeps(c, q, t, body, h);
    }
    FoldAdds(f, ValidBooks(), total, AddedAt(c, q), b, bodies, first);
    AddedSplits(c, q, b, bodies, first);
    SumSign(f, ValidBooks(), SurplusAt(c), AppendsAt(c), b, bodies, first);
  }

  /** Any run of blocks, none failing: votes are exact at the end exactly when they were and every unlocking voter was a
      delegate. */
  lemma RunVotes(c: Checks, q: Rota, b: Books, bodies: seq<Body>, first: nat)
    requires Valid(b.state) && first > 0 && AppliedBlocks(c, q, b, bodies, first).1
    ensures VotesExact(AppliedBlocks(c, q, b, bodies, first).0.state.view) <==>
              VotesExact(b.state.view) && !StrandsEver(c, q, b, bodies, first)
  {
    StepsValid(c, q);
    var exact := (b: Books) => VotesExact(b.state.view);
    var f := BlockStep(c, q);
    forall t, body, h: nat | ValidBooks()(t) && h > 0 && f(t, body, h).1
      ensures exact(f(t, body, h).0) <==> exact(t) && !StrandsAt(c)(t, body, h)
    {
      BlockKeeps(c, q, t, body, h);
    }
    FoldExact(f, ValidBooks(), exact, StrandsAt(c), b, bodies, first);
  }

  /** Any run of blocks, none failing: no account gets into debt unless a payout leaves its forger with it. */
  lemma RunDebts(c: Checks, q: Rota, b: Books, bodies: seq<Body>, first: nat)
    requires Valid(b.state) && first > 0 && AppliedBlocks(c, q, b, bodies, first).1 && !DipsEver(c, q, b, bodies, first)
    ensures NoNewDebt(b.state.view, AppliedBlocks(c, q, b, bodies, first).0.state.view)
  {
    StepsValid(c, q);
    var related := (b: Books, b': Books) => NoNewDebt(b.state.view, b'.state.view);
    var f := BlockStep(c, q);
    forall t, body, h: nat | ValidBooks()(t) && h > 0 && f(t, body, h).1 && !DippingAt(c, q)(t, body, h)
      ensures related(t, f(t, body, h).0)
    {
      BlockKeeps(c, q, t, body, h);
    }
    FoldRelates(f, ValidBooks(), related, DippingAt(c, q), b, bodies, first);
  }

  // All unlocks of a block are sent by delegates of a ledger.
  ghost predicate DelegatesUnlock(l: Ledger, txs: seq<Transaction>) {
    forall i | 0 <= i < |txs| && txs[i].call.Unlock? :: AccountOf(l, txs[i].sender).isDelegate
  }

  lemma {:induction false} DelegateUnlocks(c: Checks, s: State, l: Ledger, txs: seq<Transaction>, height: int)
    requires Valid(s) && height > 0 && FlagsKept(l, s.view) && DelegatesUnlock(l, txs)
    ensures !StrandsIn(c, s, txs, height)
  {
    if txs == [] {
    } else {
      var n := |txs| - 1;
      DelegateUnlocks(c, s, l, txs[..n], height);
      TransactionsKeep(c, s, txs[..n], height);
      assert txs[n].call.Unlock? ==> AccountOf(l, txs[n].sender).isDelegate;
    }
  }

  /** When every sender of an unlock is a delegate to begin with, votes are exact after any run of blocks exactly when
      they were before. */
  lemma DelegatesKeepVotes(c: Checks, q: Rota, b: Books, bodies: seq<Body>, first: nat)
    requires Valid(b.state) && first > 0 && AppliedBlocks(c, q, b, bodies, first).1
    requires forall i | 0 <= i < |bodies| :: DelegatesUnlock(b.state.view, bodies[i].transactions)
    ensures VotesExact(AppliedBlocks(c, q, b, bodies, first).0.state.view) <==> VotesExact(b.state.view)
  {
    StepsValid(c, q);
    var related := (b: Books, b': Books) => FlagsKept(b.state.view, b'.state.view);
    var fair := (body: Body) => DelegatesUnlock(b.state.view, body.transactions);
    var f := BlockStep(c, q);
    forall t, body, h: nat | ValidBooks()(t) && h > 0 && f(t, body, h).1
      ensures related(t, f(t, body, h).0)
    {
      BlockKeeps(c, q, t, body, h);
    }
    forall t, body, h: nat | ValidBooks()(t) && h > 0 && related(b, t) && fair(body)
      ensures !StrandsAt(c)(t, body, h)
    {
      DelegateUnlocks(c, t.state, b.state.view, body.transactions, h);
    }
    FoldNever(f, ValidBooks(), related, fair, StrandsAt(c), b, bodies, first);
    RunVotes(c, q, b, bodies, first);
  }
}
