/** Issued assets and their balances. */
module AssetLedger {
  import opened Sums

  datatype Asset = Asset(issuerId: string, maximum: int, quantity: int)

  datatype Holding = Holding(address: string, currency: string)

  // Issuers' names by address, assets by full name.
  datatype Assets = Assets(issuers: map<string, string>, assets: map<string, Asset>, balances: map<Holding, int>)

  function Holders(l: Assets, currency: string): set<string> {
    set h | h in l.balances && h.currency == currency :: h.address
  }

  function BalanceOf(l: Assets, address: string, currency: string): int {
    if Holding(address, currency) in l.balances then l.balances[Holding(address, currency)] else 0
  }

  /** All coins of a currency. */
  ghost function Circulating(l: Assets, currency: string): int {
    Sum(Holders(l, currency), a => BalanceOf(l, a, currency))
  }

  function SetBalance(l: Assets, address: string, currency: string, balance: int): Assets {
    l.(balances := l.balances[Holding(address, currency) := balance])
  }

  // What circulates is a matter of balances only.
  lemma SameBalances(l: Assets, l': Assets, currency: string)
    requires l'.balances == l.balances
    ensures Circulating(l', currency) == Circulating(l, currency)
  {
    assert Holders(l', currency) == Holders(l, currency);
    SumSame(Holders(l, currency), a => BalanceOf(l, a, currency), a => BalanceOf(l', a, currency));
  }

  lemma SetBalanceCirculating(l: Assets, address: string, currency: string, balance: int, c: string)
    ensures Circulating(SetBalance(l, address, currency, balance), c)
            == Circulating(l, c) + (if c == currency then balance - BalanceOf(l, address, currency) else 0)
  {
    var l' := SetBalance(l, address, currency, balance);
    var f, g := (a: string) => BalanceOf(l, a, c), (a: string) => BalanceOf(l', a, c);
    if c != currency {
      assert Holders(l', c) == Holders(l, c);
      SumSame(Holders(l, c), f, g);
    } else if Holding(address, c) in l.balances {
      assert Holders(l', c) == Holders(l, c) && address in Holders(l, c);
      SumChange(Holders(l, c), f, g, address);
    } else {
      assert Holders(l', c) == Holders(l, c) + {address} && address !in Holders(l, c);
      SumAdd(Holders(l, c), g, address);
      SumSame(Holders(l, c), f, g);
    }
  }

  predicate Dotted(name: string) {
    '.' in name
  }

  function Currencies(l: Assets): set<string> {
    set h | h in l.balances :: h.currency
  }

  // No balance is negative, or of an unknown currency.
  predicate BalancesOk(l: Assets) {
    (forall h | h in l.balances :: l.balances[h] >= 0) && Currencies(l) <= l.assets.Keys
  }

  ghost predicate QuantityOk(l: Assets, name: string)
    requires name in l.assets
  {
    var a := l.assets[name];
    0 <= a.quantity <= a.maximum && a.quantity == Circulating(l, name) && Dotted(name)
  }

  // Each asset's quantity is what circulates, within its maximum.
  ghost predicate QuantitiesOk(l: Assets) {
    forall n | n in l.assets :: QuantityOk(l, n)
  }

  ghost predicate Backed(l: Assets) {
    QuantitiesOk(l) && BalancesOk(l)
  }

  function FullName(issuer: string, symbol: string): string {
    issuer + "." + symbol
  }

  function BalanceAdded(l: Assets, currency: string, address: string, amount: int): Assets {
    SetBalance(l, address, currency, BalanceOf(l, address, currency) + amount)
  }

  lemma BalanceAddedCirculating(l: Assets, currency: string, address: string, amount: int, c: string)
    ensures Circulating(BalanceAdded(l, currency, address, amount), c)
            == Circulating(l, c) + (if c == currency then amount else 0)
  {
    SetBalanceCirculating(l, address, currency, BalanceOf(l, address, currency) + amount, c);
  }

  function Moved(l: Assets, currency: string, from: string, to: string, amount: int): Assets {
    BalanceAdded(BalanceAdded(l, currency, from, -amount), currency, to, amount)
  }

  // Moving coins of a currency: what circulates stays.
  lemma MovedCirculating(l: Assets, currency: string, from: string, to: string, amount: int, c: string)
    ensures Circulating(Moved(l, currency, from, to, amount), c) == Circulating(l, c)
  {
    BalanceAddedCirculating(l, currency, from, -amount, c);
    BalanceAddedCirculating(BalanceAdded(l, currency, from, -amount), currency, to, amount, c);
  }

  lemma MovedBalances(l: Assets, currency: string, from: string, to: string, amount: int)
    requires BalancesOk(l) && 0 < amount <= BalanceOf(l, from, currency)
    ensures BalancesOk(Moved(l, currency, from, to, amount))
  {
    var l' := Moved(l, currency, from, to, amount);
    assert Holding(from, currency) in l.balances;
    assert forall h | h in l'.balances :: h in l.balances || h == Holding(to, currency);
    assert forall h | h in l.balances :: h.currency in Currencies(l);
  }

  lemma MovedBacked(l: Assets, currency: string, from: string, to: string, amount: int)
    requires Backed(l) && 0 < amount <= BalanceOf(l, from, currency)
    ensures Backed(Moved(l, currency, from, to, amount))
  {
    var l' := Moved(l, currency, from, to, amount);
    MovedBalances(l, currency, from, to, amount);
    forall n | n in l'.assets
      ensures QuantityOk(l', n)
    {
      assert QuantityOk(l, n);
      MovedCirculating(l, currency, from, to, amount, n);
    }
  }

  // The view after an issue.
  function Issued(l: Assets, name: string, issuer: string, quantity: int, amount: int): Assets
    requires name in l.assets
  {
    BalanceAdded(l.(assets := l.assets[name := l.assets[name].(quantity := quantity)]), name, issuer, amount)
  }

  lemma IssuedCirculating(l: Assets, name: string, issuer: string, quantity: int, amount: int, c: string)
    requires name in l.assets
    ensures Circulating(Issued(l, name, issuer, quantity, amount), c)
            == Circulating(l, c) + (if c == name then amount else 0)
  {
    var l1 := l.(assets := l.assets[name := l.assets[name].(quantity := quantity)]);
    SameBalances(l, l1, c);
    BalanceAddedCirculating(l1, name, issuer, amount, c);
  }

  lemma IssuedBalances(l: Assets, name: string, issuer: string, quantity: int, amount: int)
    requires BalancesOk(l) && name in l.assets && amount > 0
    ensures BalancesOk(Issued(l, name, issuer, quantity, amount))
  {
    var l' := Issued(l, name, issuer, quantity, amount);
    assert forall h | h in l'.balances :: h in l.balances || h == Holding(issuer, name);
    assert forall h | h in l.balances :: h.currency in Currencies(l);
  }

  // The assets that are not issued.
  lemma IssuedOthers(l: Assets, name: string, issuer: string, quantity: int, amount: int)
    requires QuantitiesOk(l) && name in l.assets
    ensures var l' := Issued(l, name, issuer, quantity, amount);
            forall n | n in l'.assets && n != name :: QuantityOk(l', n)
  {
    var l' := Issued(l, name, issuer, quantity, amount);
    forall n | n in l'.assets && n != name
      ensures QuantityOk(l', n)
    {
      assert QuantityOk(l, n);
      IssuedCirculating(l, name, issuer, quantity, amount, n);
    }
  }

  /** Issuing keeps an asset backed exactly when it starts from the view's quantity and stays within the maximum. */
  lemma IssuedBacked(l: Assets, name: string, issuer: string, read: int, amount: int)
    requires Backed(l) && name in l.assets && amount > 0
    ensures Backed(Issued(l, name, issuer, read + amount, amount))
            <==> read == l.assets[name].quantity && read + amount <= l.assets[name].maximum
  {
    var l' := Issued(l, name, issuer, read + amount, amount);
    IssuedBalances(l, name, issuer, read + amount, amount);
    IssuedOthers(l, name, issuer, read + amount, amount);
    assert QuantityOk(l', name) <==> read == l.assets[name].quantity && read + amount <= l.assets[name].maximum by {
      assert QuantityOk(l, name);
      IssuedCirculating(l, name, issuer, read + amount, amount, name);
    }
  }

  predicate MayIssue(l: Assets, sender: string, name: string, amount: int) {
    name in l.assets && l.assets[name].issuerId == sender && l.assets[name].quantity + amount <= l.assets[name].maximum
  }

  // The ledger after an issue.
  function WithIssue(l: Assets, sender: string, name: string, amount: int): Assets
    requires MayIssue(l, sender, name, amount)
  {
    Issued(l, name, sender, l.assets[name].quantity + amount, amount)
  }

  lemma WithIssueCirculating(l: Assets, sender: string, name: string, amount: int)
    requires MayIssue(l, sender, name, amount)
    ensures var l' := WithIssue(l, sender, name, amount);
            forall c :: Circulating(l', c) == Circulating(l, c) + (if c == name then amount else 0)
  {
    var l' := WithIssue(l, sender, name, amount);
    forall c
      ensures Circulating(l', c) == Circulating(l, c) + (if c == name then amount else 0)
    {
      IssuedCirculating(l, name, sender, l.assets[name].quantity + amount, amount, c);
    }
  }

  function WithAsset(l: Assets, name: string, issuer: string, maximum: int): Assets {
    l.(assets := l.assets[name := Asset(issuer, maximum, 0)])
  }

  // A new asset changes no balance.
  lemma RegisteredBacked(l: Assets, name: string, issuer: string, maximum: int)
    requires Backed(l) && name !in l.assets && Dotted(name) && maximum > 0
    ensures Backed(WithAsset(l, name, issuer, maximum))
    ensures forall c :: Circulating(WithAsset(l, name, issuer, maximum), c) == Circulating(l, c)
  {
    var l' := WithAsset(l, name, issuer, maximum);
    forall c
      ensures Circulating(l', c) == Circulating(l, c)
    {
      SameBalances(l, l', c);
    }
    assert Holders(l, name) == {};
    forall n | n in l'.assets
      ensures QuantityOk(l', n)
    {
      assert n in l.assets ==> QuantityOk(l, n);
    }
  }

  /******* Issuers *******/

  predicate Letter(c: char) {
    'a' <= c <= 'z' || 'A' <= c <= 'Z'
  }

  predicate IssuerName(name: string) {
    1 <= |name| <= 16 && forall i | 0 <= i < |name| :: Letter(name[i])
  }

  // What stands before the first dot.
  function BeforeDot(name: string): string {
    if name == "" || name[0] == '.' then "" else [name[0]] + BeforeDot(name[1..])
  }

  lemma {:induction false} BeforeDotIs(issuer: string, symbol: string)
    requires '.' !in issuer
    ensures BeforeDot(FullName(issuer, symbol)) == issuer
  {
    if issuer == "" {
    } else {
      BeforeDotIs(issuer[1..], symbol);
      assert FullName(issuer, symbol)[1..] == FullName(issuer[1..], symbol);
      assert FullName(issuer, symbol)[0] == issuer[0] && issuer[0] in issuer;
    }
  }

  predicate OfIssuer(l: Assets, name: string)
    requires name in l.assets
  {
    l.assets[name].issuerId in l.issuers && BeforeDot(name) == l.issuers[l.assets[name].issuerId]
  }

  // Issuers have names of their own, and an asset is the issuer's whose name it begins with.
  predicate IssuersOk(l: Assets) {
    && (forall a | a in l.issuers :: '.' !in l.issuers[a])
    && (forall a, b | a in l.issuers && b in l.issuers && a != b :: l.issuers[a] != l.issuers[b])
    && (forall n | n in l.assets :: OfIssuer(l, n))
  }

  ghost predicate Sound(l: Assets) {
    Backed(l) && IssuersOk(l)
  }

  // Issuers and assets stay what they are, and no quantity shrinks.
  predicate Grown(l: Assets, l': Assets) {
    && (forall a | a in l.issuers :: a in l'.issuers && l'.issuers[a] == l.issuers[a])
    && (forall n | n in l.assets :: n in l'.assets && GrownAsset(l.assets[n], l'.assets[n]))
  }

  lemma GrownOn(a: Assets, b: Assets, c: Assets)
    requires Grown(a, b) && Grown(b, c)
    ensures Grown(a, c)
  {
    assert forall n | n in a.assets :: GrownAsset(a.assets[n], b.assets[n]) && GrownAsset(b.assets[n], c.assets[n]);
  }

  predicate GrownAsset(a: Asset, b: Asset) {
    b.issuerId == a.issuerId && b.maximum == a.maximum && b.quantity >= a.quantity
  }

  function WithIssuer(l: Assets, address: string, name: string): Assets {
    l.(issuers := l.issuers[address := name])
  }

  lemma WithIssuerIssuers(l: Assets, address: string, name: string)
    requires IssuersOk(l) && IssuerName(name) && address !in l.issuers && name !in l.issuers.Values
    ensures IssuersOk(WithIssuer(l, address, name)) && Grown(l, WithIssuer(l, address, name))
  {
    assert '.' !in name by { assert forall i | 0 <= i < |name| :: Letter(name[i]); }
    assert forall a | a in l.issuers :: l.issuers[a] in l.issuers.Values;
    assert forall n | n in l.assets :: OfIssuer(l, n);
  }

  lemma WithIssuerBacked(l: Assets, address: string, name: string)
    requires Backed(l)
    ensures Backed(WithIssuer(l, address, name))
    ensures forall c :: Circulating(WithIssuer(l, address, name), c) == Circulating(l, c)
  {
    var l' := WithIssuer(l, address, name);
    forall c
      ensures Circulating(l', c) == Circulating(l, c)
    {
      SameBalances(l, l', c);
    }
    forall n | n in l'.assets
      ensures QuantityOk(l', n)
    {
      assert QuantityOk(l, n);
    }
    assert Currencies(l') == Currencies(l);
  }

  /** An issue that may be made keeps every asset backed. */
  lemma WithIssueBacked(l: Assets, sender: string, name: string, amount: int)
    requires Backed(l) && amount > 0 && MayIssue(l, sender, name, amount)
    ensures Backed(WithIssue(l, sender, name, amount))
  {
    IssuedBacked(l, name, sender, l.assets[name].quantity, amount);
  }

  lemma WithIssueGrown(l: Assets, sender: string, name: string, amount: int)
    requires IssuersOk(l) && amount > 0 && MayIssue(l, sender, name, amount)
    ensures IssuersOk(WithIssue(l, sender, name, amount)) && Grown(l, WithIssue(l, sender, name, amount))
  {
    var l' := WithIssue(l, sender, name, amount);
    assert l'.issuers == l.issuers && l'.assets.Keys == l.assets.Keys;
    assert forall n | n in l.assets :: GrownAsset(l.assets[n], l'.assets[n]);
  }
}
