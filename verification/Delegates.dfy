/** The delegate list of a round and who owns which slot. */
module Delegates {
  import opened Rows
  import opened Slots
  import opened Heights
  import opened Sequences

  /******* The list of a round *******/

  // A SHA-256 digest: its bytes, the first four of them by name.
  datatype Digest = Digest(b0: nat, b1: nat, b2: nat, b3: nat, rest: seq<nat>) {
    function Byte(x: nat): nat
      requires x < 4
    {
      if x == 0 then b0 else if x == 1 then b1 else if x == 2 then b2 else b3
    }
  }

  function Swap(s: seq<string>, i: nat, j: nat): seq<string>
    requires i < |s| && j < |s|
  {
    s[i := s[j]][j := s[i]]
  }

  // The swaps of one seed: positions i to i + 3, as far as they exist.
  function SeedSwaps(s: seq<string>, seed: Digest, i: nat, x: nat): (r: seq<string>)
    requires i <= |s| && x <= 4
    ensures |r| == |s|
    decreases 4 - x
  {
    if x < 4 && i < |s| then SeedSwaps(Swap(s, seed.Byte(x) % |s|, i), seed, i + 1, x + 1) else s
  }

  /** The shuffle from position i on: each seed serves four positions, and the position after them is passed over. */
  function Shuffled(s: seq<string>, next: Digest -> Digest, seed: Digest, i: nat): (r: seq<string>)
    ensures |r| == |s|
    decreases |s| - i
  {
    if i < |s| then Shuffled(SeedSwaps(s, seed, i, 0), next, next(seed), i + 5) else s
  }

  lemma SwapKeeps(s: seq<string>, i: nat, j: nat)
    requires i < |s| && j < |s|
    ensures multiset(Swap(s, i, j)) == multiset(s)
  {
  }

  lemma {:induction false} SeedSwapsKeep(s: seq<string>, seed: Digest, i: nat, x: nat)
    requires i <= |s| && x <= 4
    ensures multiset(SeedSwaps(s, seed, i, x)) == multiset(s)
    decreases 4 - x
  {
    if !(x < 4 && i < |s|) {
    } else {
      var newIndex := seed.Byte(x) % |s|;
      var swapped := Swap(s, newIndex, i);
      SwapKeeps(s, newIndex, i);
      SeedSwapsKeep(swapped, seed, i + 1, x + 1);
      assert SeedSwaps(s, seed, i, x) == SeedSwaps(swapped, seed, i + 1, x + 1);
    }
  }

  /** The shuffle only reorders. */
  lemma {:induction false} ShuffleKeeps(s: seq<string>, next: Digest -> Digest, seed: Digest, i: nat)
    ensures multiset(Shuffled(s, next, seed, i)) == multiset(s)
    decreases |s| - i
  {
    if |s| <= i {
    } else {
      var swapped := SeedSwaps(s, seed, i, 0);
      SeedSwapsKeep(s, seed, i, 0);
      ShuffleKeeps(swapped, next, next(seed), i + 5);
      ShuffleStep(s, next, seed, i);
    }
  }

  lemma ShuffleStep(s: seq<string>, next: Digest -> Digest, seed: Digest, i: nat)
    requires i < |s|
    ensures Shuffled(s, next, seed, i) == Shuffled(SeedSwaps(s, seed, i, 0), next, next(seed), i + 5)
  {
  }

  // Distinct entries stay distinct.
  lemma ShuffleDistinct(s: seq<string>, next: Digest -> Digest, seed: Digest)
    requires Distinct(s)
    ensures Distinct(Shuffled(s, next, seed, 0))
    ensures forall key :: key in Shuffled(s, next, seed, 0) <==> key in s
  {
    ShuffleKeeps(s, next, seed, 0);
    var r := Shuffled(s, next, seed, 0);
    forall key
      ensures key in r <==> key in s
    {
      assert key in multiset(r) <==> key in multiset(s);
    }
    DistinctCounts(s);
    CountsDistinct(r);
  }

  lemma {:induction false} DistinctCounts(s: seq<string>)
    requires Distinct(s)
    ensures forall x :: multiset(s)[x] <= 1
  {
    if s == [] {
    } else {
      var n := |s| - 1;
      DistinctCounts(s[..n]);
      assert s == s[..n] + [s[n]];
      forall x
        ensures multiset(s)[x] <= 1
      {
        if x == s[n] {
          assert x !in multiset(s[..n]);
        }
      }
    }
  }

  lemma {:induction false} CountsDistinct(s: seq<string>)
    requires forall x :: multiset(s)[x] <= 1
    ensures Distinct(s)
  {
    forall i, j | 0 <= i < j < |s|
      ensures s[i] != s[j]
    {
      assert s == s[..j] + s[j..];
      assert multiset(s) == multiset(s[..j]) + multiset(s[j..]);
      assert multiset(s[..j])[s[i]] >= 1 by { assert s[i] in s[..j]; }
      assert multiset(s[j..])[s[j]] >= 1 by { assert s[j..][0] == s[j]; }
      assert multiset(s)[s[i]] == multiset(s[..j])[s[i]] + multiset(s[j..])[s[i]];
    }
  }

  // The inner loop of the shuffle: one swap for each byte of the seed.
  method ShuffleBySeed(list: array<string>, seed: Digest, from: nat) returns (i: nat)
    requires from < list.Length
    modifies list
    ensures list[..] == SeedSwaps(old(list[..]), seed, from, 0)
    ensures i == if from + 4 <= list.Length then from + 4 else list.Length
  {
    i := from;
    var x := 0;
    while x < 4 && i < list.Length
      invariant x <= 4 && i == from + x <= list.Length
      invariant SeedSwaps(list[..], seed, i, x) == SeedSwaps(old(list[..]), seed, from, 0)
      decreases 4 - x
    {
      var newIndex := seed.Byte(x) % list.Length;
      ghost var now := list[..];
      var b := list[newIndex];
      list[newIndex] := list[i];
      list[i] := b;
      assert list[..] == Swap(now, newIndex, i);
      i, x := i + 1, x + 1;
    }
  }

  /** Shuffles the list in place, with swaps at the positions the seed bytes name. */
  method Shuffle(list: array<string>, next: Digest -> Digest, seed: Digest)
    modifies list
    ensures list[..] == Shuffled(old(list[..]), next, seed, 0)
  {
    var currentSeed := seed;
    var i := 0;
    while i < list.Length
      invariant Shuffled(list[..], next, currentSeed, i) == Shuffled(old(list[..]), next, seed, 0)
      decreases list.Length - i
    {
      ghost var from := i;
      i := ShuffleBySeed(list, currentSeed, i);
      PastEnd(list[..], next, next(currentSeed), i + 1, from + 5);
      currentSeed := next(currentSeed);
      i := i + 1;
    }
  }

  // Nothing is left to do past the end.
  lemma PastEnd(s: seq<string>, next: Digest -> Digest, seed: Digest, i: nat, j: nat)
    requires i == j || (|s| <= i && |s| <= j)
    ensures Shuffled(s, next, seed, i) == Shuffled(s, next, seed, j)
  {
  }

  /** The delegate list of a height. */
  method GenerateDelegateList(bookkeeper: seq<string>, height: nat, seedOf: nat -> Digest, next: Digest -> Digest)
    returns (list: seq<string>)
    ensures list == DelegateList(bookkeeper, CalculateRound(height), seedOf, next)
  {
    var a := new string[|bookkeeper|](i requires 0 <= i < |bookkeeper| => bookkeeper[i]);
    assert a[..] == bookkeeper;
    Shuffle(a, next, seedOf(CalculateRound(height)));
    list := a[..];
  }

  function DelegateList(bookkeeper: seq<string>, round: nat, seedOf: nat -> Digest, next: Digest -> Digest): seq<string>
  {
    Shuffled(bookkeeper, next, seedOf(round), 0)
  }

  /** All heights of a round have the same list, an arrangement of the bookkeeper's delegates. */
  lemma SameRoundSameList(bookkeeper: seq<string>, h1: nat, h2: nat, seedOf: nat -> Digest, next: Digest -> Digest,
                          round: nat)
    requires DELEGATES * (round - 1) < h1 <= DELEGATES * round && DELEGATES * (round - 1) < h2 <= DELEGATES * round
    ensures DelegateList(bookkeeper, CalculateRound(h1), seedOf, next)
            == DelegateList(bookkeeper, CalculateRound(h2), seedOf, next)
    ensures multiset(DelegateList(bookkeeper, CalculateRound(h1), seedOf, next)) == multiset(bookkeeper)
  {
    RoundHeights(h1, round);
    RoundHeights(h2, round);
    ShuffleKeeps(bookkeeper, next, seedOf(round), 0);
  }

  /******* Slot ownership *******/

  // The delegate a slot belongs to, if the list has one there.
  function Owner(list: seq<string>, slot: int): Option<string> {
    var pos := Remainder(slot, DELEGATES);
    if 0 <= pos < |list| && list[pos] != "" then Some(list[pos]) else None
  }

  /** With 101 distinct delegates, each one owns exactly one of any 101 slots in a row. */
  lemma OneSlotEach(list: seq<string>, start: nat, key: string)
    requires |list| == DELEGATES && Distinct(list) && "" !in list && key in list
    ensures exists slot: nat | start <= slot < start + DELEGATES ::
              && Owner(list, slot) == Some(key)
              && forall other: nat | start <= other < start + DELEGATES && Owner(list, other) == Some(key) ::
                    other == slot
  {
    var i :| 0 <= i < |list| && list[i] == key;
    var slot := start + (i - start) % DELEGATES;
    assert slot % DELEGATES == i;
    assert Owner(list, slot) == Some(key);
    forall other: nat | start <= other < start + DELEGATES && Owner(list, other) == Some(key)
      ensures other == slot
    {
      assert other % DELEGATES == i;
    }
  }

  datatype SlotData = SlotData(time: int, key: string)

  // The node holds the key of the slot's owner.
  predicate Mine(list: seq<string>, keys: set<string>, slot: int) {
    var owner := Owner(list, slot);
    owner.Some? && owner.value in keys
  }

  /** The first slot from a given one on, within a round, that belongs to one of the node's keys. */
  method GetBlockSlotData(slot: int, list: seq<string>, keys: set<string>) returns (r: Option<SlotData>)
    ensures r.None? <==> forall s | slot <= s < slot + DELEGATES :: !Mine(list, keys, s)
    ensures r.Some? ==>
              exists s | slot <= s < slot + DELEGATES ::
                && Mine(list, keys, s) && r.value == SlotData(SlotTime(s), Owner(list, s).value)
                && forall earlier | slot <= earlier < s :: !Mine(list, keys, earlier)
  {
    if list == [] {
      return None;
    }
    var currentSlot := slot;
    while currentSlot < slot + DELEGATES
      invariant slot <= currentSlot <= slot + DELEGATES
      invariant forall s | slot <= s < currentSlot :: !Mine(list, keys, s)
    {
      if Mine(list, keys, currentSlot) {
        return Some(SlotData(SlotTime(currentSlot), Owner(list, currentSlot).value));
      }
      currentSlot := currentSlot + 1;
    }
    r := None;
  }

  predicate ValidateBlockSlot(timestamp: int, delegate: string, list: seq<string>) {
    Owner(list, SlotNumber(timestamp)) == Some(delegate)
  }

  /** What the slot search returns, a block's slot validation accepts; and only the slot's owner is accepted. */
  lemma FoundSlotAccepted(slot: int, list: seq<string>, keys: set<string>, s: int, delegate: string)
    requires Mine(list, keys, s)
    ensures ValidateBlockSlot(SlotTime(s), delegate, list) <==> delegate == Owner(list, s).value
  {
    SlotTimes(s, 0);
  }

  /** A node whose keys include one of 101 distinct delegates finds a slot, wherever it starts. */
  lemma SlotFound(slot: nat, list: seq<string>, keys: set<string>, key: string)
    requires |list| == DELEGATES && Distinct(list) && "" !in list && key in list && key in keys
    ensures exists s | slot <= s < slot + DELEGATES :: Mine(list, keys, s)
  {
    OneSlotEach(list, slot, key);
    var s: nat :| slot <= s < slot + DELEGATES && Owner(list, s) == Some(key);
    assert Mine(list, keys, s);
  }

  /******* The order of delegates *******/

  // Votes are decimal strings without leading zeros, so as good as numbers.
  datatype Candidate = Candidate(votes: int, publicKey: string)

  function Compare(left: Candidate, right: Candidate): int {
    if left.votes != right.votes then (if right.votes - left.votes > 0 then 1 else -1)
    else if Greater(right.publicKey, left.publicKey) then 1 else -1
  }

  lemma {:induction false} GreaterTotal(a: string, b: string)
    ensures Greater(a, b) || Greater(b, a) || a == b
    ensures !(Greater(a, b) && Greater(b, a))
  {
    if a == [] || b == [] || a[0] != b[0] {
    } else {
      GreaterTotal(a[1..], b[1..]);
      assert a == [a[0]] + a[1..] && b == [b[0]] + b[1..];
    }
  }

  lemma {:induction false} GreaterTransitive(a: string, b: string, c: string)
    requires Greater(a, b) && Greater(b, c)
    ensures Greater(a, c)
  {
    if b == [] || c == [] || a[0] != b[0] || b[0] != c[0] {
    } else {
      GreaterTransitive(a[1..], b[1..], c[1..]);
    }
  }

  predicate Before(left: Candidate, right: Candidate) {
    Compare(left, right) < 0
  }

  /** On candidates with different keys the comparison is a strict total order. */
  lemma CompareOrders(a: Candidate, b: Candidate, c: Candidate)
    ensures a.publicKey != b.publicKey ==> (Before(a, b) <==> !Before(b, a))
    ensures Before(a, b) && Before(b, c) && a.publicKey != b.publicKey && b.publicKey != c.publicKey ==> Before(a, c)
  {
    GreaterTotal(a.publicKey, b.publicKey);
    GreaterTotal(b.publicKey, c.publicKey);
    GreaterTotal(a.publicKey, c.publicKey);
    if Greater(a.publicKey, b.publicKey) && Greater(b.publicKey, c.publicKey) {
      GreaterTransitive(a.publicKey, b.publicKey, c.publicKey);
    }
  }

  predicate DistinctKeys(s: seq<Candidate>) {
    forall i, j | 0 <= i < j < |s| :: s[i].publicKey != s[j].publicKey
  }

  predicate Ranked(s: seq<Candidate>) {
    forall i, j | 0 <= i < j < |s| :: Before(s[i], s[j])
  }

  /** There is one ranking: sorting the same delegates in any order gives every node the same bookkeeper list. */
  lemma {:induction false} OneRanking(a: seq<Candidate>, b: seq<Candidate>)
    requires Ranked(a) && Ranked(b) && DistinctKeys(a) && DistinctKeys(b) && multiset(a) == multiset(b)
    ensures a == b
  {
    if a == [] {
      assert |multiset(b)| == 0;
    } else {
      assert |multiset(a)| == |multiset(b)|;
      SameFirst(a, b);
      RestSame(a, b);
      OneRanking(a[1..], b[1..]);
      assert a == [a[0]] + a[1..] && b == [b[0]] + b[1..];
    }
  }

  lemma RestSame(a: seq<Candidate>, b: seq<Candidate>)
    requires multiset(a) == multiset(b) && a != [] && b != [] && a[0] == b[0]
    ensures multiset(a[1..]) == multiset(b[1..])
  {
    assert a == [a[0]] + a[1..] && b == [b[0]] + b[1..];
    assert multiset(a[1..]) == multiset(a) - multiset{a[0]};
    assert multiset(b[1..]) == multiset(b) - multiset{b[0]};
  }

  lemma SameFirst(a: seq<Candidate>, b: seq<Candidate>)
    requires Ranked(a) && Ranked(b) && DistinctKeys(a) && DistinctKeys(b) && multiset(a) == multiset(b)
    requires a != [] && b != []
    ensures a[0] == b[0]
  {
    FirstOfRanking(a, b);
    FirstOfRanking(b, a);
    CompareOrders(a[0], b[0], a[0]);
  }

  // The first of one ranking is the first of the other, or comes before it.
  lemma FirstOfRanking(a: seq<Candidate>, b: seq<Candidate>)
    requires Ranked(a) && DistinctKeys(a) && multiset(a) == multiset(b) && a != [] && b != []
    ensures a[0] == b[0] || (Before(a[0], b[0]) && a[0].publicKey != b[0].publicKey)
  {
    assert b[0] in multiset(a);
    var i :| 0 <= i < |a| && a[i] == b[0];
  }
}
