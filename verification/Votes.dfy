/** Collecting votes for a pending block. */
module Votes {
  import opened Rows
  import opened Sequences
  import opened Slots

  datatype Signature = Signature(publicKey: string, signature: string)

  datatype ManyVotes = ManyVotes(height: int, id: string, signatures: seq<Signature>)

  // Whether a signature is one of a vote for a height and block id.
  type Verify = (int, string, Signature) -> bool

  // A pending block with its height and id.
  datatype Pending<B> = Pending(block: B, height: int, id: string)

  datatype Consensus<B> = Consensus(pending: Option<Pending<B>>, votesKeySet: set<string>,
                                    pendingVotes: Option<ManyVotes>)

  function Cleared<B>(): Consensus<B> {
    Consensus(None, {}, None)
  }

  // Replaces the pending block; the votes collected so far stay.
  function SetPendingBlock<B>(c: Consensus<B>, p: Pending<B>): Consensus<B> {
    c.(pending := Some(p))
  }

  // One signature of a message for the pending block: skipped when its key has voted or it does not verify.
  function AddVote<B>(verify: Verify, c: Consensus<B>, height: int, id: string, item: Signature): Consensus<B> {
    if item.publicKey in c.votesKeySet || !verify(height, id, item) then c
    else
      var votes := if c.pendingVotes.Some? then c.pendingVotes.value else ManyVotes(height, id, []);
      Consensus(c.pending, c.votesKeySet + {item.publicKey}, Some(votes.(signatures := votes.signatures + [item])))
  }

  function AddVotes<B>(verify: Verify, c: Consensus<B>, height: int, id: string, items: seq<Signature>): Consensus<B> {
    if items == [] then c
    else AddVote(verify, AddVotes(verify, c, height, id, items[..|items| - 1]), height, id, items[|items| - 1])
  }

  predicate Matches<B>(c: Consensus<B>, votes: ManyVotes) {
    c.pending.Some? && c.pending.value.height == votes.height && c.pending.value.id == votes.id
  }

  function Collected<B>(verify: Verify, c: Consensus<B>, votes: ManyVotes): Consensus<B> {
    if Matches(c, votes) then AddVotes(verify, c, votes.height, votes.id, votes.signatures) else c
  }

  method AddPendingVotes<B>(verify: Verify, previous: Consensus<B>, votes: ManyVotes) returns (c: Consensus<B>)
    ensures c == Collected(verify, previous, votes)
  {
    c := previous;
    if !Matches(c, votes) {
      return;
    }
    var i := 0;
    while i < |votes.signatures|
      invariant 0 <= i <= |votes.signatures|
      invariant c == AddVotes(verify, previous, votes.height, votes.id, votes.signatures[..i])
    {
      var item := votes.signatures[i];
      assert votes.signatures[..i + 1][..i] == votes.signatures[..i];
      if item.publicKey !in c.votesKeySet && verify(votes.height, votes.id, item) {
        c := c.(votesKeySet := c.votesKeySet + {item.publicKey});
        if c.pendingVotes.None? {
          c := c.(pendingVotes := Some(ManyVotes(votes.height, votes.id, [])));
        }
        c := c.(pendingVotes := Some(c.pendingVotes.value.(signatures := c.pendingVotes.value.signatures + [item])));
      }
      i := i + 1;
    }
    assert votes.signatures[..i] == votes.signatures;
  }

  /******* Certificates *******/

  function Signers(items: seq<Signature>): set<string> {
    set i | 0 <= i < |items| :: items[i].publicKey
  }

  // The collected votes are for the pending block, each by another key, and all verify.
  ghost predicate Certified<B>(verify: Verify, c: Consensus<B>) {
    match c.pendingVotes
    case None => c.votesKeySet == {}
    case Some(v) =>
      && c.pending.Some? && v.height == c.pending.value.height && v.id == c.pending.value.id
      && Signers(v.signatures) == c.votesKeySet
      && (forall i, j | 0 <= i < j < |v.signatures| :: v.signatures[i].publicKey != v.signatures[j].publicKey)
      && (forall i | 0 <= i < |v.signatures| :: verify(v.height, v.id, v.signatures[i]))
  }

  lemma AddVoteCertified<B>(verify: Verify, c: Consensus<B>, item: Signature)
    requires Certified(verify, c) && c.pending.Some?
    ensures var c' := AddVote(verify, c, c.pending.value.height, c.pending.value.id, item);
            Certified(verify, c')
            && c'.pending == c.pending
  {
    var height, id := c.pending.value.height, c.pending.value.id;
    var c' := AddVote(verify, c, height, id, item);
    if c' != c {
      var items := if c.pendingVotes.Some? then c.pendingVotes.value.signatures else [];
      assert Signers(items + [item]) == Signers(items) + {item.publicKey} by {
        assert forall i | 0 <= i < |items| :: (items + [item])[i] == items[i];
        assert (items + [item])[|items|] == item;
      }
      forall i | 0 <= i < |items|
        ensures items[i].publicKey in Signers(items)
      {
      }
    }
  }

  lemma {:induction false} AddVotesCertified<B>(verify: Verify, c: Consensus<B>, items: seq<Signature>)
    requires Certified(verify, c) && c.pending.Some?
    ensures var c' := AddVotes(verify, c, c.pending.value.height, c.pending.value.id, items);
            Certified(verify, c')
            && c'.pending == c.pending
  {
    if items == [] {
    } else {
      AddVotesCertified(verify, c, items[..|items| - 1]);
      AddVoteCertified(verify, AddVotes(verify, c, c.pending.value.height, c.pending.value.id, items[..|items| - 1]),
                       items[|items| - 1]);
    }
  }

  // All messages in order.
  function CollectAll<B>(verify: Verify, c: Consensus<B>, messages: seq<ManyVotes>): Consensus<B> {
    if messages == [] then c
    else Collected(verify, CollectAll(verify, c, messages[..|messages| - 1]), messages[|messages| - 1])
  }

  /** After any messages the signers are distinct, are the key set, and all votes verify for the pending block. */
  lemma {:induction false} CollectAllCertified<B>(verify: Verify, c: Consensus<B>, messages: seq<ManyVotes>)
    requires Certified(verify, c)
    ensures Certified(verify, CollectAll(verify, c, messages)) && CollectAll(verify, c, messages).pending == c.pending
  {
    if messages == [] {
    } else {
      var n := |messages| - 1;
      CollectAllCertified(verify, c, messages[..n]);
      if Matches(c, messages[n]) {
        AddVotesCertified(verify, CollectAll(verify, c, messages[..n]), messages[n].signatures);
      }
    }
  }

  // The keys of the signatures in the messages for a height and id that verify.
  function ValidKeys(verify: Verify, height: int, id: string, messages: multiset<ManyVotes>): set<string> {
    set m, i | m in messages && m.height == height && m.id == id && 0 <= i < |m.signatures|
        && verify(height, id, m.signatures[i])
      :: m.signatures[i].publicKey
  }

  lemma {:induction false} AddVotesKeys<B>(verify: Verify, c: Consensus<B>, height: int, id: string,
                                           items: seq<Signature>, key: string)
    ensures key in AddVotes(verify, c, height, id, items).votesKeySet
            <==> key in c.votesKeySet || exists i | 0 <= i < |items| ::
                  items[i].publicKey == key && verify(height, id, items[i])
  {
    if items == [] {
    } else {
      var n := |items| - 1;
      AddVotesKeys(verify, c, height, id, items[..n], key);
      if exists i | 0 <= i < |items| :: items[i].publicKey == key && verify(height, id, items[i]) {
        var i :| 0 <= i < |items| && items[i].publicKey == key && verify(height, id, items[i]);
        assert i < n ==> items[..n][i] == items[i];
      }
      if exists i | 0 <= i < n :: items[..n][i].publicKey == key && verify(height, id, items[..n][i]) {
        var i :| 0 <= i < n && items[..n][i].publicKey == key && verify(height, id, items[..n][i]);
        assert items[i] == items[..n][i];
      }
    }
  }

  /** Who is counted does not depend on the order of the messages. */
  lemma {:induction false} CollectAllKeys<B>(verify: Verify, c: Consensus<B>, messages: seq<ManyVotes>, key: string)
    requires c.pending.Some?
    ensures CollectAll(verify, c, messages).pending == c.pending
    ensures key in CollectAll(verify, c, messages).votesKeySet
            <==> key in c.votesKeySet || key in ValidKeys(verify, c.pending.value.height, c.pending.value.id,
                                                          multiset(messages))
  {
    var height, id := c.pending.value.height, c.pending.value.id;
    if messages == [] {
    } else {
      var n := |messages| - 1;
      var last := messages[n];
      CollectAllKeys(verify, c, messages[..n], key);
      assert messages == messages[..n] + [last];
      var before := CollectAll(verify, c, messages[..n]);
      PendingKept(verify, before, height, id, last.signatures);
      AddVotesKeys(verify, before, height, id, last.signatures, key);
      ValidKeysSnoc(verify, height, id, messages[..n], last, key);
    }
  }

  /** The same messages in another order count the same keys, and from a cleared state both are certificates. */
  lemma OrderIrrelevant<B>(verify: Verify, p: Pending<B>, a: seq<ManyVotes>, b: seq<ManyVotes>)
    requires multiset(a) == multiset(b)
    ensures var c := SetPendingBlock(Cleared(), p);
            && CollectAll(verify, c, a).votesKeySet == CollectAll(verify, c, b).votesKeySet
            && Certified(verify, CollectAll(verify, c, a)) && Certified(verify, CollectAll(verify, c, b))
            && (HasEnoughVotes(CollectAll(verify, c, a).pendingVotes) <==>
                HasEnoughVotes(CollectAll(verify, c, b).pendingVotes))
  {
    var c := SetPendingBlock(Cleared(), p);
    forall key
      ensures key in CollectAll(verify, c, a).votesKeySet <==> key in CollectAll(verify, c, b).votesKeySet
    {
      CollectAllKeys(verify, c, a, key);
      CollectAllKeys(verify, c, b, key);
    }
    CollectAllCertified(verify, c, a);
    CollectAllCertified(verify, c, b);
    EnoughVotes(verify, CollectAll(verify, c, a));
    EnoughVotes(verify, CollectAll(verify, c, b));
  }

  lemma {:induction false} PendingKept<B>(verify: Verify, c: Consensus<B>, height: int, id: string,
                                          items: seq<Signature>)
    ensures AddVotes(verify, c, height, id, items).pending == c.pending
  {
    if items == [] {
    } else {
      PendingKept(verify, c, height, id, items[..|items| - 1]);
    }
  }

  lemma ValidKeysSnoc(verify: Verify, height: int, id: string, messages: seq<ManyVotes>, last: ManyVotes, key: string)
    ensures key in ValidKeys(verify, height, id, multiset(messages + [last]))
            <==> key in ValidKeys(verify, height, id, multiset(messages))
                 || (last.height == height && last.id == id
                     && exists i | 0 <= i < |last.signatures| ::
                           last.signatures[i].publicKey == key && verify(height, id, last.signatures[i]))
  {
    assert forall m :: m in multiset(messages + [last]) <==> m in multiset(messages) || m == last;
  }

  /** Replacing the pending block keeps the old votes: what is collected is a certificate of the new one exactly when
      there are no votes yet, or height and id are the same. */
  lemma SetPendingCertified<B>(verify: Verify, c: Consensus<B>, p: Pending<B>)
    requires Certified(verify, c)
    ensures Certified(verify, SetPendingBlock(c, p))
            <==> c.pendingVotes.None? || (p.height == c.pending.value.height && p.id == c.pending.value.id)
  {
  }

  /******* Quorums *******/

  // More than two thirds of the delegates, written without the fraction.
  predicate HasEnoughVotes(votes: Option<ManyVotes>) {
    votes.Some? && 3 * |votes.value.signatures| > 2 * DELEGATES
  }

  predicate HasEnoughVotesRemote(votes: Option<ManyVotes>) {
    votes.Some? && |votes.value.signatures| >= 6
  }

  lemma {:induction false} SignersCount(items: seq<Signature>)
    requires forall i, j | 0 <= i < j < |items| :: items[i].publicKey != items[j].publicKey
    ensures |Signers(items)| == |items|
  {
    if items == [] {
    } else {
      var n := |items| - 1;
      SignersCount(items[..n]);
      assert Signers(items) == Signers(items[..n]) + {items[n].publicKey} by {
        assert forall i | 0 <= i < n :: items[..n][i] == items[i];
      }
      assert items[n].publicKey !in Signers(items[..n]);
    }
  }

  /** Enough votes are at least 68 different keys, and no fewer suffice. */
  lemma EnoughVotes<B>(verify: Verify, c: Consensus<B>)
    requires Certified(verify, c)
    ensures HasEnoughVotes(c.pendingVotes) <==> |c.votesKeySet| >= 68
  {
    if c.pendingVotes.Some? {
      SignersCount(c.pendingVotes.value.signatures);
    }
  }

  /** One message with enough different valid votes for the pending block is enough. */
  lemma EnoughAtOnce<B>(verify: Verify, c: Consensus<B>, votes: ManyVotes)
    requires Certified(verify, c) && Matches(c, votes) && HasEnoughVotes(Some(votes))
    requires forall i, j | 0 <= i < j < |votes.signatures| ::
               votes.signatures[i].publicKey != votes.signatures[j].publicKey
    requires forall i | 0 <= i < |votes.signatures| :: verify(votes.height, votes.id, votes.signatures[i])
    ensures HasEnoughVotes(Collected(verify, c, votes).pendingVotes)
  {
    var c' := Collected(verify, c, votes);
    AddVotesCertified(verify, c, votes.signatures);
    forall i | 0 <= i < |votes.signatures|
      ensures votes.signatures[i].publicKey in c'.votesKeySet
    {
      AddVotesKeys(verify, c, votes.height, votes.id, votes.signatures, votes.signatures[i].publicKey);
    }
    SignersCount(votes.signatures);
    assert Signers(votes.signatures) <= c'.votesKeySet;
    SubsetSize(Signers(votes.signatures), c'.votesKeySet);
    EnoughVotes(verify, c');
  }

  /** Two certificates of keys among 101 delegates share at least 35 signers. */
  lemma QuorumsMeet<B>(verify: Verify, a: Consensus<B>, b: Consensus<B>, delegates: set<string>)
    requires Certified(verify, a) && Certified(verify, b) && HasEnoughVotes(a.pendingVotes)
             && HasEnoughVotes(b.pendingVotes)
    requires |delegates| == DELEGATES && a.votesKeySet <= delegates && b.votesKeySet <= delegates
    ensures |a.votesKeySet * b.votesKeySet| >= 35
  {
    EnoughVotes(verify, a);
    EnoughVotes(verify, b);
    SubsetSize(a.votesKeySet + b.votesKeySet, delegates);
    assert |a.votesKeySet + b.votesKeySet| == |a.votesKeySet| + |b.votesKeySet| - |a.votesKeySet * b.votesKeySet|;
  }

  lemma SubsetSize(a: set<string>, b: set<string>)
    requires a <= b
    ensures |a| <= |b|
  {
    assert b == a + (b - a);
  }

  /******* A node's own votes *******/

  function LocalVotes(sign: (string, int, string) -> string, keys: seq<string>, height: int, id: string): ManyVotes {
    ManyVotes(height, id, seq(|keys|, i requires 0 <= i < |keys| => Signature(keys[i], sign(keys[i], height, id))))
  }

  /** The votes a node makes for a block itself, one for each of its keys. */
  method CreateVotes(sign: (string, int, string) -> string, keys: seq<string>, height: int, id: string)
    returns (votes: ManyVotes)
    ensures votes == LocalVotes(sign, keys, height, id)
  {
    var signatures: seq<Signature> := [];
    var i := 0;
    while i < |keys|
      invariant 0 <= i <= |keys| && signatures == LocalVotes(sign, keys[..i], height, id).signatures
    {
      signatures := signatures + [Signature(keys[i], sign(keys[i], height, id))];
      i := i + 1;
    }
    assert keys[..i] == keys;
    votes := ManyVotes(height, id, signatures);
  }

  /******* Whose keys are counted *******/

  // From a cleared state the counted keys are those of the valid votes.
  lemma FromCleared<B>(verify: Verify, p: Pending<B>, messages: seq<ManyVotes>)
    ensures CollectAll(verify, SetPendingBlock(Cleared(), p), messages).votesKeySet
            == ValidKeys(verify, p.height, p.id, multiset(messages))
  {
    var c := SetPendingBlock(Cleared(), p);
    forall key
      ensures key in CollectAll(verify, c, messages).votesKeySet
              <==> key in ValidKeys(verify, p.height, p.id, multiset(messages))
    {
      CollectAllKeys(verify, c, messages, key);
    }
  }

  /** Nothing asks whether a signer is a delegate. Only delegates are counted exactly when only delegates were counted
      before and every valid vote for the pending block is a delegate's. */
  lemma DelegatesOnly<B>(verify: Verify, c: Consensus<B>, messages: seq<ManyVotes>, delegates: set<string>)
    requires c.pending.Some?
    ensures CollectAll(verify, c, messages).votesKeySet <= delegates
            <==> c.votesKeySet <= delegates
                 && ValidKeys(verify, c.pending.value.height, c.pending.value.id, multiset(messages)) <= delegates
  {
    var valid := ValidKeys(verify, c.pending.value.height, c.pending.value.id, multiset(messages));
    var counted := CollectAll(verify, c, messages).votesKeySet;
    forall key
      ensures key in counted <==> key in c.votesKeySet || key in valid
    {
      CollectAllKeys(verify, c, messages, key);
    }
    assert counted == c.votesKeySet + valid;
  }

  /** When two quorums form, from messages with valid votes of 101 delegates only, at least 35 delegates voted in both:
      for two blocks of one height these signed both. */
  lemma BothSigned<B>(verify: Verify, p: Pending<B>, q: Pending<B>, a: seq<ManyVotes>, b: seq<ManyVotes>,
                      delegates: set<string>)
    requires |delegates| == DELEGATES
    requires ValidKeys(verify, p.height, p.id, multiset(a))
             + ValidKeys(verify, q.height, q.id, multiset(b)) <= delegates
    requires HasEnoughVotes(CollectAll(verify, SetPendingBlock(Cleared(), p), a).pendingVotes)
             && HasEnoughVotes(CollectAll(verify, SetPendingBlock(Cleared(), q), b).pendingVotes)
    ensures |ValidKeys(verify, p.height, p.id, multiset(a)) * ValidKeys(verify, q.height, q.id, multiset(b))| >= 35
  {
    var c, d := SetPendingBlock(Cleared(), p), SetPendingBlock(Cleared(), q);
    CollectAllCertified(verify, c, a);
    CollectAllCertified(verify, d, b);
    FromCleared(verify, p, a);
    FromCleared(verify, q, b);
    QuorumsMeet(verify, CollectAll(verify, c, a), CollectAll(verify, d, b), delegates);
  }

  // Signatures verify for what was signed.
  ghost predicate Honest(verify: Verify, sign: (string, int, string) -> string) {
    forall key, height, id :: verify(height, id, Signature(key, sign(key, height, id)))
  }

  /** Any 68 different keys make a quorum, whoever the delegates are, and are the keys that are counted. */
  lemma AnyKeysSuffice<B>(verify: Verify, sign: (string, int, string) -> string, p: Pending<B>, keys: seq<string>)
    requires Honest(verify, sign) && Distinct(keys) && |keys| >= 68
    ensures var c := Collected(verify, SetPendingBlock(Cleared(), p), LocalVotes(sign, keys, p.height, p.id));
            HasEnoughVotes(c.pendingVotes)
            && forall k :: k in c.votesKeySet <==> k in keys
  {
    var votes := LocalVotes(sign, keys, p.height, p.id);
    var c := SetPendingBlock(Cleared(), p);
    assert forall i | 0 <= i < |keys| :: votes.signatures[i].publicKey == keys[i];
    EnoughAtOnce(verify, c, votes);
    forall k
      ensures k in Collected(verify, c, votes).votesKeySet <==> k in keys
    {
      AddVotesKeys(verify, c, p.height, p.id, votes.signatures, k);
      assert forall i | 0 <= i < |keys| && keys[i] == k :: verify(p.height, p.id, votes.signatures[i]);
    }
  }

  // 68 names, of as many different lengths from the given one on.
  function LongNames(from: nat): seq<string> {
    seq(68, i requires 0 <= i < 68 => seq(from + i, _ => 'f'))
  }

  /** Without the delegates two quorums need not meet: strangers' names, longer than every delegate's, make quorums for
      any two blocks, without a delegate in either and without a common signer. */
  lemma StrangersQuorums<B>(verify: Verify, sign: (string, int, string) -> string, p: Pending<B>, q: Pending<B>,
                            delegates: set<string>, from: nat)
    requires Honest(verify, sign) && forall d | d in delegates :: |d| < from
    ensures var c := Collected(verify, SetPendingBlock(Cleared(), p),
                               LocalVotes(sign, LongNames(from), p.height, p.id));
            var d := Collected(verify, SetPendingBlock(Cleared(), q),
                               LocalVotes(sign, LongNames(from + 68), q.height, q.id));
            HasEnoughVotes(c.pendingVotes)
            && HasEnoughVotes(d.pendingVotes) && c.votesKeySet + d.votesKeySet !! delegates
            && c.votesKeySet !! d.votesKeySet
  {
    LongNamesDiffer(from);
    LongNamesDiffer(from + 68);
    AnyKeysSuffice(verify, sign, p, LongNames(from));
    AnyKeysSuffice(verify, sign, q, LongNames(from + 68));
  }

  lemma LongNamesDiffer(from: nat)
    ensures Distinct(LongNames(from))
    ensures forall k | k in LongNames(from) :: from <= |k| < from + 68
  {
    var names := LongNames(from);
    assert forall i | 0 <= i < 68 :: |names[i]| == from + i;
  }
}
