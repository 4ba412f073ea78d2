/** A bounded cache that forgets the oldest keys first, as the cache of failed transactions does. */
module LimitCaches {
  import opened Sequences

  // The keys held after storing another one: nothing for a key that is held; else the oldest makes room.
  function Stored<K(==)>(index: seq<K>, limit: nat, key: K): seq<K> {
    if key in index then index
    else if |index| >= limit && index != [] then index[1..] + [key]
    else index + [key]
  }

  lemma StoredHeld<K>(index: seq<K>, limit: nat, key: K)
    ensures key in Stored(index, limit, key)
  {
  }

  // The keys held after a run.
  function Held<K(==)>(limit: nat, run: seq<K>): seq<K> {
    if run == [] then [] else Stored(Held(limit, run[..|run| - 1]), limit, run[|run| - 1])
  }

  // The insertions of a run: the keys that were not held when they were stored.
  function Insertions<K(==)>(limit: nat, run: seq<K>): seq<K> {
    if run == [] then []
    else
      var before := run[..|run| - 1];
      var key := run[|run| - 1];
      if key in Held(limit, before) then Insertions(limit, before) else Insertions(limit, before) + [key]
  }

  // At least one key is held even when the limit is 0.
  function Room(limit: nat): nat {
    if limit == 0 then 1 else limit
  }

  function Last<K>(s: seq<K>, n: nat): seq<K> {
    if |s| <= n then s else s[|s| - n..]
  }

  /** After any run the cache holds exactly the last insertions, as many as there is room for, oldest first, without
      repeats. */
  lemma {:induction false} HoldsLastInsertions<K>(limit: nat, run: seq<K>)
    ensures Held(limit, run) == Last(Insertions(limit, run), Room(limit))
    ensures Distinct(Held(limit, run)) && |Held(limit, run)| <= Room(limit)
  {
    if run == [] {
    } else {
      var before, key := run[..|run| - 1], run[|run| - 1];
      HoldsLastInsertions(limit, before);
      StoreStep(limit, Insertions(limit, before), Held(limit, before), key);
    }
  }

  lemma StoreStep<K>(limit: nat, insertions: seq<K>, held: seq<K>, key: K)
    requires held == Last(insertions, Room(limit)) && Distinct(held)
    ensures var held' := Stored(held, limit, key);
            && held' == Last(if key in held then insertions else insertions + [key], Room(limit))
            && Distinct(held') && |held'| <= Room(limit)
  {
    LastSnoc(insertions, Room(limit), key);
  }

  lemma LastSnoc<K>(s: seq<K>, n: nat, key: K)
    requires n >= 1
    ensures Last(s + [key], n) == if |s| >= n then Last(s, n)[1..] + [key] else s + [key]
  {
  }

  class LimitCache<K(==), V(==)> {
    var cache: map<K, V>
    var index: seq<K>
    const limit: nat

    ghost predicate Valid()
      reads this
    {
      && Distinct(index) && |index| <= Room(limit)
      && (forall k | k in cache :: k in index) && (forall k | k in index :: k in cache)
      && |cache| == |index|
    }

    constructor (limit: nat)
      ensures Valid() && index == [] && this.limit == limit
    {
      this.limit := limit;
      cache, index := map[], [];
    }

    /** Stores a key. Storing a held key with another value lists it twice; otherwise the index stays in step. */
    method Set(key: K, value: V)
      requires Valid()
      modifies this
      ensures Valid() <==> !(key in old(cache) && old(cache)[key] != value)
      ensures Valid() ==> index == Stored(old(index), limit, key)
      ensures key in cache && cache[key] == value
      ensures forall k | k in cache && k != key :: k in old(cache) && cache[k] == old(cache)[k]
    {
      if key in cache && cache[key] == value {
        return;
      }
      if |cache| >= limit && key !in cache {
        DropOldest();
      }
      Push(key, value);
    }

    method DropOldest()
      requires Valid()
      modifies this
      ensures Valid() && index == if old(index) == [] then [] else old(index)[1..]
      ensures forall k | k in cache :: k in old(cache) && cache[k] == old(cache)[k]
    {
      if index != [] {
        ghost var keys := index;
        var dropKey := index[0];
        index := index[1..];
        cache := cache - {dropKey};
        assert keys == [dropKey] + index;
      }
    }

    method Push(key: K, value: V)
      requires Valid() && (key !in cache ==> |index| < Room(limit))
      modifies this
      ensures Valid() <==> key !in old(cache)
      ensures cache == old(cache)[key := value] && index == old(index) + [key]
    {
      ghost var held, keys := cache, index;
      cache := cache[key := value];
      index := index + [key];
      if key in held {
        var i :| 0 <= i < |keys| && keys[i] == key;
        assert index[i] == index[|index| - 1];
      }
    }

    predicate Has(key: K)
      reads this
    {
      key in cache
    }
  }

  /** Failed transactions are only ever stored with one value, so the cache is the run's held keys. */
  method StoreFailed<K(==)>(c: LimitCache<K, bool>, ghost run: seq<K>, key: K)
    requires c.Valid() && c.index == Held(c.limit, run) && forall k | k in c.cache :: c.cache[k]
    modifies c
    ensures c.Valid() && c.index == Held(c.limit, run + [key]) && forall k | k in c.cache :: c.cache[k]
  {
    assert (run + [key])[..|run|] == run;
    c.Set(key, true);
  }
}
