/** The pool of unconfirmed transactions: an array with holes and an index into it. */
module TransactionPools {
  import opened Rows

  // The entries that are no holes, in order.
  function Live<T>(s: seq<Option<T>>): seq<T> {
    if s == [] then []
    else Live(s[..|s| - 1]) + (if s[|s| - 1].Some? then [s[|s| - 1].value] else [])
  }

  lemma LiveSnoc<T>(s: seq<Option<T>>, x: Option<T>)
    ensures Live(s + [x]) == Live(s) + (if x.Some? then [x.value] else [])
  {
    assert (s + [x])[..|s|] == s;
  }

  lemma {:induction false} LiveMember<T>(s: seq<Option<T>>, t: T)
    ensures t in Live(s) <==> Some(t) in s
  {
    if s == [] {
    } else {
      LiveMember(s[..|s| - 1], t);
      assert s == s[..|s| - 1] + [s[|s| - 1]];
    }
  }

  function Without<T>(ts: seq<T>, idOf: T -> string, id: string): seq<T> {
    if ts == [] then []
    else Without(ts[..|ts| - 1], idOf, id) + (if idOf(ts[|ts| - 1]) == id then [] else [ts[|ts| - 1]])
  }

  // Making a hole where the only entry with an id is removes just that entry.
  lemma {:induction false} LiveHole<T>(s: seq<Option<T>>, idOf: T -> string, id: string, pos: nat)
    requires pos < |s| && s[pos].Some? && idOf(s[pos].value) == id
    requires forall i | 0 <= i < |s| && i != pos && s[i].Some? :: idOf(s[i].value) != id
    ensures Live(s[pos := None]) == Without(Live(s), idOf, id)
  {
    var n := |s| - 1;
    var init := s[..n];
    if pos == n {
      assert s[pos := None] == init + [None];
      LiveSnoc(init, None);
      NothingWithout(init, idOf, id);
      assert Live(s)[..|Live(s)| - 1] == Live(init);
    } else {
      LiveHole(init, idOf, id, pos);
      assert s[pos := None] == init[pos := None] + [s[n]];
      LiveSnoc(init[pos := None], s[n]);
      if s[n].Some? {
        assert Live(s)[..|Live(s)| - 1] == Live(init);
      } else {
        assert Live(s) == Live(init);
      }
    }
  }

  lemma {:induction false} NothingWithout<T>(s: seq<Option<T>>, idOf: T -> string, id: string)
    requires forall i | 0 <= i < |s| && s[i].Some? :: idOf(s[i].value) != id
    ensures Without(Live(s), idOf, id) == Live(s)
  {
    if s == [] {
    } else {
      var n := |s| - 1;
      NothingWithout(s[..n], idOf, id);
      if s[n].Some? {
        assert Live(s)[..|Live(s)| - 1] == Live(s[..n]);
      } else {
        assert Live(s) == Live(s[..n]);
      }
    }
  }

  class TransactionPool<T(==)> {
    var index: map<string, nat>
    var unConfirmed: seq<Option<T>>
    const idOf: T -> string

    // The index has exactly the positions of the entries, whose ids are distinct.
    ghost predicate Valid()
      reads this
    {
      && (forall id | id in index ::
          index[id] < |unConfirmed| && unConfirmed[index[id]].Some? && idOf(unConfirmed[index[id]].value) == id)
      && (forall i | 0 <= i < |unConfirmed| && unConfirmed[i].Some? ::
            idOf(unConfirmed[i].value) in index && index[idOf(unConfirmed[i].value)] == i)
    }

    ghost function Contents(): seq<T>
      reads this
    {
      Live(unConfirmed)
    }

    constructor (idOf: T -> string)
      ensures Valid() && Contents() == [] && this.idOf == idOf
    {
      this.idOf := idOf;
      index, unConfirmed := map[], [];
    }

    /** Adds a transaction at the end; the index stays exact just when the id is new. */
    method Add(trs: T)
      requires Valid()
      modifies this`index, this`unConfirmed
      ensures Contents() == old(Contents()) + [trs]
      ensures Valid() <==> idOf(trs) !in old(index)
    {
      LiveSnoc(unConfirmed, Some(trs));
      ghost var taken := if idOf(trs) in index then index[idOf(trs)] else 0;
      ghost var entries := unConfirmed;
      assert idOf(trs) in index ==>
               taken < |entries| && entries[taken].Some? && idOf(entries[taken].value) == idOf(trs);
      unConfirmed := unConfirmed + [Some(trs)];
      index := index[idOf(trs) := |unConfirmed| - 1];
      assert idOf(trs) in old(index) ==> unConfirmed[taken] == entries[taken];
    }

    method Remove(id: string)
      requires Valid()
      modifies this`index, this`unConfirmed
      ensures Valid() && Contents() == Without(old(Contents()), idOf, id)
    {
      if id in index {
        LiveHole(unConfirmed, idOf, id, index[id]);
        var pos := index[id];
        index := index - {id};
        unConfirmed := unConfirmed[pos := None];
      } else {
        NothingWithout(unConfirmed, idOf, id);
      }
    }

    function Get(id: string): (r: Option<T>)
      requires Valid()
      reads this
      ensures r.Some? <==> exists t | t in Contents() :: idOf(t) == id
      ensures r.Some? ==> r.value in Contents() && idOf(r.value) == id
    {
      FindLemma(id);
      if id in index then unConfirmed[index[id]] else None
    }

    predicate Has(id: string)
      requires Valid()
      reads this
      ensures Has(id) <==> exists t | t in Contents() :: idOf(t) == id
    {
      FindLemma(id);
      id in index && unConfirmed[index[id]].Some?
    }

    lemma FindLemma(id: string)
      requires Valid()
      ensures id in index <==> exists t | t in Contents() :: idOf(t) == id
      ensures id in index ==> unConfirmed[index[id]].value in Contents()
    {
      if id in index {
        LiveMember(unConfirmed, unConfirmed[index[id]].value);
      }
      if exists t | t in Contents() :: idOf(t) == id {
        var t :| t in Contents() && idOf(t) == id;
        LiveMember(unConfirmed, t);
      }
    }

    /** All transactions in the order they came in, holes skipped. */
    method GetUnconfirmed() returns (a: seq<T>)
      ensures a == Contents()
    {
      a := [];
      var i := 0;
      while i < |unConfirmed|
        invariant 0 <= i <= |unConfirmed| && a == Live(unConfirmed[..i])
      {
        LiveSnoc(unConfirmed[..i], unConfirmed[i]);
        assert unConfirmed[..i + 1] == unConfirmed[..i] + [unConfirmed[i]];
        if unConfirmed[i].Some? {
          a := a + [unConfirmed[i].value];
        }
        i := i + 1;
      }
      assert unConfirmed[..i] == unConfirmed;
    }

    method Clear()
      modifies this`index, this`unConfirmed
      ensures Valid() && Contents() == []
    {
      index, unConfirmed := map[], [];
    }
  }
}
