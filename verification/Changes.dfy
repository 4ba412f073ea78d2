/** Entity changes and the SQL built from them, as functions on tables.

A change is what `BasicEntityTracker` pushes on its stacks. `Apply` and `Revert`
are its meaning on a table, `Exec` the meaning of one SQL statement. */
module Changes {
  import opened Rows

  datatype Delta = Delta(original: Option<Value>, current: Option<Value>)

  datatype Kind = New | Modify | Delete

  datatype Change = Change(kind: Kind, dbVersion: int, key: Key, props: map<string, Delta>)

  /******* Building changes *******/

  function CreateChange(s: Schema, key: Key, obj: Row): Change {
    Change(New, 1, key, map p | p in obj && p in s.columns :: Delta(None, Some(obj[p])))
  }

  function ModifyChange(key: Key, obj: Row, values: Values, dbVersion: int): Change {
    Change(Modify, dbVersion, key,
           (map p | p in values :: Delta(Read(obj, p), values[p]))
             [VERSION := Delta(Some(Num(dbVersion - 1)), Some(Num(dbVersion)))])
  }

  function DeleteChange(s: Schema, key: Key, obj: Row, dbVersion: int): Change {
    Change(Delete, dbVersion, key, map p | p in obj && p in s.columns :: Delta(Some(obj[p]), None))
  }

  function Currents(c: Change): Values {
    map p | p in c.props :: c.props[p].current
  }

  function Originals(c: Change): Values {
    map p | p in c.props :: c.props[p].original
  }

  function ObjectOf(vs: Values): Row {
    Overwrite(map[], vs)
  }

  /******* The meaning of a change on tables *******/

  ghost predicate VersionIs(r: Row, v: int) {
    Read(r, VERSION) == Some(Num(v))
  }

  // The change can be applied: its key exists or not as its kind needs, and its originals are the stored ones.
  ghost predicate Fits(t: Tables, c: Change) {
    && VERSION in c.props
    && match c.kind
       case New =>
         && c.key !in t
         && c.dbVersion == 1 && c.props[VERSION].current == Some(Num(1))
       case Modify =>
         && c.key in t
         && c.props[VERSION] == Delta(Some(Num(c.dbVersion - 1)), Some(Num(c.dbVersion)))
         && forall p | p in c.props :: c.props[p].original == Read(t[c.key], p)
       case Delete =>
         && c.key in t
         && VersionIs(t[c.key], c.dbVersion)
         && ObjectOf(Originals(c)) == t[c.key]
  }

  function Apply(t: Tables, c: Change): Tables {
    match c.kind
    case New => t[c.key := ObjectOf(Currents(c))]
    case Modify => if c.key in t then t[c.key := Overwrite(t[c.key], Currents(c))] else t
    case Delete => t - {c.key}
  }

  function Revert(t: Tables, c: Change): Tables {
    match c.kind
    case New => t - {c.key}
    case Modify => if c.key in t then t[c.key := Overwrite(t[c.key], Originals(c))] else t
    case Delete => t[c.key := ObjectOf(Originals(c))]
  }

  lemma RevertApply(t: Tables, c: Change)
    requires Fits(t, c)
    ensures Revert(Apply(t, c), c) == t
  {
    if c.kind.Modify? {
      var r := t[c.key];
      assert Overwrite(Overwrite(r, Currents(c)), Originals(c)) == r;
    }
  }

  /******* Statements *******/

  datatype Stmt =
    | Insert(key: Key, row: Row)
    | Update(key: Key, version: int, values: Values)
    | Remove(key: Key)

  /** Runs one statement; None is an error raised by the database. */
  function Exec(t: Tables, s: Stmt): Option<Tables> {
    match s
    case Insert(k, r) => if k in t then None else Some(t[k := r])
    case Update(k, v, vs) =>
      if k in t && Read(t[k], VERSION) == Some(Num(v)) then Some(t[k := Overwrite(t[k], vs)]) else Some(t)
    case Remove(k) => Some(t - {k})
  }

  // The rows a statement reaches.
  function Hits(t: Tables, s: Stmt): nat {
    match s
    case Insert(k, _) => if k in t then 0 else 1
    case Update(k, v, _) => if k in t && Read(t[k], VERSION) == Some(Num(v)) then 1 else 0
    case Remove(k) => if k in t then 1 else 0
  }

  function ForwardSql(c: Change): Stmt {
    var values := Currents(c)[VERSION := Some(Num(c.dbVersion))];
    match c.kind
    case New => Insert(c.key, ObjectOf(values))
    case Modify => Update(c.key, c.dbVersion - 1, values)
    case Delete => Remove(c.key)
  }

  function InverseSql(c: Change): Stmt {
    match c.kind
    case New => Remove(c.key)
    case Modify => Update(c.key, c.dbVersion, Originals(c)[VERSION := Some(Num(c.dbVersion - 1))])
    case Delete => Insert(c.key, ObjectOf(Originals(c)))
  }

  lemma ForwardExact(t: Tables, c: Change)
    requires Fits(t, c)
    ensures Exec(t, ForwardSql(c)) == Some(Apply(t, c))
    ensures Hits(t, ForwardSql(c)) == 1
  {
    if !c.kind.Delete? {
      assert Currents(c)[VERSION := Some(Num(c.dbVersion))] == Currents(c);
    }
  }

  lemma InverseExact(t: Tables, c: Change)
    requires Fits(t, c)
    ensures Exec(Apply(t, c), InverseSql(c)) == Some(t)
    ensures Hits(Apply(t, c), InverseSql(c)) == 1
  {
    RevertApply(t, c);
    if c.kind.Modify? {
      assert Originals(c)[VERSION := Some(Num(c.dbVersion - 1))] == Originals(c);
      OverwriteRead(t[c.key], Currents(c), VERSION);
    }
  }

  /******* Stacks of changes *******/

  function Run(t: Tables, cs: seq<Change>): Tables {
    if cs == [] then t else Apply(Run(t, cs[..|cs| - 1]), cs[|cs| - 1])
  }

  ghost predicate FitsAll(t: Tables, cs: seq<Change>) {
    cs == [] || (FitsAll(t, cs[..|cs| - 1]) && Fits(Run(t, cs[..|cs| - 1]), cs[|cs| - 1]))
  }

  lemma {:induction false} RunAppend(t: Tables, a: seq<Change>, b: seq<Change>)
    ensures Run(t, a + b) == Run(Run(t, a), b)
    ensures FitsAll(t, a + b) <==> FitsAll(t, a) && FitsAll(Run(t, a), b)
    decreases |b|
  {
    if b == [] {
      assert a + b == a;
    } else {
      RunAppend(t, a, b[..|b| - 1]);
      assert (a + b)[..|a + b| - 1] == a + b[..|b| - 1];
    }
  }

  /** Runs statements in order within one database transaction. */
  function ExecAll(t: Tables, ss: seq<Stmt>): Option<Tables>
    decreases |ss|
  {
    if ss == [] then Some(t)
    else match Exec(t, ss[0])
      case None => None
      case Some(t') => ExecAll(t', ss[1..])
  }

  // Every statement reaches exactly one row.
  ghost predicate EachHitsOne(t: Tables, ss: seq<Stmt>)
    decreases |ss|
  {
    ss == [] || (Hits(t, ss[0]) == 1 && Exec(t, ss[0]).Some? && EachHitsOne(Exec(t, ss[0]).value, ss[1..]))
  }

  lemma {:induction false} ExecAllAppend(t: Tables, a: seq<Stmt>, s: Stmt)
    requires ExecAll(t, a).Some?
    ensures ExecAll(t, a + [s]) == Exec(ExecAll(t, a).value, s)
    ensures EachHitsOne(t, a) && Hits(ExecAll(t, a).value, s) == 1 && Exec(ExecAll(t, a).value, s).Some?
            ==> EachHitsOne(t, a + [s])
    decreases |a|
  {
    if a == [] {
      assert a + [s] == [s];
    } else {
      ExecAllAppend(Exec(t, a[0]).value, a[1..], s);
      assert (a + [s])[1..] == a[1..] + [s];
    }
  }

  function ForwardSqls(cs: seq<Change>): seq<Stmt> {
    seq(|cs|, i requires 0 <= i < |cs| => ForwardSql(cs[i]))
  }

  function InverseSqls(cs: seq<Change>): seq<Stmt> {
    seq(|cs|, i requires 0 <= i < |cs| => InverseSql(cs[|cs| - 1 - i]))
  }

  /** Pops the changes one by one, newest first. */
  method BuildRollbackSqls(changes: seq<Change>) returns (result: seq<Stmt>)
    ensures result == InverseSqls(changes)
  {
    result := [];
    var left := changes;
    while left != []
      invariant result + InverseSqls(left) == InverseSqls(changes)
      decreases |left|
    {
      var one := left[|left| - 1];
      assert InverseSqls(left) == [InverseSql(one)] + InverseSqls(left[..|left| - 1]);
      left := left[..|left| - 1];
      result := result + [InverseSql(one)];
    }
  }

  /** The statements of a commit turn the tables into the view, each hitting one row. */
  lemma {:induction false} CommitExact(t: Tables, cs: seq<Change>)
    requires FitsAll(t, cs)
    ensures ExecAll(t, ForwardSqls(cs)) == Some(Run(t, cs))
    ensures EachHitsOne(t, ForwardSqls(cs))
  {
    if cs == [] {
    } else {
      var n := |cs| - 1;
      CommitExact(t, cs[..n]);
      ForwardExact(Run(t, cs[..n]), cs[n]);
      assert ForwardSqls(cs) == ForwardSqls(cs[..n]) + [ForwardSql(cs[n])];
      ExecAllAppend(t, ForwardSqls(cs[..n]), ForwardSql(cs[n]));
    }
  }

  /** The inverse statements, newest first, take the tables back exactly. */
  lemma {:induction false} InverseSqlsExact(t: Tables, cs: seq<Change>)
    requires FitsAll(t, cs)
    ensures ExecAll(Run(t, cs), InverseSqls(cs)) == Some(t)
    ensures EachHitsOne(Run(t, cs), InverseSqls(cs))
  {
    if cs == [] {
    } else {
      var n := |cs| - 1;
      var init := cs[..n];
      InverseExact(Run(t, init), cs[n]);
      InverseSqlsExact(t, init);
      assert InverseSqls(cs) == [InverseSql(cs[n])] + InverseSqls(init);
      assert InverseSqls(cs)[1..] == InverseSqls(init);
    }
  }

  function Touched(cs: seq<Change>): set<Key> {
    set c | c in cs :: c.key
  }

  /** Keys no change touches keep their rows. */
  lemma {:induction false} RunUntouched(t: Tables, cs: seq<Change>, k: Key)
    requires k !in Touched(cs)
    ensures k in Run(t, cs) <==> k in t
    ensures k in t ==> Run(t, cs)[k] == t[k]
  {
    if cs == [] {
    } else {
      var n := |cs| - 1;
      assert cs[n].key in Touched(cs);
      assert forall c | c in cs[..n] :: c in cs;
      RunUntouched(t, cs[..n], k);
    }
  }

  lemma {:induction false} FitsAt(t: Tables, cs: seq<Change>, i: nat)
    requires FitsAll(t, cs) && i < |cs|
    ensures Fits(Run(t, cs[..i]), cs[i]) && Run(t, cs[..i + 1]) == Apply(Run(t, cs[..i]), cs[i])
  {
    var n := |cs| - 1;
    if i == n {
      assert cs[..n + 1] == cs;
    } else {
      FitsAt(t, cs[..n], i);
      assert cs[..n][..i] == cs[..i] && cs[..n][..i + 1] == cs[..i + 1];
    }
  }

  // The version a change leaves.
  lemma LeavesVersion(t: Tables, c: Change)
    requires Fits(t, c)
    ensures if c.kind.Delete? then c.key !in Apply(t, c)
            else c.key in Apply(t, c) && VersionIs(Apply(t, c)[c.key], c.dbVersion)
  {
    match c.kind {
      case New => OverwriteRead(map[], Currents(c), VERSION);
      case Modify => OverwriteRead(t[c.key], Currents(c), VERSION);
      case Delete =>
    }
  }

  // No change of the stack before `j`, from `i` on, is one of the key.
  ghost predicate NoneBetween(cs: seq<Change>, i: nat, j: nat, key: Key)
    requires i <= j <= |cs|
  {
    forall k | i <= k < j :: cs[k].key != key
  }

  lemma KeptBetween(t: Tables, cs: seq<Change>, i: nat, j: nat, key: Key)
    requires i <= j <= |cs| && NoneBetween(cs, i, j, key)
    ensures key in Run(t, cs[..j]) <==> key in Run(t, cs[..i])
    ensures key in Run(t, cs[..j]) ==> Run(t, cs[..j])[key] == Run(t, cs[..i])[key]
  {
    RunAppend(t, cs[..i], cs[i..j]);
    assert cs[..i] + cs[i..j] == cs[..j];
    RunUntouched(Run(t, cs[..i]), cs[i..j], key);
  }

  /** `_version_` numbers form an unbroken chain: of two consecutive changes of one key the later one is a create, of
      version 1, exactly when the earlier is a delete; a modification counts one up, and a delete has the same
      number. */
  lemma VersionChain(t: Tables, cs: seq<Change>, i: nat, j: nat)
    requires FitsAll(t, cs) && i < j < |cs| && cs[i].key == cs[j].key && NoneBetween(cs, i + 1, j, cs[j].key)
    ensures cs[j].kind.New? <==> cs[i].kind.Delete?
    ensures cs[j].dbVersion == match cs[j].kind
                               case New => 1
                               case Modify => cs[i].dbVersion + 1
                               case Delete => cs[i].dbVersion
  {
    FitsAt(t, cs, i);
    FitsAt(t, cs, j);
    LeavesVersion(Run(t, cs[..i]), cs[i]);
    KeptBetween(t, cs, i + 1, j, cs[j].key);
  }

  /** The chain of a key starts at the number its row has in the tables. */
  lemma FirstVersion(t: Tables, cs: seq<Change>, j: nat)
    requires FitsAll(t, cs) && j < |cs| && NoneBetween(cs, 0, j, cs[j].key)
    ensures cs[j].kind.New? <==> cs[j].key !in t
    ensures match cs[j].kind
            case New => cs[j].dbVersion == 1
            case Modify => VersionIs(t[cs[j].key], cs[j].dbVersion - 1)
            case Delete => VersionIs(t[cs[j].key], cs[j].dbVersion)
  {
    FitsAt(t, cs, j);
    KeptBetween(t, cs, 0, j, cs[j].key);
  }
}
