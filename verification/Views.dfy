/** Tables with changes pending on them, and the cache as a part of that view. */
module Views {
  import opened Rows
  import opened Changes
  import opened EntityCaches

  // No two rows of a model share an all-truthy unique value.
  predicate UniqueRows(s: Schemas, t: Tables) {
    forall n | n in s.uniques :: forall k | k in t && k.model == n.model :: !Clash(t, k, t[k], s.uniques[n])
  }

  // Every row has a version number and only columns of its model, and the unique indexes hold.
  predicate Consistent(s: Schemas, t: Tables) {
    && (forall k | k in t :: k.model in s.models && RowOk(s.models[k.model], t[k]))
    && UniqueRows(s, t)
  }

  predicate RowOk(m: Schema, r: Row) {
    && r.Keys <= m.columns
    && VERSION in r && r[VERSION].Num?
  }

  // A row of the table has no other columns.
  lemma OwnColumns(m: Schema, r: Row)
    requires RowOk(m, r)
    ensures Columns(m, r) == r
  {
  }

  // The changes fit one after the other, through consistent views only.
  ghost predicate Sound(s: Schemas, t: Tables, cs: seq<Change>) {
    if cs == [] then Consistent(s, t)
    else
      && Sound(s, t, cs[..|cs| - 1])
      && Fits(Run(t, cs[..|cs| - 1]), cs[|cs| - 1])
      && Consistent(s, Run(t, cs))
  }

  lemma SoundSnoc(s: Schemas, t: Tables, cs: seq<Change>, c: Change)
    ensures Run(t, cs + [c]) == Apply(Run(t, cs), c)
    ensures Sound(s, t, cs + [c]) <==> Sound(s, t, cs) && Fits(Run(t, cs), c) && Consistent(s, Apply(Run(t, cs), c))
  {
    assert (cs + [c])[..|cs|] == cs;
  }

  lemma {:induction false} SoundFits(s: Schemas, t: Tables, cs: seq<Change>)
    requires Sound(s, t, cs)
    ensures FitsAll(t, cs) && Consistent(s, t) && Consistent(s, Run(t, cs))
  {
    if cs == [] {
    } else {
      SoundFits(s, t, cs[..|cs| - 1]);
    }
  }

  lemma {:induction false} SoundAppend(s: Schemas, t: Tables, a: seq<Change>, b: seq<Change>)
    ensures Run(t, a + b) == Run(Run(t, a), b)
    ensures Sound(s, t, a + b) <==> Sound(s, t, a) && Sound(s, Run(t, a), b)
    decreases |b|
  {
    RunAppend(t, a, b);
    if b == [] {
      assert a + b == a;
      if Sound(s, t, a) { SoundFits(s, t, a); }
    } else {
      SoundAppend(s, t, a, b[..|b| - 1]);
      assert (a + b)[..|a + b| - 1] == a + b[..|b| - 1];
    }
  }

  // Every cached entity is the view's row, up to properties that are no columns.
  ghost predicate Agrees(s: Schemas, cache: Tables, view: Tables) {
    forall k | k in cache :: k.model in s.models && k in view && Columns(s.models[k.model], cache[k]) == view[k]
  }

  // Keys of the view that are neither cached nor disposed of for capacity.
  ghost predicate Resident(keys: set<Key>, view: Tables, cached: set<Key>, disposed: set<Key>) {
    forall k | k in keys && k in view :: k in cached || k in disposed
  }

  lemma AgreedIndexValue(s: Schemas, cache: Tables, view: Tables, n: IndexName, k: Key)
    requires WellFormed(s) && n in s.uniques && k in cache && k.model == n.model && Agrees(s, cache, view)
    ensures IndexValueOf(cache[k], s.uniques[n]) == IndexValueOf(view[k], s.uniques[n])
  {
    IndexValueOfColumns(s, cache[k], n);
  }

  /** A cache that agrees with a consistent view has no unique clash. */
  lemma AgreedNoClash(s: Schemas, cache: Tables, view: Tables, key: Key)
    requires WellFormed(s) && Agrees(s, cache, view) && UniqueRows(s, view) && key in cache
    ensures !ClashIn(cache, key, cache[key], s)
  {
    forall n | n in s.uniques && n.model == key.model
      ensures !Clash(cache, key, cache[key], s.uniques[n])
    {
      AgreedIndexValue(s, cache, view, n, key);
      forall other | other in cache && other.model == key.model && other != key
        ensures AllTruthy(IndexValueOf(cache[key], s.uniques[n])) ==>
                  IndexValueOf(cache[other], s.uniques[n]) != IndexValueOf(cache[key], s.uniques[n])
      {
        AgreedIndexValue(s, cache, view, n, other);
        assert !Clash(view, key, view[key], s.uniques[n]);
      }
    }
  }

  lemma ConsistentRemove(s: Schemas, t: Tables, key: Key)
    requires Consistent(s, t)
    ensures Consistent(s, t - {key})
  {
    var t' := t - {key};
    forall n, k | n in s.uniques && k in t' && k.model == n.model
      ensures !Clash(t', k, t'[k], s.uniques[n])
    {
      assert !Clash(t, k, t[k], s.uniques[n]);
    }
  }

  lemma ColumnsOverwrite(m: Schema, r: Row, vs: Values)
    requires vs.Keys <= m.columns
    ensures Columns(m, Overwrite(r, vs)) == Overwrite(Columns(m, r), vs)
  {
  }

  /******* The cache beside the view *******/

  // The whole invariant of a cache beside its pending changes.
  ghost predicate Showing(s: Schemas, t: Tables, cs: seq<Change>, cache: Tables, disposed: set<Key>) {
    && Sound(s, t, cs)
    && Agrees(s, cache, Run(t, cs))
    && Resident(Touched(cs), Run(t, cs), cache.Keys, disposed)
  }

  /** Committing the changes leaves the cache showing the new tables. */
  lemma ShowingCommitted(s: Schemas, t: Tables, cs: seq<Change>, cache: Tables, disposed: set<Key>)
    requires Showing(s, t, cs, cache, disposed)
    ensures Showing(s, Run(t, cs), [], cache, disposed)
  {
    SoundFits(s, t, cs);
  }

  lemma AgreesPut(s: Schemas, cache: Tables, view: Tables, key: Key, r: Row, victim: Option<Key>)
    requires Agrees(s, cache, view) && key.model in s.models && (victim.Some? ==> victim.value != key)
    ensures Agrees(s, Disposed(cache[key := r], victim), view[key := Columns(s.models[key.model], r)])
  {
  }

  lemma TouchedSnoc(cs: seq<Change>, c: Change)
    ensures Touched(cs + [c]) == Touched(cs) + {c.key}
  {
    assert forall x :: x in cs + [c] <==> x in cs || x == c;
  }

  lemma ResidentPut(keys: set<Key>, view: Tables, view': Tables, cache: Tables, disposed: set<Key>, key: Key, r: Row,
                    victim: Option<Key>)
    requires Resident(keys, view, cache.Keys, disposed) && view'.Keys <= view.Keys + {key}
             && (victim.Some? ==> victim.value != key)
    ensures Resident(keys + {key}, view', Disposed(cache[key := r], victim).Keys, disposed - {key} + KeysOf(victim))
  {
  }

  /** Creating an entity that is not cached: right exactly when its key is new and its unique values are free. */
  lemma CreateShown(s: Schemas, t: Tables, cs: seq<Change>, cache: Tables, disposed: set<Key>, key: Key, r: Row,
                    victim: Option<Key>)
    requires WellFormed(s) && Showing(s, t, cs, cache, disposed) && key.model in s.models && VersionIs(r, 1)
    requires key !in cache && (victim.Some? ==> victim.value != key)
    ensures var m := s.models[key.model];
            var view := Run(t, cs)[key := Columns(m, r)];
            var cs' := cs + [CreateChange(m, key, r)];
            && Run(t, cs') == view
            && (Showing(s, t, cs', Disposed(cache[key := r], victim), disposed - {key} + KeysOf(victim))
                <==> key !in Run(t, cs) && Consistent(s, view))
            && (Consistent(s, view) ==> !ClashIn(Disposed(cache[key := r], victim), key, r, s))
  {
    var m := s.models[key.model];
    var c := CreateChange(m, key, r);
    SoundSnoc(s, t, cs, c);
    assert ObjectOf(Currents(c)) == Columns(m, r);
    AgreesPut(s, cache, Run(t, cs), key, r, victim);
    TouchedSnoc(cs, c);
    ResidentPut(Touched(cs), Run(t, cs), Run(t, cs + [c]), cache, disposed, key, r, victim);
    if Consistent(s, Run(t, cs + [c])) {
      AgreedNoClash(s, Disposed(cache[key := r], victim), Run(t, cs + [c]), key);
    }
  }

  /** Caching a row that was read elsewhere: right exactly when it is the view's row. */
  lemma LoadShown(s: Schemas, t: Tables, cs: seq<Change>, cache: Tables, disposed: set<Key>, key: Key, r: Row,
                  victim: Option<Key>)
    requires WellFormed(s) && Showing(s, t, cs, cache, disposed) && key.model in s.models
    requires key !in cache && (victim.Some? ==> victim.value != key)
    ensures Showing(s, t, cs, Disposed(cache[key := r], victim), disposed - {key} + KeysOf(victim))
            <==> key in Run(t, cs) && Run(t, cs)[key] == Columns(s.models[key.model], r)
    ensures key in Run(t, cs) && Run(t, cs)[key] == Columns(s.models[key.model], r)
            ==> !ClashIn(Disposed(cache[key := r], victim), key, r, s)
  {
    var view := Run(t, cs);
    var cache' := Disposed(cache[key := r], victim);
    if key in view && view[key] == Columns(s.models[key.model], r) {
      AgreesPut(s, cache, view, key, r, victim);
      assert view[key := Columns(s.models[key.model], r)] == view;
      ResidentPut(Touched(cs), view, view, cache, disposed, key, r, victim);
      SoundFits(s, t, cs);
      AgreedNoClash(s, cache', view, key);
    }
  }

  /** Deleting a cached entity keeps the view shown. */
  lemma DeleteShown(s: Schemas, t: Tables, cs: seq<Change>, cache: Tables, disposed: set<Key>, key: Key, v: int)
    requires WellFormed(s) && Showing(s, t, cs, cache, disposed) && key in cache && VersionIs(cache[key], v)
    ensures var c := DeleteChange(s.models[key.model], key, cache[key], v);
            && Run(t, cs + [c]) == Run(t, cs) - {key}
            && Showing(s, t, cs + [c], cache - {key}, disposed)
  {
    var m := s.models[key.model];
    var c := DeleteChange(m, key, cache[key], v);
    var view := Run(t, cs);
    SoundSnoc(s, t, cs, c);
    SoundFits(s, t, cs);
    assert RowOk(m, view[key]);
    assert ObjectOf(Originals(c)) == Columns(m, cache[key]);
    ConsistentRemove(s, view, key);
    TouchedSnoc(cs, c);
  }

  lemma ModifyCurrents(key: Key, obj: Row, values: Values, v: int)
    ensures Currents(ModifyChange(key, obj, values, v)) == values[VERSION := Some(Num(v))]
  {
  }

  // A modified entity beside its view row.
  lemma ModifiedRow(m: Schema, entity: Row, key: Key, v: int, values: Values)
    requires VERSION in m.columns && values.Keys <= m.columns - {VERSION} && VersionIs(entity, v - 1)
    ensures Overwrite(Columns(m, entity), values[VERSION := Some(Num(v))])
            == Overwrite(Columns(m, entity), values)[VERSION := Num(v)]
    ensures Columns(m, Overwrite(entity[VERSION := Num(v)], values))
            == Overwrite(Columns(m, entity), values)[VERSION := Num(v)]
  {
    ColumnsOverwrite(m, entity[VERSION := Num(v)], values);
    assert Columns(m, entity[VERSION := Num(v)]) == Columns(m, entity)[VERSION := Num(v)];
  }

  lemma ModifiedOriginals(m: Schema, entity: Row, key: Key, v: int, values: Values, p: string)
    requires VERSION in m.columns && values.Keys <= m.columns - {VERSION} && VersionIs(entity, v - 1)
    requires p in ModifyChange(key, entity[VERSION := Num(v)], values, v).props
    ensures ModifyChange(key, entity[VERSION := Num(v)], values, v).props[p].original == Read(Columns(m, entity), p)
  {
  }

  lemma ModifyFits(s: Schemas, view: Tables, key: Key, entity: Row, v: int, values: Values)
    requires WellFormed(s) && key.model in s.models && key in view && view[key] == Columns(s.models[key.model], entity)
    requires VersionIs(entity, v - 1) && values.Keys <= s.models[key.model].columns - {VERSION}
    ensures var c := ModifyChange(key, entity[VERSION := Num(v)], values, v);
            && Fits(view, c)
            && Apply(view, c) == view[key := Overwrite(view[key], values)[VERSION := Num(v)]]
  {
    var m := s.models[key.model];
    var c := ModifyChange(key, entity[VERSION := Num(v)], values, v);
    ModifyCurrents(key, entity[VERSION := Num(v)], values, v);
    ModifiedRow(m, entity, key, v, values);
    forall p | p in c.props
      ensures c.props[p].original == Read(view[key], p)
    {
      ModifiedOriginals(m, entity, key, v, values, p);
    }
  }

  /** Modifying a cached entity: right exactly when the new unique values are free. */
  lemma ModifyShown(s: Schemas, t: Tables, cs: seq<Change>, cache: Tables, disposed: set<Key>, key: Key, v: int,
                    values: Values)
    requires WellFormed(s) && Showing(s, t, cs, cache, disposed) && key in cache && VersionIs(cache[key], v - 1)
    requires values.Keys <= s.models[key.model].columns - {VERSION}
    ensures var bumped := cache[key][VERSION := Num(v)];
            var c := ModifyChange(key, bumped, values, v);
            var view := Run(t, cs)[key := Overwrite(Run(t, cs)[key], values)[VERSION := Num(v)]];
            && Run(t, cs + [c]) == view
            && (Showing(s, t, cs + [c], cache[key := Overwrite(bumped, values)], disposed) <==> Consistent(s, view))
            && (Consistent(s, view) ==>
                !ClashIn(cache[key := Overwrite(bumped, values)], key, Overwrite(bumped, values), s))
  {
    var c := ModifyChange(key, cache[key][VERSION := Num(v)], values, v);
    var r := Overwrite(cache[key][VERSION := Num(v)], values);
    SoundSnoc(s, t, cs, c);
    ModifyFits(s, Run(t, cs), key, cache[key], v, values);
    ModifiedRow(s.models[key.model], cache[key], key, v, values);
    AgreesPut(s, cache, Run(t, cs), key, r, None);
    TouchedSnoc(cs, c);
    if Consistent(s, Run(t, cs + [c])) {
      AgreedNoClash(s, cache[key := r], Run(t, cs + [c]), key);
    }
  }

  // Undoing a modification in the cache: what the entity becomes.
  lemma UndoneRow(s: Schemas, before: Tables, c: Change, entity: Row)
    requires Consistent(s, before) && Fits(before, c) && c.kind.Modify?
    requires Columns(s.models[c.key.model], entity) == Apply(before, c)[c.key]
    ensures Columns(s.models[c.key.model], Overwrite(entity, Originals(c))) == before[c.key]
  {
    var m := s.models[c.key.model];
    var row := before[c.key];
    assert RowOk(m, row);
    forall p
      ensures Read(Columns(m, Overwrite(entity, Originals(c))), p) == Read(row, p)
    {
      OverwriteRead(row, Currents(c), p);
      OverwriteRead(entity, Originals(c), p);
      assert Read(Columns(m, entity), p) == Read(Overwrite(row, Currents(c)), p);
    }
    SameRow(Columns(m, Overwrite(entity, Originals(c))), row);
  }

  // What the tracker does to the cache to undo one change.
  function UndoneCache(cache: Tables, c: Change, victim: Option<Key>): Tables {
    match c.kind
    case New => cache - {c.key}
    case Modify => if c.key in cache then cache[c.key := Overwrite(cache[c.key], Originals(c))] else cache
    case Delete => Disposed(cache[c.key := ObjectOf(Originals(c))], victim)
  }

  function UndoneDisposed(disposed: set<Key>, c: Change, victim: Option<Key>): set<Key> {
    if c.kind.Delete? then disposed - {c.key} + KeysOf(victim) else disposed
  }

  /** Undoing a change takes the cache back to the view before it. */
  lemma UndoAgrees(s: Schemas, before: Tables, c: Change, cache: Tables, victim: Option<Key>)
    requires WellFormed(s) && Consistent(s, before) && Fits(before, c) && c.key.model in s.models
    requires Agrees(s, cache, Apply(before, c)) && (victim.Some? ==> victim.value != c.key)
    ensures Agrees(s, UndoneCache(cache, c, victim), before)
  {
    if c.kind.Modify? && c.key in cache {
      UndoneRow(s, before, c, cache[c.key]);
    } else if c.kind.Delete? {
      assert RowOk(s.models[c.key.model], before[c.key]);
      assert Columns(s.models[c.key.model], before[c.key]) == before[c.key];
    }
  }

  // Undoing never clashes: the view before the change was consistent.
  lemma UndoneNoClash(s: Schemas, before: Tables, c: Change, cache: Tables, victim: Option<Key>)
    requires WellFormed(s) && Consistent(s, before) && Fits(before, c) && c.key.model in s.models && !c.kind.New?
    requires Agrees(s, cache, Apply(before, c)) && (victim.Some? ==> victim.value != c.key)
             && (c.kind.Modify? ==> c.key in cache)
    ensures var cache' := UndoneCache(cache, c, victim); c.key in cache' && !ClashIn(cache', c.key, cache'[c.key], s)
  {
    UndoAgrees(s, before, c, cache, victim);
    AgreedNoClash(s, UndoneCache(cache, c, victim), before, c.key);
  }

  lemma UndoResident(keys: set<Key>, before: Tables, c: Change, cache: Tables, disposed: set<Key>, victim: Option<Key>)
    requires Fits(before, c) && Resident(keys, Apply(before, c), cache.Keys, disposed)
             && (victim.Some? ==> victim.value != c.key)
    ensures Resident(keys, before, UndoneCache(cache, c, victim).Keys, UndoneDisposed(disposed, c, victim))
  {
  }

  /******* History *******/

  // The changes of the heights lo..hi in order, heights without an entry skipped.
  function ChangesOf(history: map<int, seq<Change>>, lo: int, hi: int): seq<Change>
    decreases hi - lo
  {
    if hi < lo then []
    else ChangesOf(history, lo, hi - 1) + (if hi in history then history[hi] else [])
  }

  // The entry of every height from lo to hi turns the tables of the height below into its own.
  ghost predicate Chronicle(s: Schemas, past: map<int, Tables>, history: map<int, seq<Change>>, lo: int, hi: int) {
    forall v | lo <= v <= hi :: Recorded(s, past, history, v)
  }

  ghost predicate Recorded(s: Schemas, past: map<int, Tables>, history: map<int, seq<Change>>, v: int) {
    v in history && v in past && v - 1 in past && Sound(s, past[v - 1], history[v])
        && Run(past[v - 1], history[v]) == past[v]
  }

  lemma ChronicleExtend(s: Schemas, past: map<int, Tables>, history: map<int, seq<Change>>, lo: int, height: int,
                        below: Tables, cs: seq<Change>)
    requires Chronicle(s, past, history, lo, height - 1) && Sound(s, below, cs)
    requires lo <= height - 1 ==> height - 1 in past && past[height - 1] == below
    ensures Chronicle(s, past[height - 1 := below][height := Run(below, cs)], history[height := cs], lo, height)
  {
    var past', history' := past[height - 1 := below][height := Run(below, cs)], history[height := cs];
    forall v | lo <= v <= height
      ensures Recorded(s, past', history', v)
    {
      assert v < height ==> Recorded(s, past, history, v);
    }
  }

  /** All changes from a height on lead from the tables below it to the newest. */
  lemma {:induction false} ChronicleRun(s: Schemas, past: map<int, Tables>, history: map<int, seq<Change>>, lo: int,
                                        hi: int)
    requires Chronicle(s, past, history, lo, hi) && lo <= hi
    ensures lo - 1 in past && hi in past
    ensures Sound(s, past[lo - 1], ChangesOf(history, lo, hi))
    ensures Run(past[lo - 1], ChangesOf(history, lo, hi)) == past[hi]
    decreases hi - lo
  {
    assert Recorded(s, past, history, lo) && Recorded(s, past, history, hi);
    if lo == hi {
      assert ChangesOf(history, lo, hi) == ChangesOf(history, lo, hi - 1) + history[hi];
      assert ChangesOf(history, lo, hi - 1) == [];
      assert ChangesOf(history, lo, hi) == history[hi];
    } else {
      ChronicleRun(s, past, history, lo, hi - 1);
      SoundAppend(s, past[lo - 1], ChangesOf(history, lo, hi - 1), history[hi]);
    }
  }

  /** Inverse SQL over any number of blocks takes the tables back to their exact content at the height below. */
  lemma RollbackSqlExact(s: Schemas, past: map<int, Tables>, history: map<int, seq<Change>>, lo: int, hi: int)
    requires Chronicle(s, past, history, lo, hi) && lo <= hi
    ensures lo - 1 in past && hi in past
    ensures ExecAll(past[hi], InverseSqls(ChangesOf(history, lo, hi))) == Some(past[lo - 1])
    ensures EachHitsOne(past[hi], InverseSqls(ChangesOf(history, lo, hi)))
  {
    ChronicleRun(s, past, history, lo, hi);
    SoundFits(s, past[lo - 1], ChangesOf(history, lo, hi));
    InverseSqlsExact(past[lo - 1], ChangesOf(history, lo, hi));
  }
}
