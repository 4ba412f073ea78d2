/** The change tracker: two stacks of pending changes over the cache, and a history per height. */
module EntityTrackers {
  import opened Arithmetic
  import opened Rows
  import opened Changes
  import opened EntityCaches
  import opened Views

  // How tracking an entity ended: done, refused because it is tracked, or thrown out by a unique index.
  datatype Outcome = Done | AlreadyTracking | UniqueClash

  /** The properties a modifier really changes. */
  function RealChanges(m: Schema, entity: Row, modifier: Values): Values {
    map p | p in modifier && p in m.columns && p != VERSION && Read(entity, p) != modifier[p] :: modifier[p]
  }

  function VersionOf(r: Row): int {
    match Read(r, VERSION)
    case Some(Num(n)) => n
    case _ => 0
  }

  function NewEntity(m: Schema, entity: Row): Row {
    WithDefaults(m, entity)[VERSION := Num(1)]
  }

  // The view after an entity was created.
  function Created(s: Schemas, view: Tables, key: Key, entity: Row): Tables
    requires key.model in s.models
  {
    view[key := Columns(s.models[key.model], NewEntity(s.models[key.model], entity))]
  }

  // The view after an entity got new values and the next version number.
  function Modified(view: Tables, key: Key, entity: Row, values: Values): Tables
    requires key in view
  {
    view[key := Overwrite(view[key], values)[VERSION := Num(VersionOf(entity) + 1)]]
  }

  // The view after an update: only real changes count.
  function Updated(s: Schemas, view: Tables, key: Key, modifier: Values): Tables
    requires key.model in s.models && key in view
  {
    var values := RealChanges(s.models[key.model], view[key], modifier);
    if values == map[] then view else Modified(view, key, view[key], values)
  }

  // The columns of a cached entity are the view's row, so both have the same real changes and version.
  lemma SameUpdate(s: Schemas, view: Tables, key: Key, entity: Row, modifier: Values)
    requires key.model in s.models && key in view && VERSION in s.models[key.model].columns
    requires Columns(s.models[key.model], entity) == view[key]
    ensures var values := RealChanges(s.models[key.model], entity, modifier);
            && values == RealChanges(s.models[key.model], view[key], modifier)
            && Updated(s, view, key, modifier) == if values == map[] then view else Modified(view, key, entity, values)
  {
    assert forall p | p in s.models[key.model].columns :: Read(entity, p) == Read(view[key], p);
  }

  // What tracking a modification pushes, and what becomes of the entity.
  function ModifyChanges(m: Schema, key: Key, entity: Row, modifier: Values): seq<Change> {
    var values, version := RealChanges(m, entity, modifier), VersionOf(entity) + 1;
    if values == map[] then [] else [ModifyChange(key, entity[VERSION := Num(version)], values, version)]
  }

  function ModifiedEntity(m: Schema, entity: Row, modifier: Values): Row {
    var values := RealChanges(m, entity, modifier);
    if values == map[] then entity else Overwrite(entity[VERSION := Num(VersionOf(entity) + 1)], values)
  }

  // A cached entity has its version number.
  lemma ShownVersion(s: Schemas, t: Tables, cs: seq<Change>, cache: Tables, disposed: set<Key>, key: Key)
    requires Showing(s, t, cs, cache, disposed) && key in cache
    ensures key.model in s.models && key in Run(t, cs) && VersionIs(cache[key], VersionOf(cache[key]))
  {
    SoundFits(s, t, cs);
    assert RowOk(s.models[key.model], Run(t, cs)[key]);
    assert Columns(s.models[key.model], cache[key]) == Run(t, cs)[key];
  }

  // What a modification makes of stack, cache and view is right exactly when the view stays consistent.
  ghost predicate ModifiedInStep(s: Schemas, t: Tables, cs: seq<Change>, cache: Tables, disposed: set<Key>, key: Key,
                                 view: Tables)
  {
    && Run(t, cs) == view
    && (Showing(s, t, cs, cache, disposed) <==> Consistent(s, view))
    && (Consistent(s, view) ==> key in cache && !ClashIn(cache, key, cache[key], s))
  }

  /** A tracked modification updates the view, and the cache shows it exactly when the view stays consistent. */
  lemma ModifyTracked(s: Schemas, t: Tables, cs: seq<Change>, cache: Tables, disposed: set<Key>, key: Key,
                      modifier: Values)
    requires WellFormed(s) && Showing(s, t, cs, cache, disposed) && key in cache
    ensures key.model in s.models && key in Run(t, cs)
    ensures var m := s.models[key.model];
            ModifiedInStep(s, t, cs + ModifyChanges(m, key, cache[key], modifier),
                           cache[key := ModifiedEntity(m, cache[key], modifier)],
                           disposed, key, Updated(s, Run(t, cs), key, modifier))
  {
    ShownVersion(s, t, cs, cache, disposed, key);
    SoundFits(s, t, cs);
    var m := s.models[key.model];
    var values := RealChanges(m, cache[key], modifier);
    assert Updated(s, Run(t, cs), key, modifier) == if values == map[] then Run(t, cs)
           else Modified(Run(t, cs), key, cache[key], values) by {
      SameUpdate(s, Run(t, cs), key, cache[key], modifier);
    }
    if values == map[] {
      assert cs + [] == cs && cache[key := cache[key]] == cache;
      AgreedNoClash(s, cache, Run(t, cs), key);
    } else {
      ModifyReal(s, t, cs, cache, disposed, key, values);
    }
  }

  lemma ModifyReal(s: Schemas, t: Tables, cs: seq<Change>, cache: Tables, disposed: set<Key>, key: Key, values: Values)
    requires WellFormed(s) && Showing(s, t, cs, cache, disposed) && key in cache
             && VersionIs(cache[key], VersionOf(cache[key]))
    requires values.Keys <= s.models[key.model].columns - {VERSION}
    ensures key in Run(t, cs)
    ensures var version := VersionOf(cache[key]) + 1;
            var bumped := cache[key][VERSION := Num(version)];
            ModifiedInStep(s, t, cs + [ModifyChange(key, bumped, values, version)],
                           cache[key := Overwrite(bumped, values)],
                           disposed, key, Modified(Run(t, cs), key, cache[key], values))
  {
    ModifyShown(s, t, cs, cache, disposed, key, VersionOf(cache[key]) + 1, values);
  }

  /** A modification of a row read from the tables leaves the cache in step only if the row was the view's one. */
  lemma StaleModify(s: Schemas, t: Tables, cs: seq<Change>, cache: Tables, disposed: set<Key>, key: Key, row: Row,
                    modifier: Values)
    requires WellFormed(s) && key.model in s.models && RowOk(s.models[key.model], row) && key in cache
    requires cache[key] == ModifiedEntity(s.models[key.model], row, modifier)
    requires Showing(s, t, cs + ModifyChanges(s.models[key.model], key, row, modifier), cache, disposed)
    ensures key in Run(t, cs) && Run(t, cs)[key] == row
  {
    var m := s.models[key.model];
    var values := RealChanges(m, row, modifier);
    OwnColumns(m, row);
    if values == map[] {
      assert cs + [] == cs;
    } else {
      var c := ModifyChange(key, row[VERSION := Num(VersionOf(row) + 1)], values, VersionOf(row) + 1);
      SoundSnoc(s, t, cs, c);
      SoundFits(s, t, cs);
      var seen := Run(t, cs)[key];
      assert RowOk(m, seen);
      forall p
        ensures Read(row, p) == Read(seen, p)
      {
        StaleProperty(m, row, seen, key, values, p);
      }
      SameRow(row, seen);
    }
  }

  lemma StaleProperty(m: Schema, row: Row, seen: Row, key: Key, values: Values, p: string)
    requires RowOk(m, row) && RowOk(m, seen) && VERSION in m.columns && values.Keys <= m.columns - {VERSION}
    requires var c := ModifyChange(key, row[VERSION := Num(VersionOf(row) + 1)], values, VersionOf(row) + 1);
             && (forall q | q in c.props :: c.props[q].original == Read(seen, q))
             && Columns(m, Overwrite(row[VERSION := Num(VersionOf(row) + 1)], values)) == Overwrite(seen, Currents(c))
    ensures Read(row, p) == Read(seen, p)
  {
    var bumped := row[VERSION := Num(VersionOf(row) + 1)];
    var c := ModifyChange(key, bumped, values, VersionOf(row) + 1);
    if p in c.props {
      assert c.props[p].original == Read(seen, p);
    } else {
      OverwriteRead(seen, Currents(c), p);
      OverwriteRead(bumped, values, p);
      assert Read(Columns(m, Overwrite(bumped, values)), p) == Read(Overwrite(seen, Currents(c)), p);
    }
  }

  lemma StaleDelete(s: Schemas, t: Tables, cs: seq<Change>, cache: Tables, disposed: set<Key>, key: Key, row: Row)
    requires key.model in s.models && RowOk(s.models[key.model], row)
    requires Showing(s, t, cs + [DeleteChange(s.models[key.model], key, row, VersionOf(row))], cache, disposed)
    ensures key in Run(t, cs) && Run(t, cs)[key] == row
  {
    var c := DeleteChange(s.models[key.model], key, row, VersionOf(row));
    SoundSnoc(s, t, cs, c);
    assert ObjectOf(Originals(c)) == row;
  }

  lemma LastUpdate(t: Tables, key: Key, r: Row, r': Row)
    ensures t[key := r][key := r'] == t[key := r']
  {
  }

  // A history without the heights in [lo, hi).
  function Kept(history: map<int, seq<Change>>, lo: int, hi: int): map<int, seq<Change>> {
    map v | v in history && !(lo <= v < hi) :: history[v]
  }

  // The lowest height a history must know.
  function Low(min: int): int {
    if min < 0 then 0 else min
  }

  // The history has every height of its window and nothing below it. Each entry of the window leads from the tables
  // of the height below to those of its own; the newest are the committed ones.
  ghost predicate Narrates(s: Schemas, past: map<int, Tables>, history: map<int, seq<Change>>, min: int, current: int,
                           base: Tables)
  {
    && -1 <= min <= current && (min == -1 <==> current == -1)
    && (forall v | v in history :: Low(min) <= v)
    && Chronicle(s, past, history, Low(min), current)
    && current in past && past[current] == base
  }

  /** The history has an entry for every height of its window. */
  lemma NarratedHeights(s: Schemas, past: map<int, Tables>, history: map<int, seq<Change>>, min: int, current: int,
                        base: Tables)
    requires Narrates(s, past, history, min, current, base)
    ensures forall v | Low(min) <= v <= current :: v in history
  {
    forall v | Low(min) <= v <= current
      ensures v in history
    {
      assert Recorded(s, past, history, v);
    }
  }

  // The lowest height after a commit.
  function AcceptedMin(min: int, current: int, height: int, hold: nat): int {
    if min == -1 then height else Max(min, current - hold)
  }

  // The history after a commit: every height from the new lowest one on still leads to the next.
  lemma AcceptedHistory(s: Schemas, past: map<int, Tables>, history: map<int, seq<Change>>, min: int, current: int,
                        height: int, below: Tables, cs: seq<Change>, hold: nat)
    requires Sound(s, below, cs) && Narrates(s, past, history, min, current, below)
    requires if current == -1 && history == map[] then 0 <= height else height == current + 1
    ensures var min' := AcceptedMin(min, current, height, hold);
            var kept := Kept(history[height := cs], min, if min == -1 then -1 else min');
            && Narrates(s, past[height - 1 := below][height := Run(below, cs)], kept, min', height, Run(below, cs))
            && height in kept && kept[height] == cs
            && height - min' <= hold + 1
  {
    var low := if min == -1 then height else min;
    ChronicleExtend(s, past, history, low, height, below, cs);
    var min' := AcceptedMin(min, current, height, hold);
    var kept := Kept(history[height := cs], min, if min == -1 then -1 else min');
    var past' := past[height - 1 := below][height := Run(below, cs)];
    forall v | min' <= v <= height
      ensures Recorded(s, past', kept, v)
    {
      assert Recorded(s, past', history[height := cs], v);
    }
  }

  // The history after the newest height was taken back: it is again in step exactly when the height below was held.
  lemma RolledBackHistory(s: Schemas, past: map<int, Tables>, history: map<int, seq<Change>>, min: int, current: int,
                          base: Tables)
    requires Narrates(s, past, history, min, current, base) && 0 <= current
    ensures current - 1 in past
    ensures Narrates(s, past, history[current := []], Min(min, current - 1), current - 1, past[current - 1])
            <==> min < current || current == 0
  {
    var history' := history[current := []];
    assert Recorded(s, past, history, current);
    if min < current {
      forall v | Low(min) <= v <= current - 1
        ensures Recorded(s, past, history', v)
      {
        assert Recorded(s, past, history, v);
      }
    } else if current != 0 {
      assert current - 1 !in history;
      assert !Recorded(s, past, history', current - 1);
    }
  }

  lemma Inhabited(s: set<int>)
    requires s != {}
    ensures exists v :: v in s
  {
    if forall v :: v !in s {
      assert false;
    }
  }

  class BasicEntityTracker {
    const cache: LRUEntityCache
    const schemas: Schemas
    const maxHistoryVersionsHold: nat
    var confirming: bool
    var unconfirmedChanges: seq<Change>
    var confirmedChanges: seq<Change>
    var history: map<int, seq<Change>>
    var minVersion: int
    var currentVersion: int
    // The committed tables, and those of every height seen.
    ghost var base: Tables
    ghost var past: map<int, Tables>

    ghost predicate Valid()
      reads this, cache
    {
      cache.Valid() && cache.Coherent() && cache.Within() && cache.schemas == schemas
    }

    ghost function Pending(): seq<Change>
      reads this
    {
      confirmedChanges + unconfirmedChanges
    }

    ghost function View(): Tables
      reads this
    {
      Run(base, Pending())
    }

    // The cache shows the view: cached entities are its rows, and every touched row of it is cached unless capacity
    // disposal took it.
    ghost predicate Shows()
      reads this, cache
    {
      Showing(schemas, base, Pending(), cache.cache, cache.disposed)
    }

    constructor (cache: LRUEntityCache, maxHold: nat, ghost tables: Tables)
      requires cache.Valid() && cache.Coherent() && cache.Within() && cache.cache == map[]
      requires Consistent(cache.schemas, tables)
      ensures this.cache == cache && schemas == cache.schemas && maxHistoryVersionsHold == maxHold
      ensures Valid() && Shows() && Pending() == [] && !confirming && base == tables
      ensures minVersion == -1 == currentVersion && history == map[] && past == map[-1 := tables]
    {
      this.cache := cache;
      schemas := cache.schemas;
      maxHistoryVersionsHold := maxHold;
      confirming := false;
      unconfirmedChanges, confirmedChanges := [], [];
      history := map[];
      minVersion, currentVersion := -1, -1;
      base := tables;
      past := map[-1 := tables];
    }

    /** Pushes a change on the stack in use. */
    method Push(c: Change)
      modifies this`unconfirmedChanges, this`confirmedChanges
      requires !confirming ==> unconfirmedChanges == []
      ensures Pending() == old(Pending()) + [c]
      ensures if confirming then confirmedChanges == old(confirmedChanges)
              else unconfirmedChanges == old(unconfirmedChanges)
    {
      if confirming {
        unconfirmedChanges := unconfirmedChanges + [c];
      } else {
        confirmedChanges := confirmedChanges + [c];
      }
      assert Pending() == old(Pending()) + [c];
    }

    /** Starts tracking a new entity: cached, and a create pending. */
    method TrackNew(key: Key, entity: Row) returns (r: Outcome, ghost gone: Option<Key>)
      requires Valid() && Shows() && key.model in schemas.models && (!confirming ==> unconfirmedChanges == [])
      modifies this`unconfirmedChanges, this`confirmedChanges, cache
      ensures r.AlreadyTracking? <==> key in old(cache.cache)
      ensures r.AlreadyTracking? ==> cache.cache == old(cache.cache) && cache.disposed == old(cache.disposed)
      ensures !r.AlreadyTracking? ==>
                Cached(old(cache.cache), old(cache.disposed), key, NewEntity(schemas.models[key.model], entity), gone)
      ensures !r.AlreadyTracking? ==>
                && key in cache.cache
                && Enters(schemas, old(cache.cache).Keys, old(cache.disposed), key, cache.cache.Keys, cache.disposed)
      ensures r.Done? ==> Valid() && View() == Created(schemas, old(View()), key, entity)
      ensures r.Done? ==> (Shows() <==> key !in old(View()) && Consistent(schemas, View()))
      ensures r.Done? ==> if confirming then confirmedChanges == old(confirmedChanges)
              else unconfirmedChanges == old(unconfirmedChanges)
      ensures r.UniqueClash? ==> !cache.Coherent() && !Consistent(schemas, Created(schemas, old(View()), key, entity))
      ensures !r.Done? ==> confirmedChanges == old(confirmedChanges) && unconfirmedChanges == old(unconfirmedChanges)
    {
      if key in cache.cache {
        return AlreadyTracking, None;
      }
      var copy := NewEntity(schemas.models[key.model], entity);
      var ok;
      ok, gone := PutInCache(key, copy);
      CreateShown(schemas, base, old(Pending()), old(cache.cache), old(cache.disposed), key, copy, gone);
      if !ok {
        return UniqueClash, gone;
      }
      Push(CreateChange(schemas.models[key.model], key, copy));
      r := Done;
    }

    // The cache after an entity was put into it.
    ghost predicate Cached(before: Tables, disposed: set<Key>, key: Key, entity: Row, gone: Option<Key>)
      requires key.model in schemas.models
      reads cache
    {
      && Trimmed(schemas, before.Keys + {key}, key, gone)
      && cache.cache == Disposed(before[key := entity], gone)
      && cache.disposed == disposed - {key} + KeysOf(gone)
    }

    // Puts an entity that is not cached into the cache. False is the error of a clash.
    method PutInCache(key: Key, entity: Row) returns (ok: bool, ghost gone: Option<Key>)
      requires Valid() && key.model in schemas.models && key !in cache.cache
      modifies cache
      ensures Cached(old(cache.cache), old(cache.disposed), key, entity, gone)
      ensures Enters(schemas, old(cache.cache).Keys, old(cache.disposed), key, cache.cache.Keys, cache.disposed)
      ensures key in cache.cache && cache.cache[key] == entity
      ensures (ok <==> !ClashIn(cache.cache, key, entity, schemas)) && (ok <==> cache.Coherent()) && (ok ==> Valid())
    {
      ok, gone := cache.Put(key, entity);
      WithoutKeys(old(cache.cache), key, entity, gone);
      assert EntersBut(schemas, old(cache.cache).Keys, old(cache.disposed), key, cache.cache.Keys, cache.disposed,
                       gone);
    }

    /** Starts tracking an entity read from the tables. */
    method TrackPersistent(key: Key, entity: Row) returns (r: Outcome, ghost gone: Option<Key>)
      requires Valid() && key.model in schemas.models
      modifies cache
      ensures r.AlreadyTracking? <==> key in old(cache.cache)
      ensures !r.AlreadyTracking? ==> Cached(old(cache.cache), old(cache.disposed), key, entity, gone)
      ensures !r.AlreadyTracking? ==>
                && key in cache.cache && cache.cache[key] == entity
                && Enters(schemas, old(cache.cache).Keys, old(cache.disposed), key, cache.cache.Keys, cache.disposed)
      ensures r.AlreadyTracking? ==> cache.cache == old(cache.cache) && cache.disposed == old(cache.disposed)
      ensures r.UniqueClash? <==> !cache.Coherent()
      ensures !r.UniqueClash? ==> Valid()
      ensures !r.AlreadyTracking? && !ClashIn(cache.cache, key, entity, schemas) ==> r.Done?
      ensures !r.AlreadyTracking? && old(Shows()) ==>
                (r.Done? && Shows() <==> key in View() && View()[key] == Columns(schemas.models[key.model], entity))
    {
      if key in cache.cache {
        return AlreadyTracking, None;
      }
      var ok;
      ok, gone := PutInCache(key, entity);
      r := if ok then Done else UniqueClash;
      if old(Shows()) {
        LoadShown(schemas, base, Pending(), old(cache.cache), old(cache.disposed), key, entity, gone);
      }
    }

    /** Deletes a tracked entity. */
    method TrackDelete(key: Key)
      requires Valid() && key in cache.cache && (!confirming ==> unconfirmedChanges == [])
      modifies this`unconfirmedChanges, this`confirmedChanges, cache
      ensures Valid() && cache.cache == old(cache.cache) - {key} && cache.disposed == old(cache.disposed)
      ensures key.model in schemas.models
      ensures Pending() == old(Pending())
              + [DeleteChange(schemas.models[key.model], key, old(cache.cache)[key], VersionOf(old(cache.cache)[key]))]
      ensures old(Shows()) ==> Shows() && View() == old(View()) - {key}
      ensures if confirming then confirmedChanges == old(confirmedChanges)
              else unconfirmedChanges == old(unconfirmedChanges)
    {
      var trackingEntity := cache.cache[key];
      if Shows() {
        ShownVersion(schemas, base, Pending(), cache.cache, cache.disposed, key);
        DeleteShown(schemas, base, Pending(), cache.cache, cache.disposed, key, VersionOf(trackingEntity));
      }
      Push(DeleteChange(schemas.models[key.model], key, trackingEntity, VersionOf(trackingEntity)));
      assert old(Shows()) ==> Showing(schemas, base, Pending(), cache.cache - {key}, cache.disposed);
      RemoveWithin(schemas, cache.cache, key);
      cache.Evict(key);
    }

    /** Modifies a tracked entity. Only real changes of columns count; with none, nothing happens. False is the
        error of a unique clash, raised after the change was pushed. */
    method TrackModify(key: Key, modifier: Values) returns (ok: bool)
      requires Valid() && key in cache.cache && (!confirming ==> unconfirmedChanges == [])
      modifies this`unconfirmedChanges, this`confirmedChanges, cache
      ensures key.model in schemas.models
      ensures cache.cache.Keys == old(cache.cache).Keys && cache.disposed == old(cache.disposed)
      ensures (ok <==> cache.Coherent()) && (ok ==> Valid())
      ensures old(Shows()) ==>
                && key in old(View()) && View() == Updated(schemas, old(View()), key, modifier)
                && (ok && Shows() <==> Consistent(schemas, View()))
      ensures ok && Shows() && RowOk(schemas.models[key.model], old(cache.cache)[key]) ==>
                key in old(View()) && old(View())[key] == old(cache.cache)[key]
      ensures if confirming then confirmedChanges == old(confirmedChanges)
              else unconfirmedChanges == old(unconfirmedChanges)
    {
      if Shows() {
        ModifyTracked(schemas, base, Pending(), cache.cache, cache.disposed, key, modifier);
      }
      ghost var cs, entity := Pending(), cache.cache[key];
      ok := ModifyAndPush(key, modifier);
      if Shows() && RowOk(schemas.models[key.model], entity) {
        StaleModify(schemas, base, cs, cache.cache, cache.disposed, key, entity, modifier);
      }
    }

    // The steps of TrackModify.
    method ModifyAndPush(key: Key, modifier: Values) returns (ok: bool)
      requires Valid() && key in cache.cache && (!confirming ==> unconfirmedChanges == [])
      modifies this`unconfirmedChanges, this`confirmedChanges, cache
      ensures key.model in schemas.models
      ensures Pending() == old(Pending())
              + ModifyChanges(schemas.models[key.model], key, old(cache.cache)[key], modifier)
      ensures cache.cache == old(cache.cache)[key := ModifiedEntity(schemas.models[key.model], old(cache.cache)[key],
                                                                    modifier)]
      ensures cache.disposed == old(cache.disposed)
      ensures (ok <==> cache.Coherent()) && (ok ==> Valid())
      ensures !ClashIn(cache.cache, key, cache.cache[key], schemas) ==> ok
      ensures if confirming then confirmedChanges == old(confirmedChanges)
              else unconfirmedChanges == old(unconfirmedChanges)
    {
      var entity := cache.cache[key];
      var values := RealChanges(schemas.models[key.model], entity, modifier);
      if values == map[] {
        assert ModifyChanges(schemas.models[key.model], key, entity, modifier) == [];
        assert old(Pending()) + [] == old(Pending());
        assert cache.cache[key := entity] == cache.cache;
        ok := true;
      } else {
        assert ModifyChanges(schemas.models[key.model], key, entity, modifier)
               == [ModifyChange(key, entity[VERSION := Num(VersionOf(entity) + 1)], values, VersionOf(entity) + 1)];
        ok := PushAndRefresh(key, VersionOf(entity) + 1, values);
      }
    }

    // A modification by at least one value.
    method PushAndRefresh(key: Key, version: int, values: Values) returns (ok: bool)
      requires Valid() && key in cache.cache && (!confirming ==> unconfirmedChanges == [])
      modifies this`unconfirmedChanges, this`confirmedChanges, cache
      ensures Pending() == old(Pending())
              + [ModifyChange(key, old(cache.cache)[key][VERSION := Num(version)], values, version)]
      ensures cache.cache == old(cache.cache)[key := Overwrite(old(cache.cache)[key][VERSION := Num(version)], values)]
      ensures cache.disposed == old(cache.disposed)
      ensures (ok <==> cache.Coherent()) && (ok ==> Valid())
      ensures !ClashIn(cache.cache, key, cache.cache[key], schemas) ==> ok
      ensures if confirming then confirmedChanges == old(confirmedChanges)
              else unconfirmedChanges == old(unconfirmedChanges)
    {
      Push(ModifyChange(key, cache.cache[key][VERSION := Num(version)], values, version));
      ok := RefreshTracked(key, version, values);
    }

    // Counts the version of a tracked entity up in place, then writes its new values.
    method RefreshTracked(key: Key, version: int, values: Values) returns (ok: bool)
      requires Valid() && key in cache.cache
      modifies cache
      ensures cache.cache == old(cache.cache)[key := Overwrite(old(cache.cache)[key][VERSION := Num(version)], values)]
      ensures cache.disposed == old(cache.disposed) && cache.cache.Keys == old(cache.cache).Keys
      ensures ok <==> cache.Coherent()
      ensures ok ==> Valid()
      ensures !ClashIn(cache.cache, key, cache.cache[key], schemas) ==> ok
    {
      var bumped := cache.cache[key][VERSION := Num(version)];
      AssignWithin(schemas, cache.cache, key, bumped);
      LastUpdate(cache.cache, key, bumped, Overwrite(bumped, values));
      cache.AssignInPlace(key, bumped);
      ok := cache.RefreshCached(key, values);
      assert cache.cache == old(cache.cache)[key := Overwrite(bumped, values)];
    }

    /******* Undo *******/

    /** Takes one change back in the cache. */
    method UndoEntityChanges(c: Change, ghost before: Tables, ghost keys: set<Key>)
      requires Valid() && Consistent(schemas, before) && Fits(before, c) && Consistent(schemas, Apply(before, c))
      requires Agrees(schemas, cache.cache, Apply(before, c))
      requires Resident(keys, Apply(before, c), cache.cache.Keys, cache.disposed)
      modifies cache
      ensures Valid() && Agrees(schemas, cache.cache, before)
      ensures Resident(keys, before, cache.cache.Keys, cache.disposed)
    {
      assert c.key.model in schemas.models by { assert c.key in before || c.key in Apply(before, c); }
      ghost var gone: Option<Key> := None;
      match c.kind {
        case New => UndoCreate(c);
        case Modify => UndoModify(c, before);
        case Delete => gone := UndoDelete(c, before);
      }
      UndoAgrees(schemas, before, c, old(cache.cache), gone);
      UndoResident(keys, before, c, old(cache.cache), old(cache.disposed), gone);
    }

    method UndoCreate(c: Change)
      requires Valid() && c.kind.New? && c.key.model in schemas.models
      modifies cache
      ensures Valid() && cache.cache == UndoneCache(old(cache.cache), c, None) && cache.disposed == old(cache.disposed)
    {
      if c.key in cache.cache {
        RemoveWithin(schemas, cache.cache, c.key);
        cache.Evict(c.key);
      }
    }

    method UndoModify(c: Change, ghost before: Tables)
      requires Valid() && c.kind.Modify? && c.key.model in schemas.models
      requires Consistent(schemas, before) && Fits(before, c) && Agrees(schemas, cache.cache, Apply(before, c))
      modifies cache
      ensures Valid() && cache.cache == UndoneCache(old(cache.cache), c, None) && cache.disposed == old(cache.disposed)
    {
      if c.key in cache.cache {
        UndoneNoClash(schemas, before, c, cache.cache, None);
      }
      var _ := cache.RefreshCached(c.key, Originals(c));
    }

    method UndoDelete(c: Change, ghost before: Tables) returns (ghost gone: Option<Key>)
      requires Valid() && c.kind.Delete? && c.key.model in schemas.models
      requires Consistent(schemas, before) && Fits(before, c) && Agrees(schemas, cache.cache, Apply(before, c))
      modifies cache
      ensures Valid() && (gone.Some? ==> gone.value != c.key)
      ensures cache.cache == UndoneCache(old(cache.cache), c, gone)
              && cache.disposed == UndoneDisposed(old(cache.disposed), c, gone)
    {
      var r;
      r, gone := TrackPersistent(c.key, ObjectOf(Originals(c)));
      UndoneNoClash(schemas, before, c, old(cache.cache), gone);
    }

    /** Takes a stack of changes back, newest first. */
    method UndoChanges(changes: seq<Change>, ghost t: Tables, ghost keys: set<Key>)
      requires Valid() && Sound(schemas, t, changes) && Agrees(schemas, cache.cache, Run(t, changes))
      requires Resident(keys, Run(t, changes), cache.cache.Keys, cache.disposed)
      modifies cache
      ensures Valid() && Agrees(schemas, cache.cache, t) && Resident(keys, t, cache.cache.Keys, cache.disposed)
    {
      var left := changes;
      while left != []
        invariant Valid() && Sound(schemas, t, left) && Agrees(schemas, cache.cache, Run(t, left))
        invariant Resident(keys, Run(t, left), cache.cache.Keys, cache.disposed)
        decreases |left|
      {
        var one := left[|left| - 1];
        left := left[..|left| - 1];
        SoundFits(schemas, t, left);
        UndoEntityChanges(one, Run(t, left), keys);
      }
    }

    /******* Contract transactions *******/

    method BeginConfirm()
      modifies this`confirming, this`unconfirmedChanges
      ensures confirming && unconfirmedChanges == []
      ensures old(unconfirmedChanges) == [] ==> Pending() == old(Pending())
    {
      confirming := true;
      unconfirmedChanges := [];
    }

    method Confirm()
      modifies this`confirming, this`unconfirmedChanges, this`confirmedChanges
      ensures !confirming && unconfirmedChanges == []
      ensures Pending() == old(Pending())
    {
      confirmedChanges := confirmedChanges + unconfirmedChanges;
      unconfirmedChanges := [];
      confirming := false;
    }

    /** Takes all changes since BeginConfirm back: the view is the one of the confirmed changes again, and the cache
        shows it. Of any keys whose rows were cached or disposed of, those back in the view are so again. */
    method CancelConfirm(ghost keys: set<Key>)
      requires Valid() && Shows() && Resident(keys, View(), cache.cache.Keys, cache.disposed)
      modifies this`confirming, this`unconfirmedChanges, cache
      ensures Valid() && Shows()
      ensures !confirming && unconfirmedChanges == [] && confirmedChanges == old(confirmedChanges)
      ensures Resident(keys + Touched(old(Pending())), View(), cache.cache.Keys, cache.disposed)
    {
      SoundAppend(schemas, base, confirmedChanges, unconfirmedChanges);
      UndoChanges(unconfirmedChanges, Run(base, confirmedChanges), keys + Touched(Pending()));
      unconfirmedChanges := [];
      confirming := false;
      assert Pending() == confirmedChanges;
    }

    /** Takes every pending change back: the cache shows the committed tables. */
    method RejectChanges()
      requires Valid() && Shows()
      modifies this`confirming, this`unconfirmedChanges, this`confirmedChanges, cache
      ensures Valid() && Shows() && Pending() == [] && !confirming
      ensures Resident(Touched(old(Pending())), base, cache.cache.Keys, cache.disposed)
    {
      CancelConfirm({});
      assert Pending() == confirmedChanges;
      UndoChanges(confirmedChanges, base, Touched(old(Pending())));
      confirmedChanges := [];
      assert Pending() == [];
      SoundFits(schemas, base, old(Pending()));
    }

    /******* History *******/

    ghost predicate HistoryOk()
      reads this
    {
      Narrates(schemas, past, history, minVersion, currentVersion, base)
    }

    /** Makes the confirmed changes the history of a height; the changed tables are the committed ones. */
    method AcceptChanges(height: int)
      requires Shows() && HistoryOk() && unconfirmedChanges == []
      requires if currentVersion == -1 && history == map[] then 0 <= height else height == currentVersion + 1
      modifies this
      ensures Shows() && Pending() == [] && confirming == old(confirming)
      ensures base == old(View()) && past == old(past)[height - 1 := old(base)][height := base]
      ensures HistoryOk() && currentVersion == height && height in history && history[height] == old(confirmedChanges)
      ensures currentVersion - minVersion <= maxHistoryVersionsHold + 1
      ensures minVersion == AcceptedMin(old(minVersion), old(currentVersion), height, maxHistoryVersionsHold)
    {
      assert Pending() == confirmedChanges;
      ShowingCommitted(schemas, base, confirmedChanges, cache.cache, cache.disposed);
      AcceptedHistory(schemas, past, history, minVersion, currentVersion, height, base, confirmedChanges,
                      maxHistoryVersionsHold);
      RecordHeight(height);
      past := past[height - 1 := base][height := View()];
      base := View();
      confirmedChanges := [];
      assert Pending() == [];
    }

    // The history side of accepting.
    method RecordHeight(height: int)
      requires -1 <= minVersion <= currentVersion && (minVersion == -1 <==> currentVersion == -1)
      modifies this`history, this`minVersion, this`currentVersion
      ensures currentVersion == height
      ensures minVersion == AcceptedMin(old(minVersion), old(currentVersion), height, maxHistoryVersionsHold)
      ensures history == Kept(old(history)[height := confirmedChanges], old(minVersion),
                              if old(minVersion) == -1 then -1 else minVersion)
    {
      history := history[height := confirmedChanges];
      RemoveExpiredHistory();
      minVersion := if minVersion == -1 then height else minVersion;
      currentVersion := height;
    }

    /** Forgets the heights more than the hold below the current one. */
    method RemoveExpiredHistory()
      requires -1 <= minVersion <= currentVersion && (minVersion == -1 <==> currentVersion == -1)
      modifies this`history, this`minVersion
      ensures minVersion == if old(minVersion) == -1 then -1
              else Max(old(minVersion), currentVersion - maxHistoryVersionsHold)
      ensures history == Kept(old(history), old(minVersion), minVersion)
    {
      if currentVersion - minVersion > maxHistoryVersionsHold {
        ClearHistoryBefore(currentVersion - maxHistoryVersionsHold);
      }
    }

    method ClearHistoryBefore(height: int)
      modifies this`history, this`minVersion
      ensures old(minVersion) >= height || currentVersion < height ==>
                minVersion == old(minVersion) && history == old(history)
      ensures !(old(minVersion) >= height || currentVersion < height) ==> minVersion == height
      ensures history == Kept(old(history), old(minVersion), minVersion)
    {
      if !(minVersion >= height || currentVersion < height) {
        var index := minVersion;
        while index < height
          invariant minVersion == old(minVersion) <= index <= height
          invariant history == Kept(old(history), minVersion, index)
        {
          history := history - {index};
          index := index + 1;
        }
        minVersion := height;
      }
    }

    /** Adds loaded heights to the history and widens its window to them. */
    method AttachHistory(loaded: map<int, seq<Change>>)
      requires forall v | v in loaded :: 0 <= v
      modifies this`history, this`minVersion, this`currentVersion
      ensures history == old(history) + loaded
      ensures forall v | v in loaded :: minVersion <= v <= currentVersion
      ensures minVersion == old(minVersion) || minVersion in loaded
      ensures currentVersion == old(currentVersion) || currentVersion in loaded
      ensures old(currentVersion) <= currentVersion && (0 <= old(minVersion) ==> 0 <= minVersion <= old(minVersion))
      ensures loaded != map[] ==> 0 <= minVersion
    {
      var todo := loaded.Keys;
      while todo != {}
        invariant todo <= loaded.Keys
        invariant history == old(history) + map v | v in loaded && v !in todo :: loaded[v]
        invariant forall v | v in loaded && v !in todo :: minVersion <= v <= currentVersion
        invariant minVersion == old(minVersion) || minVersion in loaded
        invariant currentVersion == old(currentVersion) || currentVersion in loaded
        invariant old(currentVersion) <= currentVersion && (0 <= old(minVersion) ==> 0 <= minVersion <= old(minVersion))
        invariant todo != loaded.Keys ==> 0 <= minVersion
      {
        Inhabited(todo);
        var index: int :| index in todo;
        history := history[index := loaded[index]];
        minVersion := if minVersion < 0 then index else Min(index, minVersion);
        currentVersion := Max(index, currentVersion);
        todo := todo - {index};
      }
    }

    /** Loads the stored history down to a height. */
    method LoadHistoryUntil(height: int, stored: map<int, seq<Change>>)
      requires HistoryOk() && 0 <= height
      modifies this`history, this`minVersion, this`currentVersion
      ensures height >= old(minVersion) ==> history == old(history) && minVersion == old(minVersion)
      ensures currentVersion == old(currentVersion)
      ensures Chronicle(schemas, past, stored, height, old(minVersion)) ==>
                && HistoryOk()
                && (height < old(minVersion) ==> minVersion == height)
    {
      if height < minVersion {
        var loaded := map v | v in stored && height <= v <= minVersion :: stored[v];
        AttachHistory(loaded);
        if Chronicle(schemas, past, stored, height, old(minVersion)) {
          assert Recorded(schemas, past, stored, height) && height in loaded;
          forall v | height <= v <= currentVersion
            ensures Recorded(schemas, past, history, v) && v in history
          {
            if v <= old(minVersion) {
              assert Recorded(schemas, past, stored, v);
            } else {
              assert Recorded(schemas, past, old(history), v);
            }
          }
        }
      }
    }

    /** All changes from a height on, oldest first. */
    method GetChangesUntil(height: int, stored: map<int, seq<Change>>) returns (result: seq<Change>)
      requires HistoryOk() && 0 <= height
      modifies this`history, this`minVersion, this`currentVersion
      ensures currentVersion == old(currentVersion)
      ensures result == ChangesOf(history, height, currentVersion)
      ensures height >= old(minVersion) ==> history == old(history) && minVersion == old(minVersion)
      ensures Chronicle(schemas, past, stored, height, old(minVersion)) ==>
                HistoryOk() && Chronicle(schemas, past, history, height, currentVersion)
    {
      LoadHistoryUntil(height, stored);
      result := [];
      var h := height;
      while h <= currentVersion
        invariant height <= h && (h <= currentVersion + 1 || h == height)
        invariant result == ChangesOf(history, height, h - 1)
      {
        if h in history {
          result := result + history[h];
        }
        h := h + 1;
      }
      assert currentVersion < height ==> ChangesOf(history, height, currentVersion) == [];
    }

    /** Rolls the cache back to the height below the given one. It does so for the newest height only: asked for
        more, it returns with nothing done. False is the error of a height without history. */
    method RollbackChanges(toHeight: int, stored: map<int, seq<Change>>) returns (ok: bool)
      requires Valid() && Shows() && HistoryOk() && confirmedChanges == unconfirmedChanges == [] && 0 <= toHeight
      modifies this, cache
      ensures ok && Valid() && confirmedChanges == unconfirmedChanges == [] && confirming == old(confirming)
              && past == old(past)
      ensures toHeight != old(currentVersion) ==>
                && cache.cache == old(cache.cache) && cache.disposed == old(cache.disposed) && history == old(history)
                && minVersion == old(minVersion) && currentVersion == old(currentVersion) && base == old(base)
                && HistoryOk()
      ensures toHeight == old(currentVersion) ==>
                && toHeight - 1 in past && base == past[toHeight - 1] && Shows()
                && currentVersion == toHeight - 1 && minVersion == Min(old(minVersion), currentVersion)
                && (HistoryOk() <==> old(minVersion) < old(currentVersion) || currentVersion == -1)
    {
      ok := true;
      if toHeight < currentVersion {
        return;
      }
      LoadHistoryUntil(toHeight, stored);
      if currentVersion == toHeight {
        RolledBackHistory(schemas, past, history, minVersion, currentVersion, base);
      }
      while currentVersion >= toHeight
        invariant currentVersion == old(currentVersion) || currentVersion == toHeight - 1 == old(currentVersion) - 1
        invariant ok && Valid() && Shows() && minVersion == old(minVersion)
        invariant currentVersion == old(currentVersion) ==>
                    && cache.cache == old(cache.cache) && cache.disposed == old(cache.disposed)
                    && history == old(history) && base == old(base)
        invariant currentVersion != old(currentVersion) ==>
                    currentVersion in past && base == past[currentVersion] && history == old(history)[toHeight := []]
        invariant currentVersion == old(currentVersion) ==> HistoryOk()
        decreases currentVersion
        modifies this`history, this`currentVersion, this`base, cache
      {
        ok := UndoNewest();
      }
      minVersion := Min(minVersion, currentVersion);
    }

    // One round of the loop over the heights: takes the newest height back. Its history entry is used up.
    method UndoNewest() returns (ok: bool)
      requires Valid() && Shows() && HistoryOk() && confirmedChanges == unconfirmedChanges == [] && 0 <= currentVersion
      modifies this`history, this`currentVersion, this`base, cache
      ensures ok && Valid() && Shows() && currentVersion == old(currentVersion) - 1
      ensures currentVersion in past && base == past[currentVersion]
      ensures history == old(history)[old(currentVersion) := []]
    {
      assert Recorded(schemas, past, history, currentVersion);
      if currentVersion !in history {
        return false;
      }
      ghost var below := past[currentVersion - 1];
      assert base == past[currentVersion] == Run(below, history[currentVersion]);
      SoundFits(schemas, below, history[currentVersion]);
      assert Pending() == [];
      UndoChanges(history[currentVersion], below, {});
      history := history[currentVersion := []];
      base := below;
      currentVersion := currentVersion - 1;
      assert Pending() == [];
      ok := true;
    }
  }

  function Min(a: int, b: int): int {
    if a < b then a else b
  }
}
