/** The entity cache of a session with its unique indexes.

The per-model caches of the source are kept in one map keyed by (model, id), and
likewise the indexes; every operation works on the entries of one model. */
module EntityCaches {
  import opened Rows

  const MIN_CACHED_COUNT: nat := 100
  const DEFAULT_MAX_CACHED_COUNT: nat := 50000

  // None is unbounded, 0 is not given.
  function MaxCachedCount(s: Schema): Option<nat> {
    match s.maxCached
    case None => None
    case Some(n) =>
      var wanted := if n == 0 then DEFAULT_MAX_CACHED_COUNT else n;
      Some(if wanted < MIN_CACHED_COUNT then MIN_CACHED_COUNT else wanted)
  }

  /******* One unique index *******/

  /** Indexed value to primary key. */
  datatype UniqueIndex = UniqueIndex(indexMap: map<IndexValue, Key>) {
    function Get(v: IndexValue): Option<Key> {
      if v in indexMap then Some(indexMap[v]) else None
    }

    /** Adds an entry; None is the error for a value that is present. */
    function Add(v: IndexValue, key: Key): (r: Option<UniqueIndex>)
      ensures r.None? <==> Get(v).Some?
      ensures r.Some? ==> forall w :: r.value.Get(w) == if w == v then Some(key) else Get(w)
    {
      if v in indexMap then None else Some(UniqueIndex(indexMap[v := key]))
    }

    function Delete(v: IndexValue): (r: UniqueIndex)
      ensures forall w :: r.Get(w) == if w == v then None else Get(w)
    {
      UniqueIndex(indexMap - {v})
    }
  }

  // What an index must hold: exactly the pairs (indexed value, primary key) of the model's all-truthy entities.
  ghost predicate Indexes(m: map<IndexValue, Key>, fields: seq<string>, model: string, cache: Tables) {
    && (forall v | v in m ::
          m[v] in cache && m[v].model == model && IndexValueOf(cache[m[v]], fields) == v && AllTruthy(v))
    && (forall k | k in cache && k.model == model && AllTruthy(IndexValueOf(cache[k], fields)) ::
          IndexValueOf(cache[k], fields) in m && m[IndexValueOf(cache[k], fields)] == k)
  }

  ghost predicate Indexed(i: UniqueIndex, fields: seq<string>, model: string, cache: Tables) {
    Indexes(i.indexMap, fields, model, cache)
  }

  // Another entity of the model has the same all-truthy value.
  predicate Clash(cache: Tables, key: Key, r: Row, fields: seq<string>) {
    && AllTruthy(IndexValueOf(r, fields))
    && exists other | other in cache ::
          other.model == key.model && other != key && IndexValueOf(cache[other], fields) == IndexValueOf(r, fields)
  }

  ghost predicate ClashIn(cache: Tables, key: Key, r: Row, s: Schemas) {
    exists n | n in s.uniques && n.model == key.model :: Clash(cache, key, r, s.uniques[n])
  }

  // The index has the entity, which clashes with none.
  ghost predicate Entered(i: UniqueIndex, fields: seq<string>, model: string, cache: Tables, key: Key)
    requires key in cache
  {
    Indexed(i, fields, model, cache) && (model == key.model ==> !Clash(cache, key, cache[key], fields))
  }

  // The answer of a linear scan: the only entity of the model with that all-truthy value, if there is one.
  ghost predicate ScanAnswer(cache: Tables, fields: seq<string>, model: string, v: IndexValue, answer: Option<Row>) {
    match answer
    case None => forall k | k in cache && k.model == model && AllTruthy(v) :: IndexValueOf(cache[k], fields) != v
    case Some(r) =>
      && AllTruthy(v)
      && exists k | k in cache && k.model == model ::
           && cache[k] == r && IndexValueOf(r, fields) == v
           && forall l | l in cache && l.model == model && IndexValueOf(cache[l], fields) == v :: l == k
  }

  lemma EvictMeaning(m: map<IndexValue, Key>, fields: seq<string>, model: string, cache: Tables, key: Key)
    requires key in cache && Indexes(m, fields, model, cache)
    ensures key.model == model ==> Indexes(m - {IndexValueOf(cache[key], fields)}, fields, model, cache - {key})
    ensures key.model != model ==> Indexes(m, fields, model, cache - {key})
  {
    var v := IndexValueOf(cache[key], fields);
    var cache' := cache - {key};
    var m' := if key.model == model then m - {v} else m;
    forall w | w in m'
      ensures m'[w] in cache' && m'[w].model == model && IndexValueOf(cache'[m'[w]], fields) == w && AllTruthy(w)
    {
      assert m[w] in cache;
    }
    forall k | k in cache' && k.model == model && AllTruthy(IndexValueOf(cache'[k], fields))
      ensures IndexValueOf(cache'[k], fields) in m' && m'[IndexValueOf(cache'[k], fields)] == k
    {
      assert cache[k] == cache'[k];
      assert IndexValueOf(cache[k], fields) in m;
    }
  }

  // Adding one entity to an index of the others: its value is present just when there is a clash.
  lemma AddMeaning(m: map<IndexValue, Key>, fields: seq<string>, cache: Tables, key: Key, v: IndexValue)
    requires key in cache && Indexes(m, fields, key.model, cache - {key})
    requires v == IndexValueOf(cache[key], fields)
    ensures AllTruthy(v) ==> (v in m <==> Clash(cache, key, cache[key], fields))
    ensures AllTruthy(v) && v !in m ==> Indexes(m[v := key], fields, key.model, cache)
    ensures !AllTruthy(v) ==> Indexes(m, fields, key.model, cache) && !Clash(cache, key, cache[key], fields)
  {
    var rest := cache - {key};
    var m' := if AllTruthy(v) then m[v := key] else m;
    if AllTruthy(v) && Clash(cache, key, cache[key], fields) {
      var other :| other in cache && other.model == key.model && other != key
          && IndexValueOf(cache[other], fields) == v;
      assert rest[other] == cache[other];
    }
    if v !in m || !AllTruthy(v) {
      forall w | w in m'
        ensures m'[w] in cache && m'[w].model == key.model && IndexValueOf(cache[m'[w]], fields) == w && AllTruthy(w)
      {
        if w in m && !(AllTruthy(v) && w == v) { assert m[w] in rest; }
      }
      forall k | k in cache && k.model == key.model && AllTruthy(IndexValueOf(cache[k], fields))
        ensures IndexValueOf(cache[k], fields) in m' && m'[IndexValueOf(cache[k], fields)] == k
      {
        if k != key { assert rest[k] == cache[k]; }
      }
    }
  }

  lemma AssignMeaning(m: map<IndexValue, Key>, fields: seq<string>, model: string, cache: Tables, key: Key, r: Row)
    requires key in cache && Indexes(m, fields, model, cache)
    requires key.model == model ==> IndexValueOf(r, fields) == IndexValueOf(cache[key], fields)
    ensures Indexes(m, fields, model, cache[key := r])
  {
    var cache' := cache[key := r];
    forall k | k in cache' && k.model == model
      ensures k in cache && IndexValueOf(cache'[k], fields) == IndexValueOf(cache[k], fields)
    {
    }
  }

  lemma ClashIsIncoherent(m: map<IndexValue, Key>, fields: seq<string>, cache: Tables, key: Key)
    requires key in cache && Clash(cache, key, cache[key], fields)
    ensures !Indexes(m, fields, key.model, cache)
  {
    var v := IndexValueOf(cache[key], fields);
    var other :| other in cache && other.model == key.model && other != key && IndexValueOf(cache[other], fields) == v;
  }

  lemma OtherKey(s: set<Key>, key: Key)
    requires |s| > 1
    ensures exists other :: other in s && other != key
  {
    var rest := s - {key};
    assert s == if key in s then rest + {key} else rest;
    assert rest != {};
    var other :| other in rest;
  }

  /******* Capacity *******/

  function ModelKeys(cached: set<Key>, model: string): set<Key> {
    set k | k in cached && k.model == model
  }

  predicate Full(s: Schema, cached: set<Key>, model: string) {
    var max := MaxCachedCount(s);
    max.Some? && |ModelKeys(cached, model)| > max.value
  }

  // The model's cache has a limit.
  predicate Bounded(schemas: Schemas, model: string) {
    model in schemas.models && MaxCachedCount(schemas.models[model]).Some?
  }

  ghost predicate WithinCapacity(schemas: Schemas, cached: set<Key>) {
    forall m | m in schemas.models :: !Full(schemas.models[m], cached, m)
  }

  lemma RemoveWithin(schemas: Schemas, cache: Tables, key: Key)
    requires WithinCapacity(schemas, cache.Keys)
    ensures WithinCapacity(schemas, (cache - {key}).Keys)
  {
    FewerWithin(schemas, cache.Keys, key);
    assert (cache - {key}).Keys == cache.Keys - {key};
  }

  // What was cached has room.
  lemma RoomBack(schemas: Schemas, cache: Tables, key: Key)
    requires WithinCapacity(schemas, cache.Keys) && key in cache && key.model in schemas.models
    ensures WithinCapacity(schemas, (cache - {key}).Keys)
    ensures !Full(schemas.models[key.model], (cache - {key}).Keys + {key}, key.model)
  {
    RemoveWithin(schemas, cache, key);
    assert (cache - {key}).Keys + {key} == cache.Keys;
  }

  lemma WithoutKeys(cache: Tables, key: Key, r: Row, victim: Option<Key>)
    ensures Disposed(cache[key := r], victim).Keys == cache.Keys + {key} - KeysOf(victim)
  {
  }

  lemma FewerWithin(schemas: Schemas, cached: set<Key>, key: Key)
    requires WithinCapacity(schemas, cached)
    ensures WithinCapacity(schemas, cached - {key})
  {
    forall m | m in schemas.models
      ensures |ModelKeys(cached - {key}, m)| <= |ModelKeys(cached, m)|
    {
      assert ModelKeys(cached - {key}, m) == ModelKeys(cached, m) - {key};
    }
  }

  lemma AssignWithin(schemas: Schemas, cache: Tables, key: Key, r: Row)
    requires WithinCapacity(schemas, cache.Keys) && key in cache
    ensures WithinCapacity(schemas, cache[key := r].Keys)
  {
    assert cache[key := r].Keys == cache.Keys;
  }

  // The victim of a disposal, if there was one, removed.
  function Disposed(cache: Tables, victim: Option<Key>): Tables {
    if victim.None? then cache else cache - {victim.value}
  }

  function KeysOf(victim: Option<Key>): set<Key> {
    if victim.None? then {} else {victim.value}
  }

  // There is a victim just when the new key made its model full; it is another key of that model.
  ghost predicate Trimmed(schemas: Schemas, cached: set<Key>, key: Key, victim: Option<Key>)
    requires key.model in schemas.models
  {
    && (victim.Some? <==> Full(schemas.models[key.model], cached, key.model))
    && (victim.Some? ==> victim.value in cached && victim.value.model == key.model && victim.value != key)
  }

  // A key enters the cache; another one of a full model makes room.
  ghost predicate EntersBut(s: Schemas, cached: set<Key>, disposed: set<Key>, key: Key, cached': set<Key>,
                            disposed': set<Key>, gone: Option<Key>)
    requires key.model in s.models
  {
    && Trimmed(s, cached + {key}, key, gone)
    && cached' == cached + {key} - KeysOf(gone) && disposed' == disposed - {key} + KeysOf(gone)
  }

  ghost predicate Enters(s: Schemas, cached: set<Key>, disposed: set<Key>, key: Key, cached': set<Key>,
                         disposed': set<Key>)
    requires key.model in s.models
  {
    exists gone :: EntersBut(s, cached, disposed, key, cached', disposed', gone)
  }

  ghost predicate Loads(s: Schemas, cached: set<Key>, disposed: set<Key>, key: Key, cached': set<Key>,
                        disposed': set<Key>)
    requires key.model in s.models
  {
    if key in cached then cached' == cached && disposed' == disposed
    else Enters(s, cached, disposed, key, cached', disposed')
  }

  lemma StoreWithin(schemas: Schemas, cached: set<Key>, key: Key, victim: Option<Key>)
    requires WithinCapacity(schemas, cached) && key !in cached && key.model in schemas.models
    requires Trimmed(schemas, cached + {key}, key, victim)
    ensures WithinCapacity(schemas, cached + {key} - KeysOf(victim))
  {
    var c1 := cached + {key};
    var c2 := c1 - KeysOf(victim);
    assert ModelKeys(c1, key.model) == ModelKeys(cached, key.model) + {key};
    if victim.Some? {
      assert victim.value in ModelKeys(c1, key.model);
      assert ModelKeys(c2, key.model) == ModelKeys(c1, key.model) - {victim.value};
    } else {
      assert c2 == c1;
    }
    forall m | m in schemas.models && m != key.model
      ensures ModelKeys(c2, m) == ModelKeys(cached, m)
    {
    }
  }

  /******* The cache *******/

  class LRUEntityCache {
    const schemas: Schemas
    var cache: Tables
    var indexes: map<IndexName, UniqueIndex>
    // Keys that capacity disposal dropped and that were not stored again.
    ghost var disposed: set<Key>

    ghost predicate Valid()
      reads this
    {
      && WellFormed(schemas)
      && (forall k | k in cache :: k.model in schemas.models)
      && indexes.Keys == schemas.uniques.Keys
      && (forall k | k in disposed :: k !in cache && Bounded(schemas, k.model))
    }

    ghost predicate Within()
      reads this
    {
      WithinCapacity(schemas, cache.Keys)
    }

    ghost predicate Coherent()
      reads this
    {
      forall n | n in indexes && n in schemas.uniques :: Indexed(indexes[n], schemas.uniques[n], n.model, cache)
    }

    // Each index is right for the cache without one key.
    ghost predicate CoherentWithout(key: Key)
      reads this
    {
      forall n | n in indexes && n in schemas.uniques :: Indexed(indexes[n], schemas.uniques[n], n.model, cache - {key})
    }

    constructor (schemas: Schemas)
      requires WellFormed(schemas)
      ensures Valid() && Coherent()
      ensures this.schemas == schemas && cache == map[] && disposed == {}
    {
      this.schemas := schemas;
      cache := map[];
      disposed := {};
      indexes := map n | n in schemas.uniques :: UniqueIndex(map[]);
    }

    function Get(key: Key): Option<Row>
      reads this
    {
      if key in cache then Some(cache[key]) else None
    }

    predicate Exists(key: Key)
      reads this
    {
      Get(key).Some?
    }

    /** Drops the index entries of an entity that left the cache. */
    method AfterEvict(model: string, r: Row)
      requires Valid()
      modifies this`indexes
      ensures Valid()
      ensures forall n | n in indexes ::
                indexes[n] == if n.model == model then old(indexes[n]).Delete(IndexValueOf(r, schemas.uniques[n]))
                    else old(indexes[n])
    {
      var todo := set n | n in indexes && n.model == model;
      ghost var all := todo;
      while todo != {}
        invariant todo <= all && Valid()
        invariant forall n | n in indexes && n !in all - todo :: indexes[n] == old(indexes[n])
        invariant forall n | n in all - todo ::
                    n in indexes && indexes[n] == old(indexes[n]).Delete(IndexValueOf(r, schemas.uniques[n]))
      {
        var n :| n in todo;
        indexes := indexes[n := indexes[n].Delete(IndexValueOf(r, schemas.uniques[n]))];
        todo := todo - {n};
      }
    }

    /** Evicts one entity. The library reports the disposal, and the caller drops the index entries again. */
    method Evict(key: Key)
      requires Valid()
      modifies this
      ensures Valid() && cache == old(cache) - {key} && disposed == old(disposed)
      ensures old(Coherent()) ==> Coherent()
    {
      if key in cache {
        var r := cache[key];
        cache := cache - {key};
        AfterEvict(key.model, r);
        AfterEvict(key.model, r);
        if old(Coherent()) {
          forall n | n in indexes
            ensures Indexed(indexes[n], schemas.uniques[n], n.model, cache)
          {
            EvictMeaning(old(indexes[n].indexMap), schemas.uniques[n], n.model, old(cache), key);
          }
        }
      }
    }

    /** Disposes of an entity for capacity. */
    method Dispose(victim: Key, ghost key: Key)
      requires Valid() && victim in cache && victim != key && CoherentWithout(key) && Bounded(schemas, victim.model)
      modifies this
      ensures Valid() && CoherentWithout(key)
      ensures cache == old(cache) - {victim} && disposed == old(disposed) + {victim}
    {
      var gone := cache[victim];
      cache := cache - {victim};
      disposed := disposed + {victim};
      AfterEvict(victim.model, gone);
      ghost var before := old(cache) - {key};
      assert before - {victim} == cache - {key};
      forall n | n in indexes
        ensures Indexed(indexes[n], schemas.uniques[n], n.model, cache - {key})
      {
        EvictMeaning(old(indexes[n].indexMap), schemas.uniques[n], n.model, before, victim);
      }
    }

    /** The library's capacity trim: an arbitrary victim of the model other than the key just stored. */
    method Trim(key: Key) returns (ghost gone: Option<Key>)
      requires Valid() && key in cache && CoherentWithout(key)
      modifies this
      ensures Valid() && CoherentWithout(key)
      ensures cache == Disposed(old(cache), gone) && disposed == old(disposed) + KeysOf(gone)
      ensures Trimmed(schemas, old(cache).Keys, key, gone)
    {
      gone := None;
      if Full(schemas.models[key.model], cache.Keys, key.model) {
        OtherKey(ModelKeys(cache.Keys, key.model), key);
        var victim :| victim in ModelKeys(cache.Keys, key.model) && victim != key;
        Dispose(victim, key);
        gone := Some(victim);
      }
    }

    /** The library's store of a key that is not cached; the indexes do not know it yet. */
    method Store(key: Key, r: Row)
      requires Valid() && Coherent() && key !in cache && key.model in schemas.models
      modifies this`cache, this`disposed
      ensures Valid() && CoherentWithout(key)
      ensures cache == old(cache)[key := r] && disposed == old(disposed) - {key}
    {
      cache := cache[key := r];
      disposed := disposed - {key};
      assert cache - {key} == old(cache);
    }

    // Put of a key that is not cached.
    method PutNew(key: Key, r: Row) returns (ok: bool, ghost gone: Option<Key>)
      requires Valid() && Coherent() && Within() && key.model in schemas.models && key !in cache
      modifies this
      ensures Valid() && Within()
      ensures Trimmed(schemas, old(cache).Keys + {key}, key, gone)
      ensures cache == Disposed(old(cache)[key := r], gone) && disposed == old(disposed) - {key} + KeysOf(gone)
      ensures ok <==> !ClashIn(cache, key, r, schemas)
      ensures ok <==> Coherent()
    {
      gone := StoreAndTrim(key, r);
      ok := AddToIndexes(key, r);
    }

    // The library's part of a put.
    method StoreAndTrim(key: Key, r: Row) returns (ghost gone: Option<Key>)
      requires Valid() && Coherent() && Within() && key.model in schemas.models && key !in cache
      modifies this
      ensures Valid() && Within() && CoherentWithout(key) && key in cache && cache[key] == r
      ensures Trimmed(schemas, old(cache).Keys + {key}, key, gone)
      ensures cache == Disposed(old(cache)[key := r], gone) && disposed == old(disposed) - {key} + KeysOf(gone)
    {
      Store(key, r);
      assert cache.Keys == old(cache).Keys + {key};
      gone := Trim(key);
      StoreWithin(schemas, old(cache).Keys, key, gone);
      assert cache.Keys == old(cache).Keys + {key} - KeysOf(gone);
    }

    /** Stores an entity. `gone` is the entity disposed of when the capacity is exceeded; which one is the library's
        choice. False is the error of a clash, raised only after the entity was stored. */
    method Put(key: Key, r: Row) returns (ok: bool, ghost gone: Option<Key>)
      requires Valid() && Coherent() && Within() && key.model in schemas.models
      modifies this
      ensures Valid() && Within()
      ensures Trimmed(schemas, old(cache).Keys + {key}, key, gone)
      ensures cache == Disposed(old(cache)[key := r], gone) && disposed == old(disposed) - {key} + KeysOf(gone)
      ensures ok <==> !ClashIn(cache, key, r, schemas)
      ensures ok <==> Coherent()
    {
      if key in cache {
        RemoveWithin(schemas, cache, key);
        Evict(key);
      }
      assert cache[key := r] == old(cache)[key := r];
      assert cache.Keys + {key} == old(cache).Keys + {key};
      ok, gone := PutNew(key, r);
    }

    // The indexes still to do are right without the entity, the others have it.
    ghost predicate Underway(todo: set<IndexName>, key: Key)
      requires Valid() && key in cache
      reads this
    {
      && (forall n | n in todo :: n in indexes && n.model == key.model
            && Indexed(indexes[n], schemas.uniques[n], n.model, cache - {key}))
      && (forall n | n in indexes && n !in todo :: Entered(indexes[n], schemas.uniques[n], n.model, cache, key))
    }

    /** Enters a stored entity in every index that has it all-truthy, stopping at the first clash. */
    method AddToIndexes(key: Key, r: Row) returns (ok: bool)
      requires Valid() && key in cache && cache[key] == r
      requires CoherentWithout(key)
      modifies this`indexes
      ensures Valid()
      ensures ok <==> !ClashIn(cache, key, r, schemas)
      ensures ok <==> Coherent()
    {
      var todo := set n | n in indexes && n.model == key.model;
      NoneEntered(key);
      while todo != {}
        invariant Valid() && Underway(todo, key)
      {
        var n :| n in todo;
        ok := AddNext(n, key, todo);
        if !ok {
          return;
        }
        todo := todo - {n};
      }
      AllEntered(key);
      ok := true;
    }

    lemma NoneEntered(key: Key)
      requires Valid() && CoherentWithout(key) && key in cache
      ensures Underway((set n | n in indexes && n.model == key.model), key)
    {
      forall n | n in indexes && n.model != key.model
        ensures Entered(indexes[n], schemas.uniques[n], n.model, cache, key)
      {
        OtherModel(indexes[n].indexMap, schemas.uniques[n], n.model, cache, key);
      }
    }

    lemma AllEntered(key: Key)
      requires Valid() && key in cache && Underway({}, key)
      ensures Coherent() && !ClashIn(cache, key, cache[key], schemas)
    {
      forall n | n in schemas.uniques
        ensures Entered(indexes[n], schemas.uniques[n], n.model, cache, key)
      {
        assert n in indexes;
      }
    }

    // One round of AddToIndexes.
    method AddNext(n: IndexName, key: Key, ghost todo: set<IndexName>) returns (ok: bool)
      requires Valid() && key in cache && n in todo && Underway(todo, key)
      modifies this`indexes
      ensures Valid()
      ensures if ok then Underway(todo - {n}, key) else !Coherent() && ClashIn(cache, key, cache[key], schemas)
    {
      ok := AddTo(n, key);
    }

    // Enters the entity in one index.
    method AddTo(n: IndexName, key: Key) returns (ok: bool)
      requires Valid() && key in cache && n in indexes && n.model == key.model
               && Indexed(indexes[n], schemas.uniques[n], n.model, cache - {key})
      modifies this`indexes
      ensures Valid() && forall m | m in indexes && m != n :: indexes[m] == old(indexes[m])
      ensures ok <==> !Clash(cache, key, cache[key], schemas.uniques[n])
      ensures ok ==> Entered(indexes[n], schemas.uniques[n], n.model, cache, key)
      ensures !ok ==> !Coherent() && ClashIn(cache, key, cache[key], schemas)
    {
      var v := IndexValueOf(cache[key], schemas.uniques[n]);
      AddMeaning(indexes[n].indexMap, schemas.uniques[n], cache, key, v);
      ok := true;
      if AllTruthy(v) {
        var added := indexes[n].Add(v, key);
        ok := added.Some?;
        if ok {
          indexes := indexes[n := added.value];
        } else {
          ClashIsIncoherent(indexes[n].indexMap, schemas.uniques[n], cache, key);
        }
      }
    }

    /** Looks an entity up by a unique value; a linear scan of the model's entities gives the same answer. */
    method GetUnique(n: IndexName, v: IndexValue) returns (r: Option<Row>)
      requires Valid() && Coherent() && n in schemas.uniques
      ensures ScanAnswer(cache, schemas.uniques[n], n.model, v, r)
    {
      var found := indexes[n].Get(v);
      r := if found.None? then None else Get(found.value);
    }

    /** Writes new property values into a cached entity, re-entering it in the indexes when an indexed property is
        among them. No effect on an entity that is not cached. */
    method RefreshCached(key: Key, values: Values) returns (ok: bool)
      requires Valid() && Coherent() && Within() && key.model in schemas.models
      modifies this
      ensures Valid() && Within()
      ensures disposed == old(disposed)
      ensures cache == if key in old(cache) then old(cache)[key := Overwrite(old(cache)[key], values)] else old(cache)
      ensures ok <==> Coherent()
      ensures (key in cache ==> !ClashIn(cache, key, cache[key], schemas)) ==> ok
    {
      if key !in cache {
        return true;
      }
      var element := Overwrite(cache[key], values);
      AssignWithin(schemas, cache, key, element);
      if exists n, p | n in schemas.uniques && n.model == key.model && p in schemas.uniques[n] :: p in values {
        ok := Reenter(key, element);
      } else {
        AssignInPlace(key, element);
        ok := true;
      }
    }

    // Evicts, changes and stores an entity again, which never exceeds the capacity.
    method Reenter(key: Key, element: Row) returns (ok: bool)
      requires Valid() && Coherent() && Within() && key in cache && key !in disposed
      modifies this
      ensures Valid() && Within() && disposed == old(disposed) && cache == old(cache)[key := element]
      ensures ok <==> Coherent()
      ensures !ClashIn(cache, key, element, schemas) ==> ok
    {
      RoomBack(schemas, cache, key);
      Evict(key);
      assert cache[key := element] == old(cache)[key := element];
      assert disposed - {key} == disposed;
      ok := PutBack(key, element);
    }

    // Put of a key for which there is room.
    method PutBack(key: Key, element: Row) returns (ok: bool)
      requires Valid() && Coherent() && Within() && key.model in schemas.models && key !in cache
      requires !Full(schemas.models[key.model], cache.Keys + {key}, key.model)
      modifies this
      ensures Valid() && Within() && disposed == old(disposed) - {key} && cache == old(cache)[key := element]
      ensures (ok <==> Coherent()) && (!ClashIn(cache, key, element, schemas) ==> ok)
    {
      ghost var gone: Option<Key>;
      ok, gone := PutNew(key, element);
    }

    // The assignments that no index sees.
    method AssignInPlace(key: Key, element: Row)
      requires Valid() && Coherent() && key in cache
      requires forall n, p | n in schemas.uniques && n.model == key.model && p in schemas.uniques[n] ::
                 Read(element, p) == Read(cache[key], p)
      modifies this`cache
      ensures Valid() && Coherent() && cache == old(cache)[key := element]
    {
      cache := cache[key := element];
      forall n | n in indexes
        ensures Indexed(indexes[n], schemas.uniques[n], n.model, cache)
      {
        if n.model == key.model {
          SameIndexValue(old(cache)[key], element, schemas.uniques[n]);
        }
        AssignMeaning(indexes[n].indexMap, schemas.uniques[n], n.model, old(cache), key, element);
      }
    }

    method Clear()
      requires Valid() && Coherent()
      modifies this
      ensures Valid() && Coherent() && cache == map[] && disposed == old(disposed)
    {
      while cache != map[]
        invariant Valid() && Coherent() && disposed == old(disposed)
        decreases cache.Keys
      {
        var key :| key in cache;
        Evict(key);
      }
    }
  }

  lemma OtherModel(m: map<IndexValue, Key>, fields: seq<string>, model: string, cache: Tables, key: Key)
    requires Indexes(m, fields, model, cache - {key}) && key.model != model
    ensures Indexes(m, fields, model, cache)
  {
    var rest := cache - {key};
    forall v | v in m
      ensures m[v] in cache && IndexValueOf(cache[m[v]], fields) == v
    {
      assert m[v] in rest;
    }
    forall k | k in cache && k.model == model
      ensures k in rest && rest[k] == cache[k]
    {
    }
  }
}
