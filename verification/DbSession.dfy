/** The session: reads the database through the cache, writes it once per block, and keeps the block's locks. */
module DbSessions {
  import opened Rows
  import opened Changes
  import opened EntityCaches
  import opened Views
  import opened EntityTrackers
  import opened Operations

  datatype Result = Ok | Exists | NotFound | Clashed | Locked

  datatype End = Committed | RolledBack | Left

  /** A cache that shows the newest tables shows others just when no cached entity differs in them: what a rollback
      over several blocks leaves is stale as soon as one cached entity was changed in them. */
  lemma StaleAfterRollback(s: Schemas, cache: Tables, newest: Tables, restored: Tables)
    requires Agrees(s, cache, newest)
    ensures Agrees(s, cache, restored) <==> forall k | k in cache :: k in restored && restored[k] == newest[k]
  {
    if Agrees(s, cache, restored) {
      forall k | k in cache
        ensures k in restored && restored[k] == newest[k]
      {
        assert Columns(s.models[k.model], cache[k]) == newest[k];
      }
    }
  }

  class DbSession {
    const tracker: BasicEntityTracker
    const cache: LRUEntityCache
    const schemas: Schemas
    const join: (Value, Value) -> Value
    // The committed tables.
    var tables: Tables
    var sessionSerial: int
    var unconfirmedLocks: set<string>
    var confirmedLocks: set<string>

    // The tracker works on the tables with a coherent cache.
    ghost predicate Linked()
      reads this, tracker, cache
    {
      && tracker.cache == cache && tracker.schemas == schemas
      && tracker.Valid() && tracker.base == tables
      && (!tracker.confirming ==> tracker.unconfirmedChanges == [])
    }

    // And its cache shows them with the pending changes.
    ghost predicate Synced()
      reads this, tracker, cache
    {
      Linked() && tracker.Shows()
    }

    // The names no contract may take.
    function Held(): set<string>
      reads this
    {
      confirmedLocks + unconfirmedLocks
    }

    ghost predicate LocksSettled()
      reads this, tracker
    {
      !tracker.confirming ==> unconfirmedLocks <= confirmedLocks
    }

    // The tables with the pending changes.
    function View(): Tables
      reads this, tracker
    {
      Run(tables, tracker.confirmedChanges + tracker.unconfirmedChanges)
    }

    // What stays the same during a block, and what the session shows now.
    function Block(): World
      reads this
    {
      World(schemas, tables, join)
    }

    ghost function Now(): Moment
      reads this, tracker, cache
    {
      Moment(View(), cache.cache.Keys, cache.disposed, Held())
    }

    // What can be seen of that without asking the library.
    function Visible(): Moment
      reads this, tracker, cache
    {
      Moment(View(), cache.cache.Keys, {}, Held())
    }

    // Reading the key gives the view's answer.
    ghost predicate Current(key: Key)
      reads this, tracker, cache
    {
      CurrentAt(Block(), Now(), key)
    }

    constructor (tracker: BasicEntityTracker, join: (Value, Value) -> Value, tables: Tables, serial: int)
      requires tracker.Valid() && tracker.Shows() && tracker.Pending() == [] && tracker.base == tables
      ensures this.tracker == tracker && cache == tracker.cache && this.join == join && this.tables == tables
              && sessionSerial == serial
      ensures Synced() && LocksSettled() && Held() == {} && View() == tables
    {
      this.tracker, cache, schemas, this.join := tracker, tracker.cache, tracker.schemas, join;
      this.tables, sessionSerial := tables, serial;
      unconfirmedLocks, confirmedLocks := {}, {};
    }

    /******* Reading *******/

    /** A key that is cached, or untouched by pending changes, reads as the view has it. What is not current is a key
        with a pending delete, or one whose changed entity capacity disposal took. */
    lemma CurrentKeys(key: Key)
      requires Synced()
      ensures key !in Touched(tracker.Pending()) ==> Current(key)
      ensures key in View() && key !in cache.disposed ==> Current(key)
      ensures key !in View() ==> (Current(key) <==> key !in tables)
    {
      if key !in Touched(tracker.Pending()) {
        RunUntouched(tables, tracker.Pending(), key);
      }
      if key in cache.cache {
        assert key in View();
      }
    }

    /** Reads an entity, from the cache or else from the tables, and caches what it reads there. The cache stays in step
        exactly for a current key. */
    method GetOrLoad(key: Key) returns (r: Result, entity: Option<Row>)
      requires Synced() && key.model in schemas.models
      modifies cache
      ensures r.Ok? || r.NotFound? || r.Clashed?
      ensures r.NotFound? <==> key !in old(cache.cache) && key !in tables
      ensures r.NotFound? ==> Synced() && Now() == old(Now())
      ensures r.Clashed? ==> !cache.Coherent()
      ensures r.Ok? <==> entity.Some?
      ensures r.Ok? ==>
                Linked() && key in cache.cache && entity.value == cache.cache[key]
                    && Loads(schemas, old(cache.cache).Keys, old(cache.disposed), key, cache.cache.Keys, cache.disposed)
      ensures r.Ok? && key !in old(cache.cache) ==>
                entity.value == tables[key] && RowOk(schemas.models[key.model], entity.value)
      ensures r.Ok? && key in old(cache.cache) ==> cache.cache == old(cache.cache)
      ensures !r.NotFound? ==> (r.Ok? && Synced() <==> old(Current(key)))
    {
      if key in cache.cache {
        return Ok, Some(cache.cache[key]);
      }
      if key !in tables {
        return NotFound, None;
      }
      r, entity := LoadAndTrack(key);
    }

    // The part of a read that goes to the tables.
    method LoadAndTrack(key: Key) returns (r: Result, entity: Option<Row>)
      requires Synced() && key.model in schemas.models && key !in cache.cache && key in tables
      modifies cache
      ensures r.Ok? || (r.Clashed? && entity.None? && !cache.Coherent())
      ensures r.Ok? ==> Linked() && key in cache.cache && entity == Some(tables[key]) && cache.cache[key] == tables[key]
      ensures r.Ok? ==>
                RowOk(schemas.models[key.model], tables[key])
                    && Enters(schemas, old(cache.cache).Keys, old(cache.disposed), key, cache.cache.Keys,
                              cache.disposed)
      ensures r.Ok? && Synced() <==> old(Current(key))
    {
      ghost var gone: Option<Key>;
      var o;
      TableRow(key);
      o, gone := tracker.TrackPersistent(key, tables[key]);
      if o.Done? {
        r, entity := Ok, Some(tables[key]);
      } else {
        r, entity := Clashed, None;
      }
    }

    lemma TableRow(key: Key)
      requires Synced() && key in tables && key.model in schemas.models
      ensures RowOk(schemas.models[key.model], tables[key])
              && Columns(schemas.models[key.model], tables[key]) == tables[key]
    {
      SoundFits(schemas, tables, tracker.Pending());
    }

    /******* Contract operations *******/

    /** Creates an entity. Right exactly for a key that is cached, which is an error, or new to the view with its unique
        values free. */
    method Create(key: Key, entity: Row) returns (r: Result)
      requires Synced() && key.model in schemas.models
      modifies tracker`unconfirmedChanges, tracker`confirmedChanges, cache
      ensures r.Ok? || r.Exists? || r.Clashed?
      ensures r.Exists? <==> key in old(cache.cache)
      ensures r.Exists? ==> Synced() && Now() == old(Now())
      ensures r.Ok? ==>
                View() == Created(schemas, old(View()), key, entity)
                    && Enters(schemas, old(cache.cache).Keys, old(cache.disposed), key, cache.cache.Keys,
                              cache.disposed)
      ensures r.Ok? && Synced() <==>
                key !in old(cache.cache) && key !in old(View())
                    && Consistent(schemas, Created(schemas, old(View()), key, entity))
      ensures tracker.confirming ==> tracker.confirmedChanges == old(tracker.confirmedChanges)
    {
      if cache.Exists(key) {
        return Exists;
      }
      var o;
      ghost var gone;
      o, gone := tracker.TrackNew(key, entity);
      r := if o.Done? then Ok else Clashed;
    }

    /** Reads an entity; the caller gets its columns. Right exactly for a current key. */
    method Load(key: Key) returns (r: Result, entity: Option<Row>)
      requires Synced() && key.model in schemas.models
      modifies cache
      ensures r.Ok? || r.NotFound? || r.Clashed?
      ensures old(Current(key)) ==> !r.Clashed? && Synced()
      ensures old(Current(key)) <==> Synced() && entity == RowAt(View(), key)
      ensures r.NotFound? ==> Now() == old(Now())
      ensures r.NotFound? <==> key !in old(cache.cache) && key !in tables
      ensures r.Ok? ==>
                Loads(schemas, old(cache.cache).Keys, old(cache.disposed), key, cache.cache.Keys, cache.disposed)
    {
      r, entity := GetOrLoad(key);
      if r.Ok? {
        entity := Some(Columns(schemas.models[key.model], entity.value));
      }
    }

    // The tracked entity of a key, loaded if need be.
    method EnsureEntityTracking(key: Key) returns (r: Result, tracked: Option<Row>)
      requires Synced() && key.model in schemas.models
      modifies cache
      ensures r.Ok? || r.NotFound? || r.Clashed?
      ensures r.NotFound? <==> key !in old(cache.cache) && key !in tables
      ensures r.NotFound? ==> Synced() && Now() == old(Now())
      ensures r.Ok? <==> tracked.Some?
      ensures r.Ok? ==>
                Linked() && key in cache.cache && tracked.value == cache.cache[key]
                    && Loads(schemas, old(cache.cache).Keys, old(cache.disposed), key, cache.cache.Keys, cache.disposed)
      ensures r.Ok? && !Synced() ==> Stale(key, tracked.value)
      ensures !r.NotFound? ==> (r.Ok? && Synced() <==> old(Current(key)))
    {
      r, tracked := GetOrLoad(key);
    }

    // A well-formed row that is not the view's one.
    ghost predicate Stale(key: Key, row: Row)
      requires key.model in schemas.models
      reads this, tracker
    {
      RowOk(schemas.models[key.model], row) && RowAt(View(), key) != Some(row)
    }

    /** Writes new values. Right exactly for a current key in the view when the view stays consistent. */
    method Update(key: Key, modifier: Values) returns (r: Result)
      requires Synced() && key.model in schemas.models
      modifies tracker`unconfirmedChanges, tracker`confirmedChanges, cache
      ensures r.NotFound? <==> key !in old(cache.cache) && key !in tables
      ensures r.NotFound? ==> Synced() && Now() == old(Now())
      ensures r.Ok? ==>
                Loads(schemas, old(cache.cache).Keys, old(cache.disposed), key, cache.cache.Keys, cache.disposed)
      ensures old(Current(key)) && !r.NotFound? ==>
                key in old(View()) && View() == Updated(schemas, old(View()), key, modifier)
      ensures r.Ok? && Synced() <==>
                old(Current(key)) && key in old(View())
                    && Consistent(schemas, Updated(schemas, old(View()), key, modifier))
      ensures tracker.confirming ==> tracker.confirmedChanges == old(tracker.confirmedChanges)
    {
      var tracked;
      r, tracked := EnsureEntityTracking(key);
      if r.Ok? {
        r := Modify(key, modifier);
      }
    }

    // The tracker's part of an update.
    method Modify(key: Key, modifier: Values) returns (r: Result)
      requires Linked() && key in cache.cache
               && (!Synced() ==> key.model in schemas.models && Stale(key, cache.cache[key]))
      modifies tracker`unconfirmedChanges, tracker`confirmedChanges, cache
      ensures r.Ok? || r.Clashed?
      ensures cache.cache.Keys == old(cache.cache).Keys && cache.disposed == old(cache.disposed)
      ensures old(Synced()) ==>
                key in old(View()) && key.model in schemas.models
                    && View() == Updated(schemas, old(View()), key, modifier)
      ensures r.Ok? && Synced() <==> old(Synced()) && Consistent(schemas, View())
      ensures tracker.confirming ==> tracker.confirmedChanges == old(tracker.confirmedChanges)
    {
      var ok := tracker.TrackModify(key, modifier);
      r := if ok then Ok else Clashed;
    }

    /** Adds amounts to an entity's values. */
    method Increase(key: Key, amounts: map<string, Value>) returns (r: Result)
      requires Synced() && key.model in schemas.models
      modifies tracker`unconfirmedChanges, tracker`confirmedChanges, cache
      ensures r.NotFound? <==> key !in old(cache.cache) && key !in tables
      ensures r.NotFound? ==> Synced() && Now() == old(Now())
      ensures r.Ok? ==>
                Loads(schemas, old(cache.cache).Keys, old(cache.disposed), key, cache.cache.Keys, cache.disposed)
      ensures old(Current(key)) && !r.NotFound? ==>
                key in old(View()) && View() == Updated(schemas, old(View()), key,
                                                        Increased(join, old(View())[key], amounts))
      ensures r.Ok? && Synced() <==>
                old(Current(key)) && key in old(View())
                && Consistent(schemas, Updated(schemas, old(View()), key, Increased(join, old(View())[key], amounts)))
      ensures tracker.confirming ==> tracker.confirmedChanges == old(tracker.confirmedChanges)
    {
      var end;
      r, end := EnsureEntityTracking(key);
      if r.Ok? {
        if Synced() {
          ShownEntity(key);
          SameIncrease(Block(), View(), key, end.value, amounts);
        }
        r := Modify(key, Increased(join, end.value, amounts));
      }
    }

    lemma ShownEntity(key: Key)
      requires Synced() && key in cache.cache
      ensures key.model in schemas.models && key in View()
              && Columns(schemas.models[key.model], cache.cache[key]) == View()[key]
    {
    }

    lemma CachedShown(key: Key)
      requires Synced()
      ensures key in cache.cache ==> key in View()
    {
    }

    /** Deletes an entity. Right exactly for a current key in the view. */
    method Delete(key: Key) returns (r: Result, ghost loaded: set<Key>)
      requires Synced() && key.model in schemas.models
      modifies tracker`unconfirmedChanges, tracker`confirmedChanges, cache
      ensures r.NotFound? <==> key !in old(cache.cache) && key !in tables
      ensures r.NotFound? ==> Synced() && Now() == old(Now())
      ensures r.Ok? ==> Loads(schemas, old(cache.cache).Keys, old(cache.disposed), key, loaded, cache.disposed)
      ensures r.Ok? ==> cache.cache.Keys == loaded - {key}
      ensures old(Current(key)) && r.Ok? ==> View() == old(View()) - {key}
      ensures r.Ok? && Synced() <==> old(Current(key)) && key in old(View())
      ensures tracker.confirming ==> tracker.confirmedChanges == old(tracker.confirmedChanges)
    {
      var tracked;
      r, tracked := EnsureEntityTracking(key);
      loaded := cache.cache.Keys;
      if r.Ok? {
        Remove(key);
      }
    }

    // The tracker's part of a delete.
    method Remove(key: Key)
      requires Linked() && key in cache.cache
               && (!Synced() ==> key.model in schemas.models && Stale(key, cache.cache[key]))
      modifies tracker`unconfirmedChanges, tracker`confirmedChanges, cache
      ensures cache.cache.Keys == old(cache.cache).Keys - {key} && cache.disposed == old(cache.disposed)
      ensures old(Synced()) ==> key in old(View()) && View() == old(View()) - {key}
      ensures Synced() <==> old(Synced())
      ensures tracker.confirming ==> tracker.confirmedChanges == old(tracker.confirmedChanges)
    {
      tracker.TrackDelete(key);
      if !old(Synced()) && tracker.Shows() {
        StaleDelete(schemas, tables, old(tracker.Pending()), cache.cache, cache.disposed, key, old(cache.cache)[key]);
      }
    }

    /** Takes a name for the rest of the block; Locked is the error of a name that is held. */
    method LockInThisSession(name: string) returns (r: Result)
      requires LocksSettled()
      modifies this`unconfirmedLocks, this`confirmedLocks
      ensures LocksSettled() && Held() == old(Held()) + {name}
      ensures r == if name in old(Held()) then Locked else Ok
      ensures tracker.confirming || name in old(Held()) ==> confirmedLocks == old(confirmedLocks)
    {
      if name !in Held() {
        if tracker.confirming {
          unconfirmedLocks := unconfirmedLocks + {name};
        } else {
          confirmedLocks := confirmedLocks + {name};
        }
        return Ok;
      }
      r := Locked;
    }

    /******* Contract transactions *******/

    method BeginEntityTransaction()
      requires Synced() && LocksSettled() && !tracker.confirming
      modifies tracker`confirming, tracker`unconfirmedChanges
      ensures Synced() && tracker.confirming && View() == old(View()) && tracker.Pending() == old(tracker.Pending())
      ensures confirmedLocks == Held()
    {
      tracker.BeginConfirm();
    }

    method CommitEntityTransaction()
      requires Synced()
      modifies this`confirmedLocks, tracker`confirming, tracker`unconfirmedChanges, tracker`confirmedChanges
      ensures Synced() && !tracker.confirming && View() == old(View()) && tracker.Pending() == old(tracker.Pending())
      ensures LocksSettled() && Held() == old(Held())
    {
      tracker.Confirm();
      confirmedLocks := confirmedLocks + unconfirmedLocks;
    }

    /** Takes everything since the begin back: changes, cache and locks. */
    method RollbackEntityTransaction(ghost keys: set<Key>)
      requires Synced() && Resident(keys, View(), cache.cache.Keys, cache.disposed)
      modifies this`unconfirmedLocks, tracker`confirming, tracker`unconfirmedChanges, cache
      ensures Synced() && !tracker.confirming && tracker.Pending() == tracker.confirmedChanges
      ensures View() == Run(tables, tracker.confirmedChanges)
      ensures Resident(keys + Touched(old(tracker.Pending())), View(), cache.cache.Keys, cache.disposed)
      ensures LocksSettled() && Held() == confirmedLocks
    {
      tracker.CancelConfirm(keys);
      assert tracker.Pending() == tracker.confirmedChanges;
      unconfirmedLocks := {};
    }

    /******* The block *******/

    /** One database transaction. The database may be out of reach before a statement, or before the commit. */
    method RunTransaction(stmts: seq<Stmt>, outage: Option<nat>) returns (r: Option<Tables>)
      ensures r == if outage.Some? && outage.value <= |stmts| then None else ExecAll(tables, stmts)
    {
      var t := tables;
      var i := 0;
      while i < |stmts|
        invariant 0 <= i <= |stmts| && ExecAll(tables, stmts) == ExecAll(t, stmts[i..])
        invariant outage.Some? && outage.value < |stmts| ==> i <= outage.value
      {
        if outage == Some(i) {
          return None;
        }
        var next := Exec(t, stmts[i]);
        assert stmts[i..][0] == stmts[i] && stmts[i..][1..] == stmts[i + 1..];
        if next.None? {
          return None;
        }
        t := next.value;
        i := i + 1;
      }
      r := if outage == Some(i) then None else Some(t);
    }

    function RealHeight(height: Option<int>): int
      reads this
    {
      if height.Some? then height.value else sessionSerial + 1
    }

    /** Writes all pending changes, one row per statement, in one transaction. Only an outage can fail it; then the
        tables are unchanged, the cache is back to them, and the locks stay. */
    method SaveChanges(height: Option<int>, outage: Option<nat>) returns (saved: Option<int>)
      requires Synced() && tracker.HistoryOk()
      requires if tracker.currentVersion == -1 && tracker.history == map[] then 0 <= RealHeight(height)
               else RealHeight(height) == tracker.currentVersion + 1
      modifies this`tables, this`sessionSerial, this`unconfirmedLocks, this`confirmedLocks, tracker, cache
      ensures Synced() && LocksSettled() && tracker.Pending() == [] && !tracker.confirming && tracker.HistoryOk()
      ensures EachHitsOne(old(tables), ForwardSqls(old(tracker.Pending())))
      ensures saved == if outage.Some? && outage.value <= |old(tracker.Pending())| then None
              else Some(old(RealHeight(height)))
      ensures saved.Some? ==>
                && tables == old(View()) && Held() == {} && sessionSerial == saved.value
                && tracker.currentVersion == sessionSerial && cache.cache == old(cache.cache)
                && tracker.past == old(tracker.past)[saved.value - 1 := old(tables)][saved.value := tables]
                && saved.value in tracker.history && tracker.history[saved.value] == old(tracker.Pending())
      ensures saved.None? ==>
                && tables == old(tables) && Held() == old(Held()) == confirmedLocks
                && sessionSerial == (if height.Some? then old(sessionSerial) else old(sessionSerial) + 1)
                && tracker.currentVersion == old(tracker.currentVersion) && tracker.past == old(tracker.past)
                && Resident(Touched(old(tracker.Pending())), tables, cache.cache.Keys, cache.disposed)
    {
      var realHeight := BeginSave(height);
      saved := SaveConfirmed(realHeight, outage);
    }

    // The height to save, with all pending changes confirmed.
    method BeginSave(height: Option<int>) returns (realHeight: int)
      requires Synced() && tracker.HistoryOk()
      modifies this`sessionSerial, this`confirmedLocks
      modifies tracker`confirming, tracker`unconfirmedChanges, tracker`confirmedChanges
      ensures Synced() && LocksSettled() && tracker.unconfirmedChanges == [] && !tracker.confirming
              && tracker.HistoryOk()
      ensures View() == old(View()) && tracker.Pending() == old(tracker.Pending()) && Held() == old(Held())
      ensures realHeight == old(RealHeight(height))
      ensures sessionSerial == if height.Some? then old(sessionSerial) else old(sessionSerial) + 1
    {
      realHeight := RealHeight(height);
      if height.None? {
        sessionSerial := sessionSerial + 1;
      }
      CommitEntityTransaction();
    }

    // The part of a commit in which all pending changes are confirmed.
    method SaveConfirmed(height: int, outage: Option<nat>) returns (saved: Option<int>)
      requires Synced() && LocksSettled() && tracker.unconfirmedChanges == [] && !tracker.confirming
               && tracker.HistoryOk()
      requires if tracker.currentVersion == -1 && tracker.history == map[] then 0 <= height
               else height == tracker.currentVersion + 1
      modifies this`tables, this`sessionSerial, this`unconfirmedLocks, this`confirmedLocks, tracker, cache
      ensures Synced() && LocksSettled() && tracker.Pending() == [] && !tracker.confirming && tracker.HistoryOk()
      ensures EachHitsOne(old(tables), ForwardSqls(old(tracker.Pending())))
      ensures saved == if outage.Some? && outage.value <= |old(tracker.Pending())| then None else Some(height)
      ensures saved.Some? ==>
                && tables == old(View()) && Held() == {} && sessionSerial == height
                && tracker.currentVersion == sessionSerial && cache.cache == old(cache.cache)
                && tracker.past == old(tracker.past)[height - 1 := old(tables)][height := tables]
                && height in tracker.history && tracker.history[height] == old(tracker.Pending())
      ensures saved.None? ==>
                && tables == old(tables) && Held() == old(Held()) == confirmedLocks
                && sessionSerial == old(sessionSerial)
                && tracker.currentVersion == old(tracker.currentVersion) && tracker.past == old(tracker.past)
                && Resident(Touched(old(tracker.Pending())), tables, cache.cache.Keys, cache.disposed)
    {
      assert tracker.Pending() == tracker.confirmedChanges;
      var written := WriteChanges(outage);
      if written.Some? {
        saved := Accept(written.value, height);
      } else {
        Abandon();
        saved := None;
      }
    }

    // What a failed transaction leads to.
    method Abandon()
      requires Synced() && LocksSettled() && !tracker.confirming
      modifies tracker`confirming, tracker`unconfirmedChanges, tracker`confirmedChanges, cache
      ensures Synced() && LocksSettled() && tracker.Pending() == [] && !tracker.confirming
      ensures Resident(Touched(old(tracker.Pending())), tables, cache.cache.Keys, cache.disposed)
    {
      tracker.RejectChanges();
      assert |tracker.Pending()| == 0;
    }

    // The transaction of a commit.
    method WriteChanges(outage: Option<nat>) returns (written: Option<Tables>)
      requires Synced() && tracker.unconfirmedChanges == []
      ensures EachHitsOne(tables, ForwardSqls(tracker.Pending()))
      ensures written == if outage.Some? && outage.value <= |tracker.Pending()| then None else Some(View())
    {
      assert tracker.Pending() == tracker.confirmedChanges;
      SoundFits(schemas, tables, tracker.confirmedChanges);
      CommitExact(tables, tracker.confirmedChanges);
      written := RunTransaction(ForwardSqls(tracker.confirmedChanges), outage);
    }

    // What a successful transaction leads to.
    method Accept(written: Tables, height: int) returns (saved: Option<int>)
      requires Synced() && tracker.HistoryOk() && tracker.unconfirmedChanges == [] && !tracker.confirming
               && written == View()
      requires if tracker.currentVersion == -1 && tracker.history == map[] then 0 <= height
               else height == tracker.currentVersion + 1
      modifies this`tables, this`sessionSerial, this`unconfirmedLocks, this`confirmedLocks, tracker
      ensures Synced() && LocksSettled() && tracker.Pending() == [] && !tracker.confirming && tracker.HistoryOk()
      ensures saved == Some(height) && tables == written && Held() == {}
              && sessionSerial == height == tracker.currentVersion
      ensures tracker.past == old(tracker.past)[height - 1 := old(tables)][height := tables]
      ensures height in tracker.history && tracker.history[height] == old(tracker.confirmedChanges)
    {
      tables := written;
      tracker.AcceptChanges(height);
      ClearLocks();
      sessionSerial := height;
      saved := Some(height);
    }

    method ClearLocks()
      modifies this`unconfirmedLocks, this`confirmedLocks
      ensures unconfirmedLocks == confirmedLocks == {}
    {
      unconfirmedLocks, confirmedLocks := {}, {};
    }

    // The inverse statements down to a height: they lead to its tables exactly, one row each.
    method RollbackSqls(height: int, stored: map<int, seq<Change>>) returns (stmts: seq<Stmt>)
      requires tracker.cache == cache && tracker.HistoryOk() && tracker.base == tables && -1 <= height
      requires Chronicle(tracker.schemas, tracker.past, stored, height + 1, tracker.minVersion)
      modifies tracker`history, tracker`minVersion, tracker`currentVersion
      ensures tracker.HistoryOk() && tracker.currentVersion == old(tracker.currentVersion)
      ensures height < tracker.currentVersion ==>
                height in tracker.past && ExecAll(tables, stmts) == Some(tracker.past[height])
      ensures tracker.currentVersion <= height ==> stmts == []
      ensures tracker.currentVersion <= height + 1 ==> tracker.minVersion == old(tracker.minVersion)
      ensures EachHitsOne(tables, stmts)
    {
      var changes := tracker.GetChangesUntil(height + 1, stored);
      if height < tracker.currentVersion {
        RollbackSqlExact(tracker.schemas, tracker.past, tracker.history, height + 1, tracker.currentVersion);
      }
      stmts := Changes.BuildRollbackSqls(changes);
    }

    // The cache side of a rollback whose statements went through.
    method Restore(restored: Tables, height: int, stored: map<int, seq<Change>>)
      requires Synced() && tracker.HistoryOk() && -1 <= height
      requires if height < tracker.currentVersion then height in tracker.past && restored == tracker.past[height]
               else restored == tables
      modifies this`tables, this`sessionSerial, this`unconfirmedLocks, this`confirmedLocks, tracker, cache
      ensures tables == restored && sessionSerial == height && Held() == {} && tracker.Pending() == []
              && tracker.past == old(tracker.past)
      ensures tracker.currentVersion == if height + 1 == old(tracker.currentVersion) then height
              else old(tracker.currentVersion)
      ensures if old(tracker.currentVersion) <= height + 1 then Synced() else Agrees(schemas, cache.cache, old(tables))
      ensures old(tracker.currentVersion) <= height + 1 ==>
                (tracker.HistoryOk() <==>
                 old(tracker.currentVersion) <= height || old(tracker.minVersion) <= height || height == -1)
    {
      tracker.RejectChanges();
      assert tracker.confirmedChanges + tracker.unconfirmedChanges == [] && Agrees(schemas, cache.cache, tracker.base);
      var _ := tracker.RollbackChanges(height + 1, stored);
      tables := restored;
      assert tracker.Pending() == [];
      ClearLocks();
      sessionSerial := height;
    }

    /** Takes the database back to a height, over any number of blocks. The cache follows by one block only: when more
        are asked for, it goes on showing the tables of the newest height. */
    method RollbackChanges(height: int, stored: map<int, seq<Change>>, outage: Option<nat>)
      returns (serial: Option<int>)
      requires Synced() && LocksSettled() && tracker.HistoryOk() && -1 <= height
      requires Chronicle(schemas, tracker.past, stored, height + 1, tracker.minVersion)
      modifies this`tables, this`sessionSerial, this`unconfirmedLocks, this`confirmedLocks, tracker, cache
      ensures sessionSerial == (if serial.Some? then serial.value else old(sessionSerial))
              && tracker.past == old(tracker.past)
      ensures old(sessionSerial) < height ==>
                serial == Some(old(sessionSerial)) && tables == old(tables) && View() == old(View()) && Synced()
                    && Held() == old(Held())
      ensures serial.None? ==>
                outage.Some? && tables == old(tables) && View() == old(View()) && Synced() && Held() == old(Held())
      ensures serial.Some? && height <= old(sessionSerial) ==>
                serial == Some(height) && Held() == {} && tracker.Pending() == []
      ensures serial.Some? && height <= old(sessionSerial) && height < old(tracker.currentVersion) ==>
                && height in tracker.past && tables == tracker.past[height]
                && (tracker.currentVersion == height <==> height + 1 == old(tracker.currentVersion))
                && (height + 1 == old(tracker.currentVersion) ==> Synced())
                && (height + 1 != old(tracker.currentVersion) ==>
                      tracker.currentVersion == old(tracker.currentVersion)
                          && Agrees(schemas, cache.cache, old(tables)))
      ensures serial.Some? && height <= old(sessionSerial) && old(tracker.currentVersion) <= height ==>
                tables == old(tables) && Synced() && tracker.currentVersion == old(tracker.currentVersion)
      ensures height <= old(sessionSerial) && old(tracker.currentVersion) <= height + 1 ==>
                (tracker.HistoryOk() <==>
                 serial.None? || old(tracker.currentVersion) <= height || old(tracker.minVersion) <= height
                     || height == -1)
      ensures Synced() ==> LocksSettled()
    {
      if sessionSerial < height {
        return Some(sessionSerial);
      }
      var stmts := RollbackSqls(height, stored);
      var restored := RunTransaction(stmts, outage);
      match restored {
        case Some(t) =>
          Restore(t, height, stored);
          serial := Some(height);
        case None =>
          serial := None;
      }
    }


    /******* Runs *******/

    /** One operation of a contract, as it comes. A safe one is refused, changing nothing, exactly when it is an error
        on plain tables or asks for a held name; else it has just its effect. */
    method Perform(op: Op) returns (ok: bool)
      requires Synced() && LocksSettled() && tracker.confirming
      modifies this`unconfirmedLocks, this`confirmedLocks, tracker`unconfirmedChanges, tracker`confirmedChanges, cache
      ensures LocksSettled() && tracker.confirmedChanges == old(tracker.confirmedChanges)
              && confirmedLocks == old(confirmedLocks)
      ensures old(SafeAt(Block(), Now(), op)) ==> Synced() && (ok <==> !old(RefusedAt(Block(), Now(), op)))
      ensures old(SafeAt(Block(), Now(), op)) ==>
                if ok then Stepped(Block(), old(Now()), op, Now()) else Now() == old(Now())
    {
      if !Known(schemas, op) {
        return false;
      }
      match op {
        case Create(_, _) => ok := PerformCreate(op);
        case Load(_) => ok := PerformLoad(op);
        case Update(_, _) => ok := PerformUpdate(op);
        case Increase(_, _) => ok := PerformIncrease(op);
        case Delete(_) => ok := PerformDelete(op);
        case Lock(name) =>
          var r := LockInThisSession(name);
          ok := r.Ok?;
          assert Now().held == old(Now()).held + {name};
      }
    }

    method PerformCreate(op: Op) returns (ok: bool)
      requires Synced() && tracker.confirming && op.Create? && op.key.model in schemas.models
      modifies tracker`unconfirmedChanges, tracker`confirmedChanges, cache
      ensures tracker.confirmedChanges == old(tracker.confirmedChanges)
      ensures old(SafeAt(Block(), Now(), op)) ==> Synced() && (ok <==> !old(RefusedAt(Block(), Now(), op)))
      ensures old(SafeAt(Block(), Now(), op)) ==>
                if ok then Stepped(Block(), old(Now()), op, Now()) else Now() == old(Now())
    {
      if op.key in cache.cache {
        ShownEntity(op.key);
      }
      var r := Create(op.key, op.entity);
      ok := r.Ok?;
    }

    method PerformLoad(op: Op) returns (ok: bool)
      requires Synced() && tracker.confirming && op.Load? && op.key.model in schemas.models
      modifies cache
      ensures old(SafeAt(Block(), Now(), op)) ==> Synced() && ok && Stepped(Block(), old(Now()), op, Now())
    {
      CachedShown(op.key);
      ghost var m := Now();
      var r, entity := Load(op.key);
      ok := !r.Clashed?;
      if CurrentAt(Block(), m, op.key) {
        MissingRow(Block(), m, op.key, r.NotFound?);
      }
    }

    method PerformUpdate(op: Op) returns (ok: bool)
      requires Synced() && tracker.confirming && op.Update? && op.key.model in schemas.models
      modifies tracker`unconfirmedChanges, tracker`confirmedChanges, cache
      ensures tracker.confirmedChanges == old(tracker.confirmedChanges)
      ensures old(SafeAt(Block(), Now(), op)) ==> Synced() && (ok <==> !old(RefusedAt(Block(), Now(), op)))
      ensures old(SafeAt(Block(), Now(), op)) ==>
                if ok then Stepped(Block(), old(Now()), op, Now()) else Now() == old(Now())
    {
      CachedShown(op.key);
      ghost var m := Now();
      var r := Update(op.key, op.modifier);
      ok := r.Ok?;
      if CurrentAt(Block(), m, op.key) {
        MissingRow(Block(), m, op.key, r.NotFound?);
      }
    }

    method PerformIncrease(op: Op) returns (ok: bool)
      requires Synced() && tracker.confirming && op.Increase? && op.key.model in schemas.models
      modifies tracker`unconfirmedChanges, tracker`confirmedChanges, cache
      ensures tracker.confirmedChanges == old(tracker.confirmedChanges)
      ensures old(SafeAt(Block(), Now(), op)) ==> Synced() && (ok <==> !old(RefusedAt(Block(), Now(), op)))
      ensures old(SafeAt(Block(), Now(), op)) ==>
                if ok then Stepped(Block(), old(Now()), op, Now()) else Now() == old(Now())
    {
      CachedShown(op.key);
      ghost var m := Now();
      var r := Increase(op.key, op.amounts);
      ok := r.Ok?;
      if CurrentAt(Block(), m, op.key) {
        MissingRow(Block(), m, op.key, r.NotFound?);
      }
    }

    method PerformDelete(op: Op) returns (ok: bool)
      requires Synced() && tracker.confirming && op.Delete? && op.key.model in schemas.models
      modifies tracker`unconfirmedChanges, tracker`confirmedChanges, cache
      ensures tracker.confirmedChanges == old(tracker.confirmedChanges)
      ensures old(SafeAt(Block(), Now(), op)) ==> Synced() && (ok <==> !old(RefusedAt(Block(), Now(), op)))
      ensures old(SafeAt(Block(), Now(), op)) ==>
                if ok then Stepped(Block(), old(Now()), op, Now()) else Now() == old(Now())
    {
      if op.key in cache.cache {
        ShownEntity(op.key);
      }
      var r;
      ghost var loaded;
      r, loaded := Delete(op.key);
      ok := r.Ok?;
    }

    // One operation, and whether it was safe.
    method PerformNext(op: Op) returns (safe: bool, ok: bool)
      requires Synced() && LocksSettled() && tracker.confirming
      modifies this`unconfirmedLocks, this`confirmedLocks, tracker`unconfirmedChanges, tracker`confirmedChanges, cache
      ensures tracker.confirmedChanges == old(tracker.confirmedChanges) && confirmedLocks == old(confirmedLocks)
      ensures safe == old(SafeAt(Block(), Now(), op))
      ensures safe ==> Synced() && LocksSettled() && (ok <==> !old(RefusedAt(Block(), Now(), op)))
      ensures safe ==> if ok then Succeeds(Block(), old(Now()), op, Now()) else Now() == old(Now())
    {
      safe := SafeAt(Block(), Visible(), op);
      ok := Perform(op);
    }

    // One operation more, if all before it succeeded.
    method PerformOneMore(ghost w: World, ghost m: Moment, ops: seq<Op>, at: nat) returns (safe: bool, ok: bool)
      requires Synced() && LocksSettled() && tracker.confirming && Block() == w
      requires at < |ops| && Runs(w, m, ops[..at], Now())
      modifies this`unconfirmedLocks, this`confirmedLocks, tracker`unconfirmedChanges, tracker`confirmedChanges, cache
      ensures tracker.confirmedChanges == old(tracker.confirmedChanges) && confirmedLocks == old(confirmedLocks)
      ensures Block() == w && safe == SafeAt(w, old(Now()), ops[at])
      ensures !safe || !ok ==> Stops(w, m, ops, at, old(Now()))
      ensures safe ==> Synced() && LocksSettled()
      ensures safe ==> if ok then Runs(w, m, ops[..at + 1], Now()) else Now() == old(Now())
    {
      ghost var stop := Now();
      safe, ok := PerformNext(ops[at]);
      if safe && ok {
        OneMore(w, m, ops, at, stop, Now());
      }
    }

    /** Performs operations until one is refused or is not safe, and says which: `stop` is the moment before it. */
    method PerformAll(ops: seq<Op>) returns (safe: bool, at: nat, ghost stop: Moment)
      requires Synced() && LocksSettled() && tracker.confirming
      modifies this`unconfirmedLocks, this`confirmedLocks, tracker`unconfirmedChanges, tracker`confirmedChanges, cache
      ensures Stops(Block(), old(Now()), ops, at, stop)
      ensures safe <==> (at < |ops| ==> SafeAt(Block(), stop, ops[at]))
      ensures safe ==> Synced() && LocksSettled() && Now() == stop
      ensures tracker.confirmedChanges == old(tracker.confirmedChanges) && confirmedLocks == old(confirmedLocks)
    {
      ghost var w, m := Block(), Now();
      at, stop := 0, m;
      while at < |ops|
        invariant at <= |ops| && Synced() && LocksSettled() && tracker.confirming && stop == Now()
        invariant Block() == w && Runs(w, m, ops[..at], stop)
        invariant tracker.confirmedChanges == old(tracker.confirmedChanges) && confirmedLocks == old(confirmedLocks)
      {
        var ok;
        safe, ok := PerformOneMore(w, m, ops, at);
        if !safe || !ok {
          return;
        }
        at, stop := at + 1, Now();
      }
      safe := true;
    }

    /** Runs a contract in a transaction of its own. It commits when all its operations succeed, one after the other,
        and is taken back when one is refused. At an operation that is not safe the run leaves what is described
        here. */
    method Attempt(ops: seq<Op>) returns (end: End, at: nat, ghost stop: Moment)
      requires Synced() && LocksSettled() && !tracker.confirming
      modifies this`unconfirmedLocks, this`confirmedLocks, tracker`confirming, tracker`unconfirmedChanges
      modifies tracker`confirmedChanges, cache
      ensures Stops(Block(), old(Now()), ops, at, stop)
      ensures end.Committed? <==> at == |ops|
      ensures end.Left? <==> LeavesAt(Block(), old(Now()), ops, at, stop)
      ensures end.RolledBack? <==> FailsAt(Block(), old(Now()), ops, at, stop)
      ensures !end.Left? ==> Synced() && LocksSettled() && !tracker.confirming
      ensures end.Committed? ==> Now() == stop && Runs(Block(), old(Now()), ops, Now())
      ensures end.RolledBack? ==>
                TakenBack(Block(), old(Now()), ops, Now()) && tracker.Pending() == old(tracker.Pending())
      ensures !end.Left? ==>
                var after := PlainRun(Block(), PlainOf(old(Now())), ops);
                (end.Committed? <==> after.Some?) && PlainOf(Now()) == if after.Some? then after.value
                    else PlainOf(old(Now()))
    {
      BeginEntityTransaction();
      ghost var m := Now();
      assert m == old(Now());
      var safe;
      safe, at, stop := PerformAll(ops);
      if !safe {
        end := Left;
      } else if at == |ops| {
        assert ops[..at] == ops;
        RunsPlain(Block(), m, ops, stop);
        CommitEntityTransaction();
        end := Committed;
      } else {
        RunsResident(Block(), m.cached, m, ops[..at], stop);
        RollbackEntityTransaction(m.cached);
        FailsPlain(Block(), m, ops, at, stop);
        end := RolledBack;
      }
    }

    // One contract more, and whether it went through.
    method RunNext(ghost w: World, ghost m: Moment, contracts: seq<seq<Op>>, done: seq<bool>)
      returns (one: bool, left: bool)
      requires Synced() && LocksSettled() && !tracker.confirming && Block() == w && |done| < |contracts|
      requires BlockRuns(w, m, contracts[..|done|], done, Now())
      modifies this`unconfirmedLocks, this`confirmedLocks, tracker`confirming, tracker`unconfirmedChanges
      modifies tracker`confirmedChanges, cache
      ensures left ==> LeftBlock(w, m, contracts, done)
      ensures !left ==>
                Synced() && LocksSettled() && !tracker.confirming && Block() == w
                    && BlockRuns(w, m, contracts[..|done| + 1], done + [one], Now())
    {
      ghost var mid := Now();
      var end, at;
      ghost var stop;
      end, at, stop := Attempt(contracts[|done|]);
      one, left := end.Committed?, end.Left?;
      if left {
        assert LeavesAt(w, mid, contracts[|done|], at, stop);
      } else {
        assert Ends(w, mid, contracts[|done|], one, Now());
        BlockSnoc(w, m, contracts, done, mid, one, Now());
      }
    }

    /** Runs contracts one after the other. */
    method RunContracts(contracts: seq<seq<Op>>) returns (done: seq<bool>, left: bool)
      requires Synced() && LocksSettled() && !tracker.confirming
      modifies this`unconfirmedLocks, this`confirmedLocks, tracker`confirming, tracker`unconfirmedChanges
      modifies tracker`confirmedChanges, cache
      ensures if left then LeftBlock(Block(), old(Now()), contracts, done) else |done| == |contracts|
      ensures !left ==>
                Synced() && LocksSettled() && !tracker.confirming
                    && BlockRuns(Block(), old(Now()), contracts, done, Now())
    {
      ghost var w, m := Block(), Now();
      done, left := [], false;
      while |done| < |contracts|
        invariant !left && |done| <= |contracts| && Synced() && LocksSettled() && !tracker.confirming
        invariant Block() == w && BlockRuns(w, m, contracts[..|done|], done, Now())
        decreases |contracts| - |done|
      {
        var one;
        one, left := RunNext(w, m, contracts, done);
        if left {
          return;
        }
        done := done + [one];
      }
      assert contracts[..|done|] == contracts;
    }

    /** Runs the contracts of a block and saves it. Unless one of them leaves at an unsafe operation, those go through
        that do on plain tables, and the saved tables are what they make of the old ones. */
    method RunBlock(contracts: seq<seq<Op>>, height: Option<int>, outage: Option<nat>)
      returns (done: seq<bool>, left: bool, saved: Option<int>)
      requires Synced() && LocksSettled() && !tracker.confirming && tracker.HistoryOk()
      requires if tracker.currentVersion == -1 && tracker.history == map[] then 0 <= RealHeight(height)
               else RealHeight(height) == tracker.currentVersion + 1
      modifies this`tables, this`sessionSerial, this`unconfirmedLocks, this`confirmedLocks, tracker, cache
      ensures if left then LeftBlock(old(Block()), old(Now()), contracts, done) else |done| == |contracts|
      ensures left ==> saved.None? && tables == old(tables)
      ensures !left ==>
                Synced() && LocksSettled() && !tracker.confirming && tracker.HistoryOk() && tracker.Pending() == []
      ensures !left ==>
                var (after, through) := PlainBlock(old(Block()), Plain(old(View()), old(Held())), contracts);
                done == through && tables == (if saved.Some? then after.view else old(tables))
      ensures !left && saved.None? ==> outage.Some?
      ensures saved.Some? ==> saved.value == old(RealHeight(height)) == sessionSerial && Held() == {}
    {
      ghost var w, m := Block(), Now();
      done, left := RunContracts(contracts);
      saved := None;
      if !left {
        ghost var end := Now();
        BlockPlain(w, m, contracts, done, end);
        saved := SaveChanges(height, outage);
      }
    }
  }
}
