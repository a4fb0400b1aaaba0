/** The persistent cache behind the dashboard (`CacheManager`): an IndexedDB
    database named "CricketAcademyCache", version 1, holding seven object
    stores, each a map from a key to an entry (the cached data and the clock
    reading when it was written). Every operation first runs the memoised
    initialisation, which opens the database at most once. */
module Cache {
  import opened Wrappers
  import opened Json

  const DB_NAME: string := "CricketAcademyCache"
  const DB_VERSION: nat := 1

  /** The object stores the upgrade handler creates and `clearAll` clears. */
  const STORES: seq<string> := ["users", "batches", "content", "attendance", "yoyoTest", "fees", "analytics"]

  /** The reserved key under which each store keeps its last-sync marker. */
  const LAST_SYNC_KEY: string := "__last_sync__"

  datatype Entry = Entry(data: Value, timestamp: int)

  type ObjectStore = map<string, Entry>
  type Database = map<string, ObjectStore>

  /** The database as the browser holds it before the page opens it; a
      database that does not exist yet has version 0 and no stores. */
  datatype Disk = Disk(version: nat, stores: Database)

  /** How a cache operation's promise settles. */
  datatype Outcome<+T> = Resolved(value: T) | Rejected

  /** The stores after the upgrade handler: it creates every store of STORES
      that is missing and drops none. */
  function Upgraded(stores: Database): (r: Database)
    ensures r.Keys == stores.Keys + set s | s in STORES
    ensures forall s :: s in stores ==> s in r && r[s] == stores[s]
    ensures forall s :: s in r && s !in stores ==> r[s] == map[]
  {
    stores + map s | s in STORES && s !in stores :: map[]
  }

  /** The stores after creating each store of `names` that is missing. */
  function UpgradedWith(stores: Database, names: seq<string>): Database {
    stores + map s | s in names && s !in stores :: map[]
  }

  /** Creating one more store of `names` adds it, empty, unless it exists. */
  lemma UpgradeStep(stores: Database, names: seq<string>, i: nat)
    requires i < |names|
    ensures var u := UpgradedWith(stores, names[..i]);
            UpgradedWith(stores, names[..i + 1]) == if names[i] in u then u else u[names[i] := map[]]
  {
    assert names[..i + 1] == names[..i] + [names[i]];
  }

  /** `onupgradeneeded`: visits the store names in turn and creates each one
      the database does not have yet. */
  method UpgradeStores(stores: Database) returns (r: Database)
    ensures r == Upgraded(stores)
  {
    r := stores;
    var i := 0;
    while i < |STORES|
      invariant 0 <= i <= |STORES|
      invariant r == UpgradedWith(stores, STORES[..i])
    {
      UpgradeStep(stores, STORES, i);
      if STORES[i] !in r {
        r := r[STORES[i] := map[]];
      }
      i := i + 1;
    }
    assert STORES[..i] == STORES;
  }

  /** The database `indexedDB.open(DB_NAME, DB_VERSION)` yields, or `None`
      when the open fails: the browser refuses (`canOpen` is false), or the
      database on disk is newer than DB_VERSION (a version error). An older
      database goes through the upgrade handler first. */
  function Opened(disk: Disk, canOpen: bool): (r: Option<Database>)
    ensures r.None? <==> !canOpen || disk.version > DB_VERSION
    ensures r.Some? ==> disk.stores.Keys <= r.value.Keys
    ensures r.Some? && disk.version < DB_VERSION ==> forall s :: s in STORES ==> s in r.value
  {
    if !canOpen || disk.version > DB_VERSION then None
    else if disk.version < DB_VERSION then Some(Upgraded(disk.stores))
    else Some(disk.stores)
  }

  /** What `get(store, key)` resolves to on an open database: the entry's data,
      or `None` (null) for a missing key. A store the database does not have
      makes the transaction throw, so the promise rejects. */
  function Read(db: Database, store: string, key: string): (r: Outcome<Option<Value>>)
    ensures r.Rejected? <==> store !in db
    ensures r.Resolved? ==> (r.value.Some? <==> key in db[store])
    ensures r.Resolved? && r.value.Some? ==> r.value.value == db[store][key].data
  {
    if store !in db then Rejected
    else if key in db[store] then Resolved(Some(db[store][key].data))
    else Resolved(None)
  }

  /** `put(entry, key)` on one store. Reading the key back gives the written
      data; every other key of every store reads as before. */
  function Write(db: Database, store: string, key: string, e: Entry): (r: Database)
    requires store in db
    ensures r.Keys == db.Keys
    ensures Read(r, store, key) == Resolved(Some(e.data)) && r[store][key] == e
    ensures forall s, k :: s in db && (s != store || k != key) ==>
              Read(r, s, k) == Read(db, s, k) && (k in r[s] <==> k in db[s])
  {
    db[store := db[store][key := e]]
  }

  /** `delete(key)` on one store. The key reads back as missing; every other
      key of every store reads as before; deleting a missing key changes
      nothing. */
  function Delete(db: Database, store: string, key: string): (r: Database)
    requires store in db
    ensures r.Keys == db.Keys
    ensures Read(r, store, key) == Resolved(None)
    ensures forall s, k :: s in db && (s != store || k != key) ==> Read(r, s, k) == Read(db, s, k)
  {
    db[store := db[store] - {key}]
  }

  /** Removing a key that is not there leaves the database as it was. */
  lemma DeleteMissingKey(db: Database, store: string, key: string)
    requires store in db && key !in db[store]
    ensures Delete(db, store, key) == db
  {
    assert db[store] - {key} == db[store];
  }

  /** `clear()` on one store: it loses every key, its last-sync marker
      included; the other stores keep theirs. */
  function Cleared(db: Database, store: string): (r: Database)
    requires store in db
    ensures r.Keys == db.Keys
    ensures forall k :: Read(r, store, k) == Resolved(None)
    ensures forall s, k :: s in db && s != store ==> Read(r, s, k) == Read(db, s, k)
  {
    db[store := map[]]
  }

  /** Every store named in `names` emptied, the others untouched. */
  function ClearedAll(db: Database, names: seq<string>): (r: Database)
    ensures r.Keys == db.Keys
    ensures forall s :: s in r ==> r[s] == if s in names then map[] else db[s]
  {
    map s | s in db :: if s in names then map[] else db[s]
  }

  /** Every store of `names` exists in `db`. */
  predicate AllIn(names: seq<string>, db: Database)
    ensures AllIn(names, db) <==> forall s :: s in names ==> s in db
  {
    forall i :: 0 <= i < |names| ==> names[i] in db
  }

  /** Clearing one more store of `names` extends `ClearedAll` by that store,
      or by nothing when the database lacks it. */
  lemma ClearAllStep(base: Database, names: seq<string>, i: nat)
    requires i < |names|
    ensures var before := ClearedAll(base, names[..i]);
            && (names[i] in base ==> names[i] in before && ClearedAll(base, names[..i + 1]) == Cleared(before, names[i]))
            && (names[i] !in base ==> names[i] !in before && ClearedAll(base, names[..i + 1]) == before)
            && (AllIn(names[..i + 1], base) <==> AllIn(names[..i], base) && names[i] in base)
  {
    assert names[..i + 1] == names[..i] + [names[i]];
    var before := ClearedAll(base, names[..i]);
    if names[i] in base {
      assert ClearedAll(base, names[..i + 1]) == Cleared(before, names[i]);
    } else {
      assert ClearedAll(base, names[..i + 1]) == before;
    }
  }

  /** The data `setLastSyncTime` stores: `{ timestamp: now }`. */
  function Marker(now: int): Value {
    JObj(map["timestamp" := JNum(now)])
  }

  /** `syncData?.timestamp || null` over what `get` resolved to: a truthy
      `timestamp` property, or `None` (null). */
  function SyncTime(data: Option<Value>): (r: Option<Value>)
    ensures r.Some? <==> data.Some? && data.value.JObj? && "timestamp" in data.value.fields &&
                         Truthy(data.value.fields["timestamp"])
    ensures r.Some? ==> r.value == data.value.fields["timestamp"]
  {
    match data
    case None => None
    case Some(d) =>
      match Field(d, "timestamp")
      case Some(t) => if Truthy(t) then Some(t) else None
      case None => None
  }

  /** A marker written at time `now` reads back as `now`, except that a time
      of 0 is falsy and reads back as null. */
  lemma MarkerReadsBack(now: int)
    ensures SyncTime(Some(Marker(now))) == if now != 0 then Some(JNum(now)) else None
  {
  }

  /** A database that is open resolves reads as `Read` says; a database that
      never opened rejects them. */
  function ReadOutcome(db: Option<Database>, store: string, key: string): (r: Outcome<Option<Value>>)
    ensures db.None? ==> r.Rejected?
  {
    match db
    case None => Rejected
    case Some(d) => Read(d, store, key)
  }

  class CacheManager {
    /** The browser's side of `indexedDB.open`: the database as it is on disk
        and whether the browser lets the page open it at all. */
    const disk: Disk
    const canOpen: bool

    /** `this.db`: `None` until an open has succeeded. */
    var db: Option<Database>
    /** `this.initPromise !== null`: the open has been started. */
    var initStarted: bool
    /** The memoised open rejected; the same rejection is returned forever. */
    var initFailed: bool
    /** How many times `indexedDB.open` has been called. */
    ghost var opens: nat

    ghost predicate Valid()
      reads this
    {
      && opens == (if initStarted then 1 else 0)
      && (!initStarted ==> db.None? && !initFailed)
      && (initStarted ==> (initFailed <==> db.None?) && (initFailed <==> Opened(disk, canOpen).None?))
      && (db.Some? ==> db.value.Keys == Opened(disk, canOpen).value.Keys)
    }

    /** The database as initialisation leaves it when it starts from `was`:
        an open that has been started keeps its result, otherwise the open
        happens now. */
    function AfterInit(was: Option<Database>, started: bool): Option<Database> {
      if started then was else Opened(disk, canOpen)
    }

    constructor (disk: Disk, canOpen: bool)
      ensures Valid()
      ensures this.disk == disk && this.canOpen == canOpen
      ensures db.None? && !initStarted && !initFailed && opens == 0
    {
      this.disk := disk;
      this.canOpen := canOpen;
      db := None;
      initStarted := false;
      initFailed := false;
      opens := 0;
    }

    /** `initDB`: returns at once when the database is open, returns the
        memoised result when an open was started, and otherwise opens the
        database (running the upgrade handler on an older one). */
    method InitDB() returns (ok: bool)
      requires Valid()
      modifies this
      ensures Valid() && initStarted
      ensures ok <==> db.Some?
      ensures db == AfterInit(old(db), old(initStarted))
      ensures old(initStarted) ==> initFailed == old(initFailed) && opens == old(opens)
    {
      if db.Some? {
        return true;
      }
      if initStarted {
        return !initFailed;
      }
      initStarted := true;
      opens := opens + 1;
      if !canOpen || disk.version > DB_VERSION {
        initFailed := true;
        return false;
      }
      var stores := disk.stores;
      if disk.version < DB_VERSION {
        stores := UpgradeStores(stores);
      }
      db := Some(stores);
      return true;
    }

    /** `get(store, key)`. */
    method Get(store: string, key: string) returns (r: Outcome<Option<Value>>)
      requires Valid()
      modifies this
      ensures Valid() && initStarted
      ensures db == AfterInit(old(db), old(initStarted))
      ensures r == ReadOutcome(db, store, key)
    {
      var ok := InitDB();
      if !ok {
        return Rejected;
      }
      r := Read(db.value, store, key);
    }

    /** `set(store, key, data)`, stamping the entry with the clock reading
        `now`. */
    method Set(store: string, key: string, data: Value, now: int) returns (r: Outcome<()>)
      requires Valid()
      modifies this
      ensures Valid() && initStarted
      ensures var base := AfterInit(old(db), old(initStarted));
              && (r.Resolved? <==> base.Some? && store in base.value)
              && db == if r.Resolved? then Some(Write(base.value, store, key, Entry(data, now))) else base
    {
      var ok := InitDB();
      if !ok || store !in db.value {
        return Rejected;
      }
      db := Some(Write(db.value, store, key, Entry(data, now)));
      r := Resolved(());
    }

    /** `remove(store, key)`. */
    method Remove(store: string, key: string) returns (r: Outcome<()>)
      requires Valid()
      modifies this
      ensures Valid() && initStarted
      ensures var base := AfterInit(old(db), old(initStarted));
              && (r.Resolved? <==> base.Some? && store in base.value)
              && db == if r.Resolved? then Some(Delete(base.value, store, key)) else base
    {
      var ok := InitDB();
      if !ok || store !in db.value {
        return Rejected;
      }
      db := Some(Delete(db.value, store, key));
      r := Resolved(());
    }

    /** `clear(store)`. */
    method Clear(store: string) returns (r: Outcome<()>)
      requires Valid()
      modifies this
      ensures Valid() && initStarted
      ensures var base := AfterInit(old(db), old(initStarted));
              && (r.Resolved? <==> base.Some? && store in base.value)
              && db == if r.Resolved? then Some(Cleared(base.value, store)) else base
    {
      var ok := InitDB();
      if !ok || store !in db.value {
        return Rejected;
      }
      db := Some(Cleared(db.value, store));
      r := Resolved(());
    }

    /** `clearAll()`: clears each store of STORES in turn. `Promise.all`
        rejects when one of the clears rejects (a store the database lacks),
        but every clear is attempted. */
    method ClearAll() returns (r: Outcome<()>)
      requires Valid()
      modifies this
      ensures Valid() && initStarted
      ensures var base := AfterInit(old(db), old(initStarted));
              && (r.Resolved? <==> base.Some? && forall s :: s in STORES ==> s in base.value)
              && db == if base.Some? then Some(ClearedAll(base.value, STORES)) else None
    {
      var ok := InitDB();
      if !ok {
        return Rejected;
      }
      var failed := ClearStores();
      r := if failed then Rejected else Resolved(());
    }

    /** The clears of `clearAll()` on an open database, in the order of
        STORES; `failed` says whether one of them rejected. */
    method ClearStores() returns (failed: bool)
      requires Valid() && initStarted && db.Some?
      modifies this
      ensures Valid() && initStarted
      ensures db == Some(ClearedAll(old(db).value, STORES))
      ensures failed <==> !AllIn(STORES, old(db).value)
    {
      ghost var base := db.value;
      var i := 0;
      failed := false;
      while i < |STORES|
        invariant 0 <= i <= |STORES|
        invariant Valid() && initStarted && db.Some?
        invariant db.value == ClearedAll(base, STORES[..i])
        invariant failed <==> !AllIn(STORES[..i], base)
      {
        ClearAllStep(base, STORES, i);
        var c := Clear(STORES[i]);
        if c.Rejected? {
          failed := true;
        }
        i := i + 1;
      }
      assert STORES[..i] == STORES;
    }

    /** `getLastSyncTime(store)`. */
    method GetLastSyncTime(store: string) returns (r: Outcome<Option<Value>>)
      requires Valid()
      modifies this
      ensures Valid() && initStarted
      ensures db == AfterInit(old(db), old(initStarted))
      ensures r == match ReadOutcome(db, store, LAST_SYNC_KEY)
                   case Rejected => Rejected
                   case Resolved(d) => Resolved(SyncTime(d))
    {
      var g := Get(store, LAST_SYNC_KEY);
      match g
      case Rejected => r := Rejected;
      case Resolved(d) => r := Resolved(SyncTime(d));
    }

    /** `setLastSyncTime(store)`: the marker holds the clock reading `now`;
        `set` stamps the entry with its own later reading `writeTime`. */
    method SetLastSyncTime(store: string, now: int, writeTime: int) returns (r: Outcome<()>)
      requires Valid()
      modifies this
      ensures Valid() && initStarted
      ensures var base := AfterInit(old(db), old(initStarted));
              && (r.Resolved? <==> base.Some? && store in base.value)
              && db == if r.Resolved? then Some(Write(base.value, store, LAST_SYNC_KEY, Entry(Marker(now), writeTime))) else base
    {
      r := Set(store, LAST_SYNC_KEY, Marker(now), writeTime);
    }
  }

  /** On a browser that opens databases, a value set into a fresh cache
      reads back unchanged from any of the seven stores; a store outside
      them rejects both calls. */
  method SetThenGet(store: string, key: string, v: Value, now: int) returns (r: Outcome<Option<Value>>)
    ensures r == if store in STORES then Resolved(Some(v)) else Rejected
  {
    var cache := new CacheManager(Disk(0, map[]), true);
    var w := cache.Set(store, key, v, now);
    r := cache.Get(store, key);
  }

  /** A failed open is never retried: every later operation rejects without
      opening the database again. */
  method FailedOpenSticks(disk: Disk, store: string, key: string, v: Value, now: int)
    returns (first: Outcome<()>, second: Outcome<Option<Value>>)
    ensures first == Rejected && second == Rejected
  {
    var cache := new CacheManager(disk, false);
    first := cache.Set(store, key, v, now);
    second := cache.Get(store, key);
    assert cache.opens == 1;
  }

  /** A last-sync marker reads back as the time it was written (null for a
      time of 0), and `clearAll` forgets it. */
  method SyncMarkerLifecycle(store: string, now: int, writeTime: int)
    returns (before: Outcome<Option<Value>>, after: Outcome<Option<Value>>)
    requires store in STORES
    ensures before == Resolved(if now != 0 then Some(JNum(now)) else None)
    ensures after == Resolved(None)
  {
    var cache := new CacheManager(Disk(1, map s | s in STORES :: map[]), true);
    var w := cache.SetLastSyncTime(store, now, writeTime);
    before := cache.GetLastSyncTime(store);
    MarkerReadsBack(now);
    var c := cache.ClearAll();
    after := cache.GetLastSyncTime(store);
  }
}
