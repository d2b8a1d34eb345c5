/** The `IndexedDB` class: one database name, one connection handle, and the
    promise-returning operations over them. The engine's state for that
    database lives in an `Engine` object; every operation settles as an
    `Outcome` instead of a promise. */
module Facade {
  import opened Wrappers
  import opened Values
  import opened KeyRanges
  import opened Schema
  import opened Records
  import opened Cursor

  /** An open connection (`IDBDatabase`), known by the version it opened at. */
  datatype Connection = Connection(version: nat)

  /** The engine's `readyState` once a request has completed. */
  datatype ReadyState = Done

  /** How a promise of the façade settles. */
  datatype Outcome<+T> = Resolved(value: T) | Rejected(error: Error)

  /** What `set` resolves with: the key of one value, or the keys of an
      array's items in order. */
  datatype SetResult = OneKey(key: Key) | Keys(keys: seq<Key>)

  /** The engine's answer to `open(name, version)`. */
  datatype OpenReply = VersionTooLow | Blocked | RequestFailed | Opened(upgrade: bool)

  /** The engine's open request: a version below the current one is a
      VersionError; a higher one fires `onupgradeneeded`, but only once no
      other connection is open (until then the request is blocked). */
  function ReplyToOpen(current: nat, connections: nat, requested: nat, refused: bool): OpenReply
  {
    if requested < current then VersionTooLow
    else if refused then RequestFailed
    else if requested > current && connections > 0 then Blocked
    else Opened(requested > current)
  }

  /** The stores after an open request at version `requested`: the upgrade
      handler runs only when the engine answers with a version change. */
  function StoresAfterOpen(current: nat, requested: nat, handler: OnUpgrade, stores: map<string, Store>): map<string, Store>
  {
    if ReplyToOpen(current, 0, requested, false) == Opened(true) then Upgraded(handler, stores) else stores
  }

  /** With `Date.now()` as the requested version, an open in the same
      millisecond as the previous one asks for the current version: the
      engine opens without firing `onupgradeneeded`, so addStore resolves
      without creating its store. */
  lemma SameMillisecondSkipsUpgrade()
    ensures ReplyToOpen(7, 0, 7, false) == Opened(false)
    ensures "s" !in StoresAfterOpen(7, 7, AddStoreHandler("s", Undefined, false, ""), map[])
    ensures "s" in StoresAfterOpen(7, 8, AddStoreHandler("s", Undefined, false, ""), map[])
  {
  }

  /** The `onupgradeneeded` handler an open request carries. */
  datatype OnUpgrade =
    | NoHandler
    | AddStoreHandler(name: string, spec: Value, replace: bool, keyPath: string)
    | DelStoreHandler(name: string)

  function Upgraded(handler: OnUpgrade, stores: map<string, Store>): map<string, Store>
  {
    match handler
    case NoHandler => stores
    case AddStoreHandler(name, spec, replace, keyPath) => AddStoreUpgrade(stores, name, spec, replace, keyPath)
    case DelStoreHandler(name) => DelStoreUpgrade(stores, name)
  }

  /** Why opening `store` for a transaction fails, when it does: the open
      request failed, `_open` found the store missing, or (for the name "",
      which `_open` does not check) `db.transaction` throws. */
  function StoreError(store: string, refused: bool): (e: Error)
    ensures e == EngineFailure <==> refused
    ensures !refused ==> (e == NotFoundError <==> store == "")
    ensures !refused && store != "" ==> e == StoreMissing(store)
  {
    if refused then EngineFailure else if store != "" then StoreMissing(store) else NotFoundError
  }

  /** The range `find` opens its cursor on: the whole index when `start` is
      omitted, otherwise `_getRange(start, end)`, which may throw. */
  function CursorScope(start: Option<Key>, end: End): (r: Result<Option<Range>, Error>)
    ensures start.None? ==> r == Ok(None)
    ensures r.Err? <==> start.Some? && end.To? && end.k < start.value
    ensures r.Err? ==> r.error == DataError
    ensures r.Ok? && r.value.Some? ==>
      start.Some? && forall k :: Includes(r.value.value, k) <==> Selects(start.value, end, k)
  {
    match start
    case None => Ok(None)
    case Some(s) =>
      match GetRange(s, end)
      case None => Err(DataError)
      case Some(range) => Ok(Some(range))
  }

  /** The engine's state for the façade's database: its version, its object
      stores and how many connections to it are open. A deleted database is
      one at version 0 with no stores. */
  class Engine {
    var version: nat
    var stores: map<string, Store>
    var connections: nat

    constructor ()
      ensures version == 0 && stores == map[] && connections == 0
    {
      version := 0;
      stores := map[];
      connections := 0;
    }
  }

  class IndexedDB {
    const database: string
    const engine: Engine
    /** `this.db`: the open connection, or null. */
    var db: Option<Connection>
    /** The version the next open will exceed; it stands for `Date.now()`. */
    var clock: nat

    /** The façade is the database's only client: the engine has an open
        connection exactly when `db` holds one, that connection is at the
        current version, and no version so far exceeds the clock. */
    ghost predicate Valid()
      reads this, engine
    {
      && engine.version <= clock
      && engine.connections == (if db.Some? then 1 else 0)
      && (db.Some? ==> db.value.version == engine.version)
    }

    constructor (name: string, engine: Engine)
      requires engine.connections == 0
      ensures Valid()
      ensures database == name && this.engine == engine && db == None
    {
      database := name;
      this.engine := engine;
      db := None;
      clock := engine.version;
    }

    /** `close()`: close the connection if one is held and clear the handle;
        with no handle it changes nothing. */
    method Close()
      requires Valid()
      modifies this, engine
      ensures Valid() && db == None
      ensures clock == old(clock)
      ensures engine.version == old(engine.version) && engine.stores == old(engine.stores)
      ensures old(db).None? ==> unchanged(this, engine)
    {
      if db.Some? {
        engine.connections := engine.connections - 1;
        db := None;
      }
    }

    /** The open step every operation shares: close, then ask for a version
        above every earlier one. The engine never answers VersionError or
        blocked: the clock exceeds the current version and no connection is
        left open. On success the upgrade handler has run and the handle is
        stored; on failure the handle is null and nothing else changed. */
    method Request(handler: OnUpgrade, refused: bool) returns (c: Option<Connection>)
      requires Valid()
      modifies this, engine
      ensures Valid()
      ensures clock == old(clock) + 1 && clock > old(engine.version)
      ensures db == c
      ensures c.Some? <==> !refused
      ensures refused ==> engine.version == old(engine.version) && engine.stores == old(engine.stores)
      ensures !refused ==>
        && c.value == Connection(clock)
        && engine.version == clock
        && engine.stores == Upgraded(handler, old(engine.stores))
    {
      Close();
      clock := clock + 1;
      var reply := ReplyToOpen(engine.version, engine.connections, clock, refused);
      match reply
      case VersionTooLow =>
        assert false;
      case Blocked =>
        assert false;
      case RequestFailed =>
        db := None;
        c := None;
      case Opened(upgrade) =>
        if upgrade {
          engine.stores := Upgraded(handler, engine.stores);
        }
        engine.version := clock;
        engine.connections := engine.connections + 1;
        c := Some(Connection(clock));
        db := c;
    }

    /** `_open(store)`: open without an upgrade handler, then reject when a
        non-empty `store` is missing. The handle is assigned even then. */
    method Open(store: string, refused: bool) returns (r: Outcome<Connection>)
      requires Valid()
      modifies this, engine
      ensures Valid()
      ensures clock == old(clock) + 1 && engine.stores == old(engine.stores)
      ensures refused ==> r == Rejected(EngineFailure) && db == None && engine.version == old(engine.version)
      ensures !refused ==> db == Some(Connection(clock)) && engine.version == clock
      ensures !refused && store != "" && store !in engine.stores ==> r == Rejected(StoreMissing(store))
      ensures !refused && (store == "" || store in engine.stores) ==> r == Resolved(Connection(clock))
    {
      var c := Request(NoHandler, refused);
      if c.None? {
        return Rejected(EngineFailure);
      }
      if store != "" && store !in engine.stores {
        r := Rejected(StoreMissing(store));
      } else {
        r := Resolved(c.value);
      }
    }

    /** `hasStore(store)`: open and report whether the store exists. The
        handle stays open. */
    method HasStore(store: string, refused: bool) returns (r: Outcome<bool>)
      requires Valid()
      modifies this, engine
      ensures Valid()
      ensures clock == old(clock) + 1 && engine.stores == old(engine.stores)
      ensures refused ==> r == Rejected(EngineFailure) && db == None && engine.version == old(engine.version)
      ensures !refused ==> r == Resolved(store in engine.stores) && db == Some(Connection(clock)) && engine.version == clock
    {
      var c := Request(NoHandler, refused);
      if c.None? {
        return Rejected(EngineFailure);
      }
      r := Resolved(store in engine.stores);
    }

    /** `addStore(store, obj, replace, keyPath)`: an empty name rejects and
        changes nothing; otherwise open with addStore's upgrade handler and
        resolve with the connection. */
    method AddStore(store: string, spec: Value, replace: bool, keyPath: string, refused: bool) returns (r: Outcome<Connection>)
      requires Valid()
      modifies this, engine
      ensures Valid()
      ensures store == "" ==> r == Rejected(EmptyStoreName) && unchanged(this, engine)
      ensures store != "" && refused ==>
        && r == Rejected(EngineFailure) && db == None && clock == old(clock) + 1
        && engine.version == old(engine.version) && engine.stores == old(engine.stores)
      ensures store != "" && !refused ==>
        && r == Resolved(Connection(clock)) && db == Some(Connection(clock))
        && clock == old(clock) + 1 && engine.version == clock
        && AddStoreEffect(old(engine.stores), store, spec, replace, keyPath) == Ok(engine.stores)
    {
      if store == "" {
        return Rejected(EmptyStoreName);
      }
      var c := Request(AddStoreHandler(store, spec, replace, keyPath), refused);
      if c.None? {
        return Rejected(EngineFailure);
      }
      r := Resolved(c.value);
    }

    /** `delStore(store)`: open with delStore's upgrade handler and resolve
        with the connection. */
    method DelStore(store: string, refused: bool) returns (r: Outcome<Connection>)
      requires Valid()
      modifies this, engine
      ensures Valid()
      ensures clock == old(clock) + 1
      ensures refused ==>
        && r == Rejected(EngineFailure) && db == None
        && engine.version == old(engine.version) && engine.stores == old(engine.stores)
      ensures !refused ==>
        && r == Resolved(Connection(clock)) && db == Some(Connection(clock)) && engine.version == clock
        && engine.stores == DelStoreUpgrade(old(engine.stores), store)
    {
      var c := Request(DelStoreHandler(store), refused);
      if c.None? {
        return Rejected(EngineFailure);
      }
      r := Resolved(c.value);
    }

    /** `_open(store)` followed by `db.transaction([store]).objectStore(store)`:
        the store a data operation works on, or why it cannot start. */
    method Transaction(store: string, refused: bool) returns (r: Outcome<Store>)
      requires Valid()
      modifies this, engine
      ensures Valid()
      ensures clock == old(clock) + 1 && engine.stores == old(engine.stores)
      ensures refused ==> db == None && engine.version == old(engine.version)
      ensures !refused ==> db == Some(Connection(clock)) && engine.version == clock
      ensures r.Resolved? <==> !refused && store in engine.stores
      ensures r.Resolved? ==> r.value == engine.stores[store]
      ensures r.Rejected? ==> r.error == StoreError(store, refused)
    {
      var handle := Open(store, refused);
      if handle.Rejected? {
        return Rejected(handle.error);
      }
      if store !in engine.stores {
        return Rejected(NotFoundError);
      }
      r := Resolved(engine.stores[store]);
    }

    /** `get(store, key)`: the stored value or `undefined`; the handle is
        closed once the value is read. */
    method Get(store: string, key: Key, refused: bool) returns (r: Outcome<Value>)
      requires Valid()
      modifies this, engine
      ensures Valid()
      ensures refused ==> db == None && engine.version == old(engine.version)
      ensures !refused ==> engine.version == clock
      ensures !refused && store !in old(engine.stores) ==> db == Some(Connection(clock))
      ensures clock == old(clock) + 1 && engine.stores == old(engine.stores)
      ensures r.Resolved? <==> !refused && store in engine.stores
      ensures r.Resolved? ==> r.value == Lookup(engine.stores[store].records, key) && db == None
      ensures r.Rejected? ==> r.error == StoreError(store, refused)
    {
      var tx := Transaction(store, refused);
      if tx.Rejected? {
        return Rejected(tx.error);
      }
      var value := Lookup(tx.value.records, key);
      Close();
      r := Resolved(value);
    }

    /** `find(store, indexName, start, end)`: the values the cursor visits,
        in cursor order. A missing index or an empty range rejects and
        leaves the handle open. */
    method Find(store: string, indexName: string, start: Option<Key>, end: End, refused: bool) returns (r: Outcome<seq<Value>>)
      requires Valid()
      modifies this, engine
      ensures Valid()
      ensures refused ==> db == None && engine.version == old(engine.version)
      ensures !refused ==> engine.version == clock
      ensures !refused && store !in old(engine.stores) ==> db == Some(Connection(clock))
      ensures clock == old(clock) + 1 && engine.stores == old(engine.stores)
      ensures refused || store !in engine.stores ==> r == Rejected(StoreError(store, refused))
      ensures !refused && store in engine.stores ==>
        var st := engine.stores[store];
        && (indexName !in st.indexes ==> r == Rejected(NotFoundError) && db.Some?)
        && (indexName in st.indexes && CursorScope(start, end).Err? ==> r == Rejected(DataError) && db.Some?)
        && (indexName in st.indexes && CursorScope(start, end).Ok? ==>
              && r == Resolved(Project(st.records, Ordered(Matching(st.records, indexName, CursorScope(start, end).value))))
              && db == None)
    {
      var tx := Transaction(store, refused);
      if tx.Rejected? {
        return Rejected(tx.error);
      }
      var st := tx.value;
      if indexName !in st.indexes {
        return Rejected(NotFoundError);
      }
      var scope := CursorScope(start, end);
      if scope.Err? {
        return Rejected(scope.error);
      }
      var values := Scan(st.records, Matching(st.records, indexName, scope.value));
      Close();
      r := Resolved(values);
    }

    /** `set(store, val, key)`: an array is written item by item and resolves
        with the keys in input order; anything else is one `_set`. Writes made
        before a rejection stay committed, and the handle stays open. */
    method Set(store: string, val: Value, key: Value, refused: bool) returns (r: Outcome<SetResult>)
      requires Valid()
      modifies this, engine
      ensures Valid()
      ensures refused ==> db == None && engine.version == old(engine.version)
      ensures !refused ==> engine.version == clock
      ensures !refused && store !in old(engine.stores) ==> db == Some(Connection(clock))
      ensures clock == old(clock) + 1
      ensures refused || store !in old(engine.stores) ==>
        r == Rejected(StoreError(store, refused)) && engine.stores == old(engine.stores)
      ensures !refused && store in old(engine.stores) && val.Arr? ==>
        var b := PutAll(old(engine.stores)[store], val.items, key);
        && engine.stores == old(engine.stores)[store := b.store]
        && (b.failure.None? ==> r == Resolved(Keys(b.keys)) && db == None)
        && (b.failure.Some? ==> r == Rejected(b.failure.value) && db.Some?)
      ensures !refused && store in old(engine.stores) && !val.Arr? ==>
        var w := SetOne(old(engine.stores)[store], val, key);
        && (w.Wrote? ==> engine.stores == old(engine.stores)[store := w.after] && r == Resolved(OneKey(w.key)) && db == None)
        && (w.Refused? ==> engine.stores == old(engine.stores) && r == Rejected(w.error) && db.Some?)
    {
      var tx := Transaction(store, refused);
      if tx.Rejected? {
        return Rejected(tx.error);
      }
      if val.Arr? {
        var b := PutEach(tx.value, val.items, key);
        engine.stores := engine.stores[store := b.store];
        if b.failure.Some? {
          return Rejected(b.failure.value);
        }
        Close();
        r := Resolved(Keys(b.keys));
      } else {
        var w := SetOne(tx.value, val, key);
        match w
        case Refused(e) =>
          r := Rejected(e);
        case Wrote(k, after) =>
          engine.stores := engine.stores[store := after];
          Close();
          r := Resolved(OneKey(k));
      }
    }

    /** `del(store, start, end)`: delete key `start` when `end` is omitted,
        otherwise every key in `_getRange(start, end)`. */
    method Del(store: string, start: Key, end: Option<End>, refused: bool) returns (r: Outcome<ReadyState>)
      requires Valid()
      modifies this, engine
      ensures Valid()
      ensures refused ==> db == None && engine.version == old(engine.version)
      ensures !refused ==> engine.version == clock
      ensures !refused && store !in old(engine.stores) ==> db == Some(Connection(clock))
      ensures clock == old(clock) + 1
      ensures refused || store !in old(engine.stores) ==>
        r == Rejected(StoreError(store, refused)) && engine.stores == old(engine.stores)
      ensures !refused && store in old(engine.stores) ==>
        var st := old(engine.stores)[store];
        && (DelTarget(start, end).None? ==> r == Rejected(DataError) && engine.stores == old(engine.stores) && db.Some?)
        && (DelTarget(start, end).Some? ==>
              && engine.stores == old(engine.stores)[store := st.(records := Deleted(st.records, DelTarget(start, end).value))]
              && r == Resolved(Done) && db == None)
    {
      var tx := Transaction(store, refused);
      if tx.Rejected? {
        return Rejected(tx.error);
      }
      var target := DelTarget(start, end);
      if target.None? {
        return Rejected(DataError);
      }
      var st := tx.value;
      engine.stores := engine.stores[store := st.(records := Deleted(st.records, target.value))];
      Close();
      r := Resolved(Done);
    }

    /** `clear(store)`: empty the named store; no other store changes. */
    method Clear(store: string, refused: bool) returns (r: Outcome<ReadyState>)
      requires Valid()
      modifies this, engine
      ensures Valid()
      ensures refused ==> db == None && engine.version == old(engine.version)
      ensures !refused ==> engine.version == clock
      ensures !refused && store !in old(engine.stores) ==> db == Some(Connection(clock))
      ensures clock == old(clock) + 1
      ensures refused || store !in old(engine.stores) ==>
        r == Rejected(StoreError(store, refused)) && engine.stores == old(engine.stores)
      ensures !refused && store in old(engine.stores) ==>
        && engine.stores == old(engine.stores)[store := old(engine.stores)[store].(records := map[])]
        && r == Resolved(Done) && db == None
    {
      var tx := Transaction(store, refused);
      if tx.Rejected? {
        return Rejected(tx.error);
      }
      engine.stores := engine.stores[store := tx.value.(records := map[])];
      Close();
      r := Resolved(Done);
    }

    /** `delDB()`: close, then delete the database. With the handle closed
        no connection can block the deletion. */
    method DelDB(refused: bool) returns (r: Outcome<ReadyState>)
      requires Valid()
      modifies this, engine
      ensures Valid() && db == None && clock == old(clock)
      ensures refused ==>
        r == Rejected(EngineFailure) && engine.version == old(engine.version) && engine.stores == old(engine.stores)
      ensures !refused ==> r == Resolved(Done) && engine.version == 0 && engine.stores == map[]
    {
      Close();
      assert engine.connections == 0;
      if refused {
        return Rejected(EngineFailure);
      }
      engine.version := 0;
      engine.stores := map[];
      r := Resolved(Done);
    }
  }
  /** hasStore reports a store right after addStore created it, and does
      not right after delStore dropped it. */
  method AddStoreThenHasStore(idb: IndexedDB, store: string, spec: Value, keyPath: string)
    returns (afterAdd: Outcome<bool>, afterDel: Outcome<bool>)
    requires idb.Valid() && store != ""
    modifies idb, idb.engine
    ensures idb.Valid()
    ensures afterAdd == Resolved(true) && afterDel == Resolved(false)
  {
    var added := idb.AddStore(store, spec, false, keyPath, false);
    afterAdd := idb.HasStore(store, false);
    var dropped := idb.DelStore(store, false);
    afterDel := idb.HasStore(store, false);
  }

  /** A second addStore with `replace` false leaves the store map exactly
      as the first one left it. */
  method AddStoreTwice(idb: IndexedDB, store: string, spec: Value, keyPath: string, spec2: Value, keyPath2: string)
    returns (afterFirst: map<string, Store>, afterSecond: map<string, Store>)
    requires idb.Valid() && store != ""
    modifies idb, idb.engine
    ensures idb.Valid()
    ensures store in afterFirst && afterSecond == afterFirst
  {
    var first := idb.AddStore(store, spec, false, keyPath, false);
    afterFirst := idb.engine.stores;
    var second := idb.AddStore(store, spec2, false, keyPath2, false);
    afterSecond := idb.engine.stores;
    AddStoreTwiceKeeps(old(idb.engine.stores), store, spec, keyPath, spec2, keyPath2);
  }

  /** `set` then `get` under the key `set` resolved with returns the value
      written. */
  method SetThenGet(idb: IndexedDB, store: string, val: Value, key: Value)
    returns (written: Outcome<SetResult>, read: Outcome<Value>)
    requires idb.Valid() && store in idb.engine.stores && !val.Arr?
    modifies idb, idb.engine
    ensures idb.Valid()
    ensures written.Resolved? <==> ChosenKey(old(idb.engine.stores)[store].keyPath, val, key).Ok?
    ensures written.Resolved? ==> written.value.OneKey? && read == Resolved(val)
  {
    written := idb.Set(store, val, key, false);
    if written.Resolved? {
      read := idb.Get(store, written.value.key, false);
    } else {
      read := Rejected(written.error);
    }
  }

  /** `del(store, k)` then `get(store, k)` resolves with `undefined`. */
  method DelThenGet(idb: IndexedDB, store: string, k: Key) returns (read: Outcome<Value>)
    requires idb.Valid() && store in idb.engine.stores
    modifies idb, idb.engine
    ensures idb.Valid()
    ensures read == Resolved(Undefined)
  {
    var deleted := idb.Del(store, k, None, false);
    read := idb.Get(store, k, false);
  }
}
