# indexeddb-promise, modelled in Dafny

`IndexedDB` (src/index.js) is a promise façade over a browser's Indexed
Database engine. One instance owns one database name and at most one open
connection (`this.db`). Every operation but `delDB` closes that connection,
opens a new one at a version meant to be higher than the current one (so that
`onupgradeneeded` fires; see Findings for when it is not), does one piece of
work, and usually closes again. `delDB` closes and deletes the database
without opening it. The work is one of:

- a schema change: `addStore` or `delStore`, done inside the upgrade handler;
- a read: `get`, or `find` with a cursor over an index;
- a write: `set` (one value, or an array written item by item), `del`
  (one key or a key range), `clear`;
- the whole database: `delDB`, `hasStore`.

The model keeps this control layer and replaces the engine with a small
abstract one:

- a database is a version, a map from store name to `Store(keyPath, indexes, records)`,
  and a count of open connections;
- keys are integers;
- values are a small JavaScript-value datatype (`Values.Value`).

Promises become `Outcome` values (`Resolved(v)` or `Rejected(error)`).
`Date.now()` becomes a counter that only increases (`clock`).

Modules, one per concern of the source file:

- `Values`: JavaScript values, the key domain, `!!v`, the plain-object test, and the rejection reasons.
- `KeyRanges`: `_getRange` and the four `IDBKeyRange` forms.
- `Schema`: object stores, the index spec of `addStore`, and the two upgrade handlers.
- `Records`: the key rule of `_set`, the batch loop of `set`, and the targets of `del`.
- `Cursor`: index entries, cursor order, and the accumulation loop of `find`.
- `Facade`: the `IndexedDB` class with its handle and counter, and the engine state.

The `refused` parameter on the operations stands for the engine failing the
open or delete request itself. That depends on the browser, not on this code.

## Model

| member | source | states |
|---|---|---|
| `KeyRanges.GetRange` | src/index.js:183-188 | `end` true (the default) selects exactly the keys ≤ start; `end` false selects exactly the keys ≥ start; `end` equal to start selects exactly {start}; any other `end` ≥ start selects exactly [start, end]. An `end` below start is the engine's DataError. Also names the `IDBKeyRange` form chosen in each case. |
| `Values.Lookup` | src/index.js:202-206 | `get` yields the stored value when the key is present and `undefined` otherwise. |
| `Schema.IndexesOf` | src/index.js:125-131 | A plain-object spec yields one index per own field, unique exactly when that field's value is truthy. Any other spec yields no indexes. |
| `Schema.AddStoreUpgrade` | src/index.js:116-131 | An existing store with `replace` false leaves the store map unchanged. Otherwise the store is (re)created empty, with a key path exactly when `keyPath` is non-empty, and with the indexes of `IndexesOf(spec)`. Every other store is untouched. |
| `Schema.DelStoreUpgrade` | src/index.js:156-161 | Removes exactly the named store. A missing store is a no-op. Every other store is untouched. |
| `Schema.AddStoreTwiceKeeps` | src/index.js:118-121 | A second `addStore` with `replace` false, whatever its spec and key path, leaves the store map exactly as the first one did. |
| `Schema.AddStoreEffect` | src/index.js:109-131 | addStore as intended: the empty name and only that rejects, with EmptyStoreName. Otherwise the named store exists afterwards and every other store is unchanged. |
| `Schema.AddStoreAsWritten` | src/index.js:109-131 | addStore as written: it rejects exactly for the empty name, with EmptyStoreName, and the upgrade still runs, so the named store exists afterwards in every case. |
| `Schema.AddStoreEmptyNameCreatesStore` | src/index.js:111-124 | As written, `addStore("")` rejects and yet leaves a store named "" behind. The intended version rejects and leaves the stores alone. |
| `Schema.AddThenDelStore` | src/index.js:109-160 | After addStore with a non-empty name the store exists; after delStore of the same name it does not. |
| `Records.ChosenKey` | src/index.js:263-274 | Store without key path: a plain object with a field named `key` is written under that field's value, anything else under `key` itself. Store with key path: a value that is not a plain object holding the key-path field fails with the in-line keys error, and one that holds it is written under that field's value exactly when the value is a valid key. A chosen value that is not a valid key is a DataError (the corrected behaviour; see Findings). |
| `Records.SetOne` | src/index.js:263-281 | One `_set` fails exactly when `ChosenKey` does, with the same error. On success the store afterwards is the old one with the value put under the chosen key. The DataError rejection is the corrected behaviour of the second Finding. |
| `Records.SetOneAsWritten` | src/index.js:263-274 | `_set` as written: it never settles exactly where `ChosenKey` gives DataError; the only rejection it does deliver is the in-line keys error; a write puts the value under its key. |
| `Records.SetThenGet` | src/index.js:263-281 | After a successful `_set`: the chosen key reads back the value written, every other key reads as before, the store gains exactly that key, and the key path and indexes are unchanged. |
| `Records.SetOneAsWrittenDiffers` | src/index.js:264-274 | The source's `_set` agrees with `SetOne` everywhere except where `SetOne` rejects with DataError. There the source's promise never settles. |
| `Records.SetWithoutKeyNeverSettles` | src/index.js:264-267 | Concrete case: `set(store, {a: 1})` on a store without key path never settles as written, and rejects with DataError as corrected. |
| `Records.PutAll` | src/index.js:297-303 | `set` on an array, item by item until the first rejection: never more keys than items, and one key per item when no item fails. |
| `Records.PutAllKeys` | src/index.js:297-303 | Keys come in input order, one per item written, each the key `ChosenKey` picks for that item. The batch completes exactly when every item is written. Otherwise it stops at the first item whose key is rejected, with that item's error. The store's key path and indexes are unchanged. |
| `Records.PutAllStops` | src/index.js:297-303 | A batch that fails at item i gives the same outcome on items[..i+1], so nothing after item i is attempted. |
| `Records.PutAllWrites` | src/index.js:297-303 | What a batch leaves written is exactly what the items before the stopping point write, each completing. For a failure at item i these are items 0..i-1. |
| `Records.PutAllUntouched` | src/index.js:297-303 | Every key the batch did not write reads as it did before the batch. |
| `Records.PutAllRecords` | src/index.js:297-303 | Last write wins: item i holds its key afterwards when no later item of the batch writes that key. |
| `Records.PutEach` | src/index.js:298-301 | The batch loop (each write finishes before the next starts, and the first rejection ends the loop) computes exactly `PutAll`, whose properties are the lemmas above. |
| `Records.DelTarget` | src/index.js:328 | With `end` omitted, `del` targets the single key `start`. Otherwise it targets exactly the keys `_getRange(start, end)` selects, and an `end` below start is a DataError. |
| `Records.Deleted` | src/index.js:328 | Afterwards the store holds exactly the keys that were there and are not targeted. Targeted keys read as `undefined`; the others keep their values. |
| `Cursor.OrderedSpec` | src/index.js:238-247 | Cursor order lists every matched entry exactly once, and each entry comes strictly before the ones after it (by index key, then primary key). |
| `Cursor.Least` | src/index.js:243 | A cursor step yields an unvisited entry that precedes every other unvisited entry. |
| `Cursor.IndexKey` | src/index.js:128 | A record is in the index on `field` exactly when it is a plain object whose `field` holds a valid key, and its index key is that value. |
| `Cursor.Matching` | src/index.js:232-233 | The cursor visits exactly the records that have an index key in scope: the whole index when `start` is omitted, otherwise the range. |
| `Cursor.Project` | src/index.js:241 | The result has one value per visited entry, in the same order, and each is that entry's stored value. |
| `Cursor.Scan` | src/index.js:234-247 | The accumulation loop (push `cursor.value` until the cursor is null) returns the values of the matched entries in cursor order. |
| `KeyRanges.DefaultEndSelectsUpTo` | src/index.js:183-185 | With `end` omitted (default `true`, as in `find` at line 226), the range is `upperBound(start)` and selects exactly the keys ≤ start. |
| `Cursor.FindSpec` | src/index.js:226-253 | `find`'s result holds exactly the records whose index key is in scope, each once, with index keys ascending, and each value is the stored one. It is empty when nothing matches. |
| `Facade.StoreError` | src/index.js:54-61 | Why opening a store fails: EngineFailure exactly when the open request fails; otherwise NotFoundError exactly for the name "" (which `_open` does not check, so `db.transaction` throws at line 230), and the missing-store rejection for any other name. |
| `Facade.CursorScope` | src/index.js:233 | `find`'s cursor range: the whole index when `start` is omitted; a DataError exactly when `end` is a key below `start`; otherwise a range holding exactly the keys `start` and `end` select. |
| `Facade.IndexedDB.constructor` | src/index.js:3-12 | A new façade holds no handle. |
| `Facade.IndexedDB.Close` | src/index.js:74-79 | Afterwards the handle is null and the engine's open connection is released. With the handle already null, nothing changes (idempotent). |
| `Facade.IndexedDB.Request` | src/index.js:52-58 | The shared open step first closes, then requests a version strictly above the database's version and above every earlier request. The engine therefore never answers VersionError or blocked. On success the upgrade handler has run, the version is the requested one, and the handle is stored. On an engine error the handle is null and nothing else changed. |
| `Facade.IndexedDB.Open` | src/index.js:50-69 | `_open(store)`: an engine error rejects and nulls the handle. A missing non-empty store rejects, but the handle is still assigned. Otherwise it resolves with the new connection. The store map is unchanged. |
| `Facade.IndexedDB.HasStore` | src/index.js:86-99 | Resolves with whether the store exists, leaving the fresh handle open. An engine error rejects and nulls the handle. |
| `Facade.IndexedDB.AddStore` | src/index.js:109-145 | An empty name rejects and changes nothing. Otherwise it opens at a higher version, the store map becomes `AddStoreEffect`'s, and it resolves with the new connection, which is kept. An engine error rejects with the schema unchanged. |
| `Facade.IndexedDB.DelStore` | src/index.js:152-174 | Opens at a higher version, the store map becomes `DelStoreUpgrade`'s, and it resolves with the new connection. An engine error rejects with the schema unchanged. |
| `Facade.IndexedDB.Transaction` | src/index.js:229-231 | A data operation starts exactly when the open succeeds and the store exists. It then sees the store's current contents. Otherwise the rejection is the engine error, the missing-store message, or (for the unchecked name "") NotFoundError. |
| `Facade.IndexedDB.Get` | src/index.js:196-215 | Resolves exactly when the store can be opened, with the stored value or `undefined`, and closes the handle. The store map is unchanged. |
| `Facade.IndexedDB.Find` | src/index.js:226-253 | A missing index is NotFoundError and an empty range is DataError; both leave the handle open. Otherwise it resolves with the cursor's values over the matched entries and closes the handle. The store map is unchanged. |
| `Facade.IndexedDB.Set` | src/index.js:291-313 | An array is written with `PutAll`; what it wrote stays committed. It resolves with all keys in input order (and closes) or rejects with the failing item's error (the handle stays open). Any other value is one `SetOne`, committed only on success. An invalid key rejects with DataError, the corrected behaviour of the second Finding. |
| `Facade.IndexedDB.Del` | src/index.js:322-340 | Removes exactly the targeted records of the named store and resolves with `done`. An empty range rejects with nothing removed. Other stores are untouched. |
| `Facade.IndexedDB.Clear` | src/index.js:347-365 | Empties only the named store and resolves with `done`. |
| `Facade.IndexedDB.DelDB` | src/index.js:31-42 | Closes first, so no connection blocks the delete. Then the database is gone (version 0, no stores) and it resolves with `done`; an engine error rejects with the database unchanged. |
| `Facade.SameMillisecondSkipsUpgrade` | src/index.js:53 | With `Date.now()` as the version, a second open in the same millisecond asks for the current version. `onupgradeneeded` does not fire, so addStore's store is not created. One millisecond later it would be. |
| `Facade.AddStoreThenHasStore` | src/index.js:86-174 | `hasStore` resolves true right after `addStore` and false right after `delStore` of the same name. |
| `Facade.AddStoreTwice` | src/index.js:109-145 | A second `addStore` with `replace` false leaves the store map as the first left it. |
| `Facade.SetThenGet` | src/index.js:196-313 | `set` of a single value resolves exactly when its key rule succeeds. `get` under the key it resolved with then returns that value. |
| `Facade.DelThenGet` | src/index.js:196-340 | `get` after `del` of the same key resolves with `undefined`. |

## Left out

- `isSupported` and the vendor-prefixed lookups of `window.indexedDB` and `IDBKeyRange` (src/index.js:7-9, 18-25) are host-environment probing. The `console.error` diagnostic is output only.
- Promises and event callbacks become direct results (`Outcome`). Where the source calls `reject` and carries on, the rejection is the outcome. In `_open` the handle assignment that follows it is kept. In `addStore("")` the upgrade that follows it is a finding, and the model uses the corrected behaviour.
- Records.SetOne, Records.PutAll and Facade.IndexedDB.Set: an invalid key rejects with DataError, the corrected behaviour. As written, the source's `_set` (and `set`) never settles there (src/index.js:267, 270); `Records.SetOneAsWritten` models that.
- The `onblocked` handlers are commented out. Other tabs, other connections and overlapping calls on the shared handle are concurrency. The engine here has the façade as its only client.
- Engine failures of the requests made after a successful open (get, put, delete, clear, cursor) are not modelled. Only the open and delete-database requests can fail for reasons of the engine's own (`refused`).
- Transactions, commit and abort are not modelled: a write is visible at once. The failures the model has (in-line key mismatch, invalid key) do not abort the transaction, so writes made before them stay committed, as in the engine.
- An index's `unique` flag is recorded but not enforced. A put that broke it would fail with ConstraintError and abort the whole transaction, and that needs the abort above.
- Keys are integers. The engine's string, date and array keys and its full key order are not modelled. JavaScript numbers are integers here (no fractions, no NaN).
- Key paths are single field names. The empty key path is an exception in the engine: `createIndex(name, "")` (from `addStore(s, {"": b})`) indexes the value itself, whereas `Cursor.IndexKey` reads it as a field named "". Dotted key paths, and key-path strings the engine refuses (where `createObjectStore` or `createIndex` throws), are not modelled.
- `Reflect.has` also sees inherited properties (such as `toString`) and numeric property names. The model sees only a plain object's own string-named fields.
- Structured cloning of stored values is not modelled: a value is stored as given.
- `e.target.readyState` is the opaque token `Done`.
- `Date.now()` is a counter that increases on every open (see Findings for what the wall clock does instead).
- The `TypeError` thrown after `_set` rejects for in-line keys (`request` is still null at src/index.js:275) is not modelled. The promise has already rejected, so nothing observable follows.
- webpack.config.js and rollup.config.js are build configuration.

Where the source and its description disagree, the model follows the code:

- `_open` does not check the store name "" (a falsy name). A data operation on a missing store "" therefore fails later, in `db.transaction`, with NotFoundError.
- `_getRange(start, end)` with `end` below `start` does not give an empty range: `IDBKeyRange.bound` throws a DataError, and `find` and `del` reject with it.

## Findings

| source | as written | input that shows it | evidently intended | confidence | as-written member | corrected member |
|---|---|---|---|---|---|---|
| src/index.js:111-124 | The empty-name check calls `reject` but does not return. The close, the open and the upgrade still run, and the upgrade creates a store named "". | `addStore("")` on a database without a store "" | reject without touching the database | high; not executed | `Schema.AddStoreEmptyNameCreatesStore` | `Facade.IndexedDB.AddStore` |
| src/index.js:263-271 | `objectStore.put` throws its DataError synchronously inside an `async` promise executor. The throw is swallowed, so `_set`, and with it `set`, never settles. | `set(store, {a: 1})` on a store without key path, with no key | reject with the DataError | high; not executed | `Records.SetWithoutKeyNeverSettles` | `Records.SetOne` |
| src/index.js:53 | The requested version is `Date.now()`. A second open in the same millisecond asks for the current version, so `onupgradeneeded` does not fire and `addStore` resolves without creating its store. A clock that goes back gives a VersionError. | `addStore("s")` issued in the same millisecond as the previous open | a version strictly above every earlier one | medium; not executed | `Facade.SameMillisecondSkipsUpgrade` | `Facade.IndexedDB.Request` |
