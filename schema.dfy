/** Object stores and what the `onupgradeneeded` handlers of `addStore` and
    `delStore` do to the database's map of stores. */
module Schema {
  import opened Wrappers
  import opened Values

  /** An object store: its key path (`None` for out-of-line keys), its
      indexes (index name, which is also the indexed field, to the unique
      flag) and its records. */
  datatype Store = Store(keyPath: Option<string>, indexes: map<string, bool>, records: map<Key, Value>)

  /** The indexes `addStore` creates from its `obj` argument: one per own
      field of a plain object, unique when the field's value is truthy; no
      index for any other argument. */
  function IndexesOf(spec: Value): (ix: map<string, bool>)
    ensures spec.Obj? ==> ix.Keys == spec.fields.Keys
    ensures !spec.Obj? ==> ix == map[]
    ensures forall f :: f in ix ==> spec.Obj? && (ix[f] <==> Truthy(spec.fields[f]))
  {
    if IsPlainObject(spec) then map f | f in spec.fields :: Truthy(spec.fields[f]) else map[]
  }

  /** The store `addStore` (re)creates: empty, with key path `keyPath` when it
      is non-empty. */
  function NewStore(spec: Value, keyPath: string): Store
  {
    Store(if keyPath != "" then Some(keyPath) else None, IndexesOf(spec), map[])
  }

  /** addStore's upgrade handler: an existing store is kept when `replace`
      is false, otherwise it is dropped and the store is created afresh. */
  function AddStoreUpgrade(stores: map<string, Store>, name: string, spec: Value, replace: bool, keyPath: string): (r: map<string, Store>)
    ensures name in stores && !replace ==> r == stores
    ensures !(name in stores && !replace) ==>
      && r.Keys == stores.Keys + {name}
      && r[name].records == map[]
      && (r[name].keyPath.Some? <==> keyPath != "")
      && (keyPath != "" ==> r[name].keyPath.value == keyPath)
      && r[name].indexes == IndexesOf(spec)
    ensures forall n :: n in stores && n != name ==> n in r && r[n] == stores[n]
    ensures name in r
  {
    if name in stores && !replace then stores
    else stores[name := NewStore(spec, keyPath)]
  }

  /** delStore's upgrade handler: drop the store if it is there. */
  function DelStoreUpgrade(stores: map<string, Store>, name: string): (r: map<string, Store>)
    ensures r.Keys == stores.Keys - {name}
    ensures forall n :: n in r ==> r[n] == stores[n]
    ensures name !in stores ==> r == stores
  {
    if name in stores then stores - {name} else stores
  }

  /** Calling addStore twice with `replace` false leaves the second call a
      no-op, whatever the second call's index spec and key path. */
  lemma AddStoreTwiceKeeps(stores: map<string, Store>, name: string, spec: Value, keyPath: string, spec2: Value, keyPath2: string)
    ensures var once := AddStoreUpgrade(stores, name, spec, false, keyPath);
            AddStoreUpgrade(once, name, spec2, false, keyPath2) == once
  {
  }

  /** The effect of addStore on the store map as the source is written:
      the empty-name check rejects, but `reject` does not return, so the
      upgrade still runs and creates a store named "". The first component
      is the rejection, the second the store map afterwards. */
  function AddStoreAsWritten(stores: map<string, Store>, name: string, spec: Value, replace: bool, keyPath: string): (r: (Option<Error>, map<string, Store>))
    ensures r.0.Some? <==> name == ""
    ensures r.0.Some? ==> r.0.value == EmptyStoreName
    ensures name in r.1
  {
    var rejection := if name == "" then Some(EmptyStoreName) else None;
    (rejection, AddStoreUpgrade(stores, name, spec, replace, keyPath))
  }

  /** addStore as evidently intended: an empty name rejects and leaves the
      stores alone; any other name runs the upgrade. */
  function AddStoreEffect(stores: map<string, Store>, name: string, spec: Value, replace: bool, keyPath: string): (r: Result<map<string, Store>, Error>)
    ensures name == "" <==> r == Err(EmptyStoreName)
    ensures r.Ok? ==> name in r.value && forall n :: n in stores && n != name ==> n in r.value && r.value[n] == stores[n]
  {
    if name == "" then Err(EmptyStoreName) else Ok(AddStoreUpgrade(stores, name, spec, replace, keyPath))
  }

  /** The discrepancy: addStore("") rejects, yet afterwards the database
      holds a new store named "". */
  lemma AddStoreEmptyNameCreatesStore()
    ensures var r := AddStoreAsWritten(map[], "", Undefined, false, "");
            r.0 == Some(EmptyStoreName) && "" in r.1
    ensures AddStoreEffect(map[], "", Undefined, false, "") == Err(EmptyStoreName)
  {
  }

  /** hasStore after a successful addStore reports the store, and after
      delStore it does not. */
  lemma AddThenDelStore(stores: map<string, Store>, name: string, spec: Value, replace: bool, keyPath: string)
    requires name != ""
    ensures AddStoreEffect(stores, name, spec, replace, keyPath).Ok?
    ensures name in AddStoreEffect(stores, name, spec, replace, keyPath).value
    ensures name !in DelStoreUpgrade(AddStoreEffect(stores, name, spec, replace, keyPath).value, name)
  {
  }
}
