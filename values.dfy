/** The JavaScript values the façade passes to the engine, the key domain,
    and the reasons a call can be rejected. */
module Values {
  import opened Wrappers

  /** A record key. The engine accepts numbers, strings, dates and arrays as
      keys; this model keeps integers only. */
  type Key = int

  /** The shapes of JavaScript value the façade tells apart:
      `Object.prototype.toString` separates plain objects (`Obj`) from
      arrays (`Arr`) and from everything else. */
  datatype Value =
    | Undefined
    | Null
    | Bool(b: bool)
    | Num(n: int)
    | Str(s: string)
    | Arr(items: seq<Value>)
    | Obj(fields: map<string, Value>)

  /** Why a promise of the façade rejects. */
  datatype Error =
    | EmptyStoreName             // addStore was given an empty store name
    | StoreMissing(name: string) // _open found no store with this name
    | InlineKeys                 // _set: the store has a key path the value does not hold
    | NotFoundError             // engine: no such object store or index
    | DataError                 // engine: not a valid key, or an empty key range
    | EngineFailure             // engine: the open or delete request itself failed

  /** JavaScript's `!!v`. */
  predicate Truthy(v: Value)
  {
    match v
    case Undefined => false
    case Null => false
    case Bool(b) => b
    case Num(n) => n != 0
    case Str(s) => s != ""
    case Arr(_) => true
    case Obj(_) => true
  }

  /** `Object.prototype.toString.call(v) === '[object Object]'` */
  predicate IsPlainObject(v: Value)
  {
    v.Obj?
  }

  /** `Reflect.has(v, name)` for a plain object and a string property name;
      a non-string name never names a field in this model. */
  predicate HasField(v: Value, name: Value)
  {
    v.Obj? && name.Str? && name.s in v.fields
  }

  /** The key a value stands for, if the engine accepts it as a key. */
  function AsKey(v: Value): (r: Option<Key>)
    ensures r.Some? <==> v.Num?
    ensures r.Some? ==> v == Num(r.value)
  {
    if v.Num? then Some(v.n) else None
  }

  /** What `objectStore.get(key)` yields: the stored value, or `undefined`. */
  function Lookup(records: map<Key, Value>, k: Key): (v: Value)
    ensures k in records ==> v == records[k]
    ensures k !in records ==> v == Undefined
  {
    if k in records then records[k] else Undefined
  }
}
