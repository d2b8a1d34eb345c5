/** The record-level rules of `_set`, `set` and `del`: which key a value is
    written under, the sequential batch of writes, and what a point or range
    delete removes. */
module Records {
  import opened Wrappers
  import opened Values
  import opened KeyRanges
  import opened Schema

  /** The key `_set` writes `val` under, in a store with key path `keyPath`.
      Out-of-line keys: a plain object that has a field named `key` is
      written under that field's value, anything else under `key` itself.
      In-line keys: `val` must be a plain object holding the key-path field.
      A chosen key the engine does not accept is a DataError. */
  function ChosenKey(keyPath: Option<string>, val: Value, key: Value): (r: Result<Key, Error>)
    ensures r.Err? ==> r.error == InlineKeys || r.error == DataError
    ensures keyPath.None? && HasField(val, key) ==>
      (r.Ok? <==> val.fields[key.s].Num?) && (r.Ok? ==> val.fields[key.s] == Num(r.value))
    ensures keyPath.None? && !HasField(val, key) ==>
      (r.Ok? <==> key.Num?) && (r.Ok? ==> key == Num(r.value))
    ensures keyPath.Some? ==> (r == Err(InlineKeys) <==> !(val.Obj? && keyPath.value in val.fields))
    ensures keyPath.Some? && val.Obj? && keyPath.value in val.fields ==> (r.Ok? <==> val.fields[keyPath.value].Num?)
    ensures keyPath.Some? && r.Ok? ==> val.Obj? && keyPath.value in val.fields && val.fields[keyPath.value] == Num(r.value)
  {
    match keyPath
    case None =>
      var candidate := if IsPlainObject(val) && HasField(val, key) then val.fields[key.s] else key;
      if candidate.Num? then Ok(candidate.n) else Err(DataError)
    case Some(path) =>
      if IsPlainObject(val) && path in val.fields then
        (if val.fields[path].Num? then Ok(val.fields[path].n) else Err(DataError))
      else Err(InlineKeys)
  }

  /** The outcome of one `_set`: the key written and the store afterwards,
      or the rejection. */
  datatype Write = Wrote(key: Key, after: Store) | Refused(error: Error)

  /** One `_set` against a store: put `val` under its chosen key. */
  function SetOne(st: Store, val: Value, key: Value): (w: Write)
    ensures w.Refused? <==> ChosenKey(st.keyPath, val, key).Err?
    ensures w.Refused? ==> w.error == ChosenKey(st.keyPath, val, key).error && w.error != EngineFailure
    ensures w.Wrote? ==>
      && ChosenKey(st.keyPath, val, key) == Ok(w.key)
      && w.after == st.(records := st.records[w.key := val])
  {
    match ChosenKey(st.keyPath, val, key)
    case Err(e) => Refused(e)
    case Ok(k) => Wrote(k, st.(records := st.records[k := val]))
  }

  /** `set` then `get`: after a successful `_set`, the chosen key reads back
      the value written, every other key reads as before, and the store's
      key path and indexes are unchanged. */
  lemma SetThenGet(st: Store, val: Value, key: Value)
    ensures var w := SetOne(st, val, key);
      w.Wrote? ==>
        && w.after.keyPath == st.keyPath && w.after.indexes == st.indexes
        && w.after.records.Keys == st.records.Keys + {w.key}
        && Lookup(w.after.records, w.key) == val
        && forall k :: k != w.key ==> Lookup(w.after.records, k) == Lookup(st.records, k)
  {
  }

  /** Whether a `_set` promise settles at all. */
  datatype Settlement = Settles(w: Write) | NeverSettles

  /** `_set` as the source is written. `objectStore.put` throws its DataError
      synchronously; the throw happens inside an `async` promise executor,
      where it is swallowed, so the promise neither resolves nor rejects. */
  function SetOneAsWritten(st: Store, val: Value, key: Value): (s: Settlement)
    ensures s == NeverSettles <==> ChosenKey(st.keyPath, val, key) == Err(DataError)
    ensures s.Settles? && s.w.Refused? ==> s.w.error == InlineKeys
    ensures s.Settles? && s.w.Wrote? ==> s.w.after == st.(records := st.records[s.w.key := val])
  {
    if st.keyPath.None? then
      var k := if IsPlainObject(val) && HasField(val, key) then val.fields[key.s] else key;
      if k.Num? then Settles(Wrote(k.n, st.(records := st.records[k.n := val]))) else NeverSettles
    else if IsPlainObject(val) && st.keyPath.value in val.fields then
      var k := val.fields[st.keyPath.value];
      if k.Num? then Settles(Wrote(k.n, st.(records := st.records[k.n := val]))) else NeverSettles
    else Settles(Refused(InlineKeys))
  }

  /** The source and the corrected rule differ exactly where the corrected
      rule rejects with DataError: there the source never settles. */
  lemma SetOneAsWrittenDiffers(st: Store, val: Value, key: Value)
    ensures SetOne(st, val, key) == Refused(DataError) ==> SetOneAsWritten(st, val, key) == NeverSettles
    ensures SetOne(st, val, key) != Refused(DataError) ==> SetOneAsWritten(st, val, key) == Settles(SetOne(st, val, key))
  {
  }

  /** `set(store, {a: 1})` on a store without key path, with no key: the
      source's promise never settles. */
  lemma SetWithoutKeyNeverSettles()
    ensures SetOneAsWritten(Store(None, map[], map[]), Obj(map["a" := Num(1)]), Undefined) == NeverSettles
    ensures SetOne(Store(None, map[], map[]), Obj(map["a" := Num(1)]), Undefined) == Refused(DataError)
  {
  }

  /** The outcome of a batch of writes: the store afterwards, the keys
      written in order, and the error that stopped the batch, if any. */
  datatype Batch = Batch(store: Store, keys: seq<Key>, failure: Option<Error>)

  /** `set` on an array: `_set` each item in order, stopping at the first
      rejection. */
  function PutAll(st: Store, items: seq<Value>, key: Value): (b: Batch)
    ensures |b.keys| <= |items|
    ensures b.failure.None? ==> |b.keys| == |items|
    decreases |items|
  {
    if items == [] then Batch(st, [], None)
    else match SetOne(st, items[0], key)
      case Refused(e) => Batch(st, [], Some(e))
      case Wrote(k, next) =>
        var rest := PutAll(next, items[1..], key);
        Batch(rest.store, [k] + rest.keys, rest.failure)
  }

  /** The keys of a batch come in input order, one per item written; the
      batch completes exactly when every item is written, and otherwise
      stops at the first item whose key is rejected. */
  lemma {:induction false} PutAllKeys(st: Store, items: seq<Value>, key: Value)
    ensures var b := PutAll(st, items, key);
      && |b.keys| <= |items|
      && (b.failure.None? <==> |b.keys| == |items|)
      && (forall i :: 0 <= i < |b.keys| ==> ChosenKey(st.keyPath, items[i], key) == Ok(b.keys[i]))
      && (b.failure.Some? ==> ChosenKey(st.keyPath, items[|b.keys|], key) == Err(b.failure.value))
      && b.store.keyPath == st.keyPath && b.store.indexes == st.indexes
    decreases |items|
  {
    if items != [] {
      match SetOne(st, items[0], key)
      case Refused(e) =>
      case Wrote(k, next) =>
        PutAllKeys(next, items[1..], key);
        var rest := PutAll(next, items[1..], key);
        forall i | 1 <= i < 1 + |rest.keys|
          ensures ChosenKey(st.keyPath, items[i], key) == Ok(([k] + rest.keys)[i])
        {
          assert items[1..][i - 1] == items[i];
        }
        if rest.failure.Some? {
          assert items[1..][|rest.keys|] == items[1 + |rest.keys|];
        }
    }
  }

  /** One step of a batch: the first item is written, then the rest. */
  lemma PutAllStep(st: Store, items: seq<Value>, key: Value, k: Key, next: Store)
    requires items != [] && SetOne(st, items[0], key) == Wrote(k, next)
    ensures var rest := PutAll(next, items[1..], key);
      PutAll(st, items, key) == Batch(rest.store, [k] + rest.keys, rest.failure)
  {
  }

  /** A batch attempts nothing after the item that fails: the items after
      it do not change the outcome. */
  lemma {:induction false} PutAllStops(st: Store, items: seq<Value>, key: Value)
    ensures var b := PutAll(st, items, key);
      b.failure.Some? ==> |b.keys| < |items| && PutAll(st, items[..|b.keys| + 1], key) == b
    decreases |items|
  {
    if items != [] {
      match SetOne(st, items[0], key)
      case Refused(e) =>
        assert items[..1][0] == items[0];
      case Wrote(k, next) =>
        PutAllStops(next, items[1..], key);
        var rest := PutAll(next, items[1..], key);
        PutAllStep(st, items, key, k, next);
        if rest.failure.Some? {
          var n := |rest.keys|;
          var p := items[..n + 2];
          assert p[0] == items[0];
          assert p[1..] == items[1..][..n + 1];
          PutAllStep(st, p, key, k, next);
        }
    }
  }

  /** What a batch leaves written is exactly what the items before the
      point where it stopped write. */
  lemma {:induction false} PutAllWrites(st: Store, items: seq<Value>, key: Value)
    ensures var b := PutAll(st, items, key);
      |b.keys| <= |items| && PutAll(st, items[..|b.keys|], key) == Batch(b.store, b.keys, None)
    decreases |items|
  {
    if items != [] {
      match SetOne(st, items[0], key)
      case Refused(e) =>
        assert items[..0] == [];
      case Wrote(k, next) =>
        PutAllWrites(next, items[1..], key);
        var rest := PutAll(next, items[1..], key);
        PutAllStep(st, items, key, k, next);
        var n := |rest.keys|;
        var p := items[..n + 1];
        assert p[0] == items[0];
        assert p[1..] == items[1..][..n];
        PutAllStep(st, p, key, k, next);
    }
  }

  /** A key the batch did not write reads as it did before the batch. */
  lemma {:induction false} PutAllUntouched(st: Store, items: seq<Value>, key: Value)
    ensures var b := PutAll(st, items, key);
      forall k :: k !in b.keys ==> Lookup(b.store.records, k) == Lookup(st.records, k)
    decreases |items|
  {
    if items != [] {
      match SetOne(st, items[0], key)
      case Refused(e) =>
      case Wrote(k, next) =>
        PutAllUntouched(next, items[1..], key);
        PutAllStep(st, items, key, k, next);
        SetThenGet(st, items[0], key);
    }
  }

  /** Last write wins: item `i`, written under a key no later item of the
      batch writes, is what that key holds afterwards. */
  lemma {:induction false} PutAllRecords(st: Store, items: seq<Value>, key: Value, i: nat)
    requires var b := PutAll(st, items, key); i < |b.keys| && b.keys[i] !in b.keys[i + 1..]
    ensures var b := PutAll(st, items, key); i < |items| && Lookup(b.store.records, b.keys[i]) == items[i]
    decreases |items|
  {
    var w := SetOne(st, items[0], key);
    assert w.Wrote?;
    var next := w.after;
    PutAllStep(st, items, key, w.key, next);
    var rest := PutAll(next, items[1..], key);
    if i == 0 {
      assert PutAll(st, items, key).keys[1..] == rest.keys;
      PutAllUntouched(next, items[1..], key);
      SetThenGet(st, items[0], key);
    } else {
      assert PutAll(st, items, key).keys[i + 1..] == rest.keys[i..];
      PutAllRecords(next, items[1..], key, i - 1);
      assert items[1..][i - 1] == items[i];
    }
  }

  /** The batch loop of `set`: each `_set` finishes before the next one
      starts, its key is appended to the result, and the first rejection
      ends the loop. */
  method PutEach(st: Store, items: seq<Value>, key: Value) returns (b: Batch)
    ensures b == PutAll(st, items, key)
  {
    var current := st;
    var keys: seq<Key> := [];
    var i := 0;
    while i < |items|
      invariant 0 <= i <= |items|
      invariant var rest := PutAll(current, items[i..], key);
        PutAll(st, items, key) == Batch(rest.store, keys + rest.keys, rest.failure)
      decreases |items| - i
    {
      assert items[i..][0] == items[i];
      assert items[i..][1..] == items[i + 1..];
      match SetOne(current, items[i], key)
      case Refused(e) =>
        assert PutAll(current, items[i..], key) == Batch(current, [], Some(e));
        return Batch(current, keys, Some(e));
      case Wrote(k, next) =>
        PutAllStep(current, items[i..], key, k, next);
        keys := keys + [k];
        current := next;
        i := i + 1;
    }
    assert items[i..] == [];
    b := Batch(current, keys, None);
  }

  /** What `del` removes: the record at one key when `end` is omitted,
      otherwise every record in `_getRange(start, end)`. */
  datatype Target = Point(key: Key) | Within(range: Range)

  predicate Targets(t: Target, k: Key)
  {
    match t
    case Point(x) => k == x
    case Within(r) => Includes(r, k)
  }

  /** The delete target of `del(store, start, end)`; `None` when
      `_getRange` throws. */
  function DelTarget(start: Key, end: Option<End>): (t: Option<Target>)
    ensures end.None? ==> t == Some(Point(start))
    ensures end.Some? ==> (t.None? <==> end.value.To? && end.value.k < start)
    ensures end.Some? && t.Some? ==> forall k :: Targets(t.value, k) <==> Selects(start, end.value, k)
  {
    match end
    case None => Some(Point(start))
    case Some(e) =>
      match GetRange(start, e)
      case None => None
      case Some(r) => Some(Within(r))
  }

  /** The records left after `objectStore.delete(target)`. */
  function Deleted(records: map<Key, Value>, t: Target): (r: map<Key, Value>)
    ensures forall k :: k in r <==> k in records && !Targets(t, k)
    ensures forall k :: Targets(t, k) ==> Lookup(r, k) == Undefined
    ensures forall k :: !Targets(t, k) ==> Lookup(r, k) == Lookup(records, k)
  {
    map k | k in records && !Targets(t, k) :: records[k]
  }
}
