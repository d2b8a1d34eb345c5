/** `_getRange`: the translation of a `(start, end)` query into one of the
    four key-range forms of the Indexed Database API (IDBKeyRange). */
module KeyRanges {
  import opened Wrappers
  import opened Values

  /** The four key-range forms, all with inclusive bounds. */
  datatype Range =
    | UpperBound(upper: Key)          // IDBKeyRange.upperBound(upper)
    | LowerBound(lower: Key)          // IDBKeyRange.lowerBound(lower)
    | Only(key: Key)                  // IDBKeyRange.only(key)
    | Bound(lower: Key, upper: Key)   // IDBKeyRange.bound(lower, upper)

  /** The `end` argument: a boolean picks a one-sided range, anything else
      is the other end of the interval. Omitted, it defaults to `true`. */
  datatype End = Flag(b: bool) | To(k: Key)

  const DefaultEnd: End := Flag(true)

  /** Whether the range contains key `k`. */
  predicate Includes(r: Range, k: Key)
  {
    match r
    case UpperBound(u) => k <= u
    case LowerBound(l) => l <= k
    case Only(x) => k == x
    case Bound(l, u) => l <= k <= u
  }

  /** The keys a query `(start, end)` is meant to select. */
  predicate Selects(start: Key, end: End, k: Key)
  {
    match end
    case Flag(true) => k <= start
    case Flag(false) => k >= start
    case To(e) => if e == start then k == start else start <= k <= e
  }

  /** `_getRange(start, end)`. `IDBKeyRange.bound` throws a DataError when
      its lower bound exceeds its upper bound; that case is `None`. */
  function GetRange(start: Key, end: End): (r: Option<Range>)
    ensures r.None? <==> end.To? && end.k < start
    ensures r.Some? ==> forall k :: Includes(r.value, k) <==> Selects(start, end, k)
    ensures end == Flag(true) ==> r == Some(UpperBound(start))
    ensures end == Flag(false) ==> r == Some(LowerBound(start))
    ensures end == To(start) ==> r == Some(Only(start))
  {
    match end
    case Flag(b) => if b then Some(UpperBound(start)) else Some(LowerBound(start))
    case To(e) =>
      if e == start then Some(Only(start))
      else if start <= e then Some(Bound(start, e))
      else None
  }

  /** `find` without an `end` argument: the default `true` selects every
      key up to and including `start`. */
  lemma DefaultEndSelectsUpTo(start: Key)
    ensures GetRange(start, DefaultEnd) == Some(UpperBound(start))
    ensures forall k :: Selects(start, DefaultEnd, k) <==> k <= start
  {
  }
}
