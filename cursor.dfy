/** The cursor `find` opens on an index: which records it visits and in
    which order, and the loop that accumulates their values. */
module Cursor {
  import opened Wrappers
  import opened Values
  import opened KeyRanges

  /** A record as an index sees it: the record's index key and its primary
      key. */
  datatype Entry = Entry(indexKey: Key, primaryKey: Key)

  /** Cursor order over an index: ascending index key, and ascending
      primary key among records with the same index key. */
  predicate Before(a: Entry, b: Entry)
  {
    a.indexKey < b.indexKey || (a.indexKey == b.indexKey && a.primaryKey < b.primaryKey)
  }

  predicate IsLeast(m: Entry, s: set<Entry>)
  {
    m in s && forall e :: e in s ==> e == m || Before(m, e)
  }

  lemma {:induction false} LeastExists(s: set<Entry>)
    requires s != {}
    ensures exists m :: IsLeast(m, s)
    decreases |s|
  {
    var x :| x in s;
    if s == {x} {
      assert IsLeast(x, s);
    } else {
      var rest := s - {x};
      LeastExists(rest);
      var y :| IsLeast(y, rest);
      if Before(x, y) {
        forall e | e in s
          ensures e == x || Before(x, e)
        {
          if e != x {
            assert e == y || Before(y, e);
          }
        }
        assert IsLeast(x, s);
      } else {
        assert IsLeast(y, s);
      }
    }
  }

  /** The entries of `s` in cursor order. */
  ghost function Ordered(s: set<Entry>): seq<Entry>
    decreases |s|
  {
    if s == {} then []
    else
      LeastExists(s);
      var m :| IsLeast(m, s);
      [m] + Ordered(s - {m})
  }

  lemma OrderedCons(s: set<Entry>, m: Entry)
    requires IsLeast(m, s)
    ensures Ordered(s) == [m] + Ordered(s - {m})
  {
  }

  /** Cursor order lists every entry once, each before the ones after it. */
  lemma {:induction false} OrderedSpec(s: set<Entry>)
    ensures |Ordered(s)| == |s|
    ensures forall e :: e in s <==> e in Ordered(s)
    ensures forall i, j :: 0 <= i < j < |Ordered(s)| ==> Before(Ordered(s)[i], Ordered(s)[j])
    decreases |s|
  {
    if s != {} {
      LeastExists(s);
      var m :| IsLeast(m, s);
      OrderedCons(s, m);
      OrderedSpec(s - {m});
    }
  }

  /** One cursor step: the least entry not yet visited. */
  method Least(s: set<Entry>) returns (m: Entry)
    requires s != {}
    ensures IsLeast(m, s)
  {
    m :| m in s;
    var unseen := s - {m};
    while unseen != {}
      invariant unseen <= s && m in s
      invariant forall e :: e in s && e !in unseen ==> e == m || Before(m, e)
      decreases |unseen|
    {
      var e :| e in unseen;
      if Before(e, m) {
        m := e;
      }
      unseen := unseen - {e};
    }
  }

  /** The key of record value `v` in the index on `field`: the field's
      value, when `v` is a plain object holding a valid key there. Other
      records are not in the index. */
  function IndexKey(v: Value, field: string): (r: Option<Key>)
    ensures r.Some? <==> v.Obj? && field in v.fields && v.fields[field].Num?
    ensures r.Some? ==> v.fields[field] == Num(r.value)
  {
    if IsPlainObject(v) && field in v.fields then AsKey(v.fields[field]) else None
  }

  /** `None` is `index.openCursor()` over the whole index. */
  predicate InScope(range: Option<Range>, k: Key)
  {
    range.None? || Includes(range.value, k)
  }

  /** Whether entry `e` is one of the records of `records` that the
      index on `field` holds with an index key in scope. */
  predicate Visits(records: map<Key, Value>, field: string, range: Option<Range>, e: Entry)
  {
    e.primaryKey in records && IndexKey(records[e.primaryKey], field) == Some(e.indexKey) && InScope(range, e.indexKey)
  }

  /** The entries a cursor over the index on `field` visits. */
  function Matching(records: map<Key, Value>, field: string, range: Option<Range>): (s: set<Entry>)
    ensures forall e :: e in s <==> Visits(records, field, range, e)
  {
    var s := set pk | pk in records && IndexKey(records[pk], field).Some? && InScope(range, IndexKey(records[pk], field).value)
                    :: Entry(IndexKey(records[pk], field).value, pk);
    assert forall e: Entry :: Visits(records, field, range, e) ==> e in s by {
      forall e: Entry | Visits(records, field, range, e)
        ensures e in s
      {
        assert e == Entry(IndexKey(records[e.primaryKey], field).value, e.primaryKey);
      }
    }
    s
  }

  /** The record values of the entries, in the entries' order. */
  function Project(records: map<Key, Value>, es: seq<Entry>): (vs: seq<Value>)
    ensures |vs| == |es|
    ensures forall i :: 0 <= i < |es| ==> vs[i] == Lookup(records, es[i].primaryKey)
  {
    if es == [] then [] else [Lookup(records, es[0].primaryKey)] + Project(records, es[1..])
  }

  lemma ProjectCons(records: map<Key, Value>, m: Entry, es: seq<Entry>)
    ensures Project(records, [m] + es) == [Lookup(records, m.primaryKey)] + Project(records, es)
  {
    assert ([m] + es)[1..] == es;
  }

  /** One cursor step keeps the loop invariant of `Scan`. */
  lemma ScanStep(records: map<Key, Value>, matched: set<Entry>, remaining: set<Entry>, m: Entry, values: seq<Value>)
    requires IsLeast(m, remaining)
    requires Project(records, Ordered(matched)) == values + Project(records, Ordered(remaining))
    ensures Project(records, Ordered(matched))
         == (values + [Lookup(records, m.primaryKey)]) + Project(records, Ordered(remaining - {m}))
  {
    OrderedCons(remaining, m);
    ProjectCons(records, m, Ordered(remaining - {m}));
  }

  /** The cursor loop of `find`: while the cursor is not null, push its
      value and continue. */
  method Scan(records: map<Key, Value>, matched: set<Entry>) returns (values: seq<Value>)
    ensures values == Project(records, Ordered(matched))
  {
    values := [];
    var remaining := matched;
    while remaining != {}
      invariant Project(records, Ordered(matched)) == values + Project(records, Ordered(remaining))
      decreases |remaining|
    {
      var m := Least(remaining);
      ScanStep(records, matched, remaining, m, values);
      values := values + [Lookup(records, m.primaryKey)];
      remaining := remaining - {m};
    }
  }

  /** What `find` returns: the records whose index key is in scope, each
      once, in ascending index-key order; the values are the stored ones. */
  lemma FindSpec(records: map<Key, Value>, field: string, range: Option<Range>)
    ensures var es := Ordered(Matching(records, field, range));
      && (forall i :: 0 <= i < |es| ==>
            && es[i].primaryKey in records
            && IndexKey(records[es[i].primaryKey], field) == Some(es[i].indexKey)
            && InScope(range, es[i].indexKey))
      && (forall pk :: (pk in records && IndexKey(records[pk], field).Some?
                        && InScope(range, IndexKey(records[pk], field).value)) ==>
            exists i :: 0 <= i < |es| && es[i].primaryKey == pk)
      && (forall i, j :: 0 <= i < j < |es| ==> es[i].indexKey <= es[j].indexKey)
      && (forall i, j :: 0 <= i < j < |es| ==> es[i].primaryKey != es[j].primaryKey)
      && var vs := Project(records, es);
         forall i :: 0 <= i < |vs| ==> vs[i] == records[es[i].primaryKey]
  {
    var s := Matching(records, field, range);
    OrderedSpec(s);
    var es := Ordered(s);
    forall i | 0 <= i < |es|
      ensures Visits(records, field, range, es[i])
    {
      assert es[i] in es;
    }
    forall pk | pk in records && IndexKey(records[pk], field).Some? && InScope(range, IndexKey(records[pk], field).value)
      ensures exists i :: 0 <= i < |es| && es[i].primaryKey == pk
    {
      var e := Entry(IndexKey(records[pk], field).value, pk);
      assert e in s;
      var i :| 0 <= i < |es| && es[i] == e;
    }
  }
}
