/**
 * Python's insertion-ordered `dict`, as a list of (key, value) entries. Assigning to an
 * existing key keeps the entry where it is; a new key goes to the end; `del` removes the
 * entry and keeps the order of the rest.
 */
module PyDict {
  import opened Wrappers

  type Dict<V> = seq<(string, V)>

  /** A JSON-like Python value: what documents, index properties and model properties hold. */
  datatype Value =
    | VNone
    | VBool(b: bool)
    | VInt(i: int)
    | VFloat(f: real)
    | VStr(s: string)
    | VList(items: seq<Value>)
    | VDict(entries: Dict<Value>)

  /** `k in d`. */
  predicate HasKey<V>(d: Dict<V>, k: string)
  {
    exists i :: 0 <= i < |d| && d[i].0 == k
  }

  /** The keys are pairwise distinct, as in every Python dict. */
  predicate UniqueKeys<V>(d: Dict<V>)
  {
    forall i, j :: 0 <= i < j < |d| ==> d[i].0 != d[j].0
  }

  /** `d.get(k)`: the value of the entry under `k`, if there is one. */
  function Get<V>(d: Dict<V>, k: string): (r: Option<V>)
    ensures r.None? <==> !HasKey(d, k)
    ensures r.Some? ==> (k, r.value) in d
  {
    if d == [] then None
    else if d[0].0 == k then Some(d[0].1)
    else
      assert forall i :: 0 < i < |d| ==> d[i] == d[1..][i - 1];
      Get(d[1..], k)
  }

  /** `d[k] = v`. */
  function Put<V>(d: Dict<V>, k: string, v: V): (r: Dict<V>)
    ensures Get(r, k) == Some(v)
    ensures forall k' :: k' != k ==> Get(r, k') == Get(d, k')
    ensures HasKey(d, k) ==> |r| == |d|
    ensures !HasKey(d, k) ==> r == d + [(k, v)]
  {
    if d == [] then [(k, v)]
    else if d[0].0 == k then [(k, v)] + d[1..]
    else
      assert HasKey(d, k) <==> HasKey(d[1..], k) by {
        assert forall i :: 0 < i < |d| ==> d[i] == d[1..][i - 1];
      }
      [d[0]] + Put(d[1..], k, v)
  }

  /** Assignment keeps the keys of a dict distinct. */
  lemma {:induction false} PutKeepsUnique<V>(d: Dict<V>, k: string, v: V)
    requires UniqueKeys(d)
    ensures UniqueKeys(Put(d, k, v))
  {
    if d != [] {
      TailUnique(d);
      if d[0].0 == k {
        ConsUnique((k, v), d[1..]);
      } else {
        PutKeepsUnique(d[1..], k, v);
        var rest := Put(d[1..], k, v);
        assert Get(rest, d[0].0) == Get(d[1..], d[0].0);
        ConsUnique(d[0], rest);
      }
    }
  }

  /** The entries after the first of a dict have distinct keys, none of them the first key. */
  lemma TailUnique<V>(d: Dict<V>)
    requires d != [] && UniqueKeys(d)
    ensures UniqueKeys(d[1..]) && !HasKey(d[1..], d[0].0)
  {
    assert forall i :: 0 <= i < |d| - 1 ==> d[1..][i] == d[i + 1];
  }

  /** An entry whose key is new, in front of entries with distinct keys, gives distinct keys. */
  lemma ConsUnique<V>(e: (string, V), rest: Dict<V>)
    requires UniqueKeys(rest) && !HasKey(rest, e.0)
    ensures UniqueKeys([e] + rest)
  {
    assert forall i :: 0 < i < |rest| + 1 ==> ([e] + rest)[i] == rest[i - 1];
  }

  /** `del d[k]`, for a key that is present (Python raises KeyError otherwise). */
  function Remove<V>(d: Dict<V>, k: string): (r: Dict<V>)
    requires UniqueKeys(d) && HasKey(d, k)
    ensures !HasKey(r, k)
    ensures forall k' :: k' != k ==> Get(r, k') == Get(d, k')
    ensures |r| == |d| - 1
    ensures UniqueKeys(r)
  {
    if d[0].0 == k then
      assert !HasKey(d[1..], k) by {
        assert forall i :: 0 <= i < |d| - 1 ==> d[1..][i] == d[i + 1];
      }
      d[1..]
    else
      assert HasKey(d[1..], k) && UniqueKeys(d[1..]) by {
        assert forall i :: 0 < i < |d| ==> d[i] == d[1..][i - 1];
      }
      var rest := Remove(d[1..], k);
      assert !HasKey(rest, d[0].0) by {
        assert Get(rest, d[0].0) == Get(d[1..], d[0].0);
        assert forall i :: 0 <= i < |d| - 1 ==> d[1..][i].0 == d[i + 1].0;
      }
      [d[0]] + rest
  }

  /** `{k: v for k, v in d.items() if keep(k)}`: the entries whose key is kept. */
  function FilterKeys<V(!new)>(d: Dict<V>, keep: string -> bool): (r: Dict<V>)
    ensures forall e :: e in r <==> e in d && keep(e.0)
    ensures forall k :: HasKey(r, k) <==> HasKey(d, k) && keep(k)
    ensures UniqueKeys(d) ==> UniqueKeys(r)
  {
    if d == [] then []
    else
      var rest := FilterKeys(d[1..], keep);
      var r := if keep(d[0].0) then [d[0]] + rest else rest;
      FilterKeysStep(d, keep, rest, r);
      r
  }

  /** The step of `FilterKeys`: keeping or dropping the first entry in front of the filtered rest. */
  lemma FilterKeysStep<V(!new)>(d: Dict<V>, keep: string -> bool, rest: Dict<V>, r: Dict<V>)
    requires d != []
    requires forall e :: e in rest <==> e in d[1..] && keep(e.0)
    requires UniqueKeys(d[1..]) ==> UniqueKeys(rest)
    requires r == if keep(d[0].0) then [d[0]] + rest else rest
    ensures forall e :: e in r <==> e in d && keep(e.0)
    ensures forall k :: HasKey(r, k) <==> HasKey(d, k) && keep(k)
    ensures UniqueKeys(d) ==> UniqueKeys(r)
  {
    assert forall e :: e in d <==> e == d[0] || e in d[1..];
    forall k
      ensures HasKey(r, k) <==> HasKey(d, k) && keep(k)
    {
      if HasKey(r, k) {
        var i :| 0 <= i < |r| && r[i].0 == k;
        assert r[i] in d;
      }
      if HasKey(d, k) && keep(k) {
        var i :| 0 <= i < |d| && d[i].0 == k;
        assert d[i] in r;
      }
    }
    if UniqueKeys(d) {
      TailUnique(d);
      if keep(d[0].0) {
        forall i | 0 <= i < |rest|
          ensures rest[i].0 != d[0].0
        {
          assert rest[i] in d[1..];
        }
        ConsUnique(d[0], rest);
      }
    }
  }

  /** `set(d.keys())`. */
  function Keys<V>(d: Dict<V>): (r: set<string>)
    ensures forall k :: k in r <==> HasKey(d, k)
  {
    set i | 0 <= i < |d| :: d[i].0
  }

  /** Every entry after an assignment is the assigned one or was there before. */
  lemma {:induction false} PutEntries<V>(d: Dict<V>, k: string, v: V)
    ensures forall i :: 0 <= i < |Put(d, k, v)| ==> Put(d, k, v)[i] == (k, v) || Put(d, k, v)[i] in d
  {
    if d != [] && d[0].0 != k {
      PutEntries(d[1..], k, v);
      var rest := Put(d[1..], k, v);
      assert Put(d, k, v) == [d[0]] + rest;
      assert forall e :: e in d[1..] ==> e in d;
    }
  }

  /** An assignment adds its key to the keys. */
  lemma PutKeys<V>(d: Dict<V>, k: string, v: V)
    ensures Keys(Put(d, k, v)) == Keys(d) + {k}
  {
    forall k' ensures k' in Keys(Put(d, k, v)) <==> k' in Keys(d) + {k} {
      assert Get(Put(d, k, v), k') == if k' == k then Some(v) else Get(d, k');
    }
  }

  /** A Python dict object, which can be changed through every reference to it. */
  class MutableDict {
    var entries: Dict<Value>

    constructor (entries: Dict<Value>)
      ensures this.entries == entries
    {
      this.entries := entries;
    }

    /** `d[k] = v`. */
    method Set(k: string, v: Value)
      modifies this
      ensures entries == Put(old(entries), k, v)
    {
      entries := Put(entries, k, v);
    }
  }
}
