/**
 * Vespa's search hits as the two hybrid searchers see them: a hit is an id with a
 * relevance, and a `HitGroup` is the mutable, ordered list of hits the searchers
 * append to, look up by id, re-score, sort and trim in place.
 */
module Hits {
  import opened Wrappers
  import Sorting

  /** A hit's id (its URI as a string), the join key of fusion. */
  type Id = string

  /** A hit: its id and its relevance score. */
  datatype Hit = Hit(id: Id, relevance: real)

  /** The ids of `hs`, in order. */
  function Ids(hs: seq<Hit>): (ids: seq<Id>)
    ensures |ids| == |hs|
    ensures forall i :: 0 <= i < |hs| ==> ids[i] == hs[i].id
  {
    seq(|hs|, i requires 0 <= i < |hs| => hs[i].id)
  }

  /** No id occurs twice in `hs`. */
  ghost predicate DistinctIds(hs: seq<Hit>)
  {
    forall i, j :: 0 <= i < j < |hs| ==> hs[i].id != hs[j].id
  }

  /** `hs` is ordered by relevance, highest first. */
  ghost predicate Descending(hs: seq<Hit>)
  {
    forall i, j :: 0 <= i < j < |hs| ==> hs[i].relevance >= hs[j].relevance
  }

  /** The set of ids occurring in `hs`. */
  ghost function IdSet(hs: seq<Hit>): set<Id>
  {
    set i | 0 <= i < |hs| :: hs[i].id
  }

  /** A list of hits with distinct ids has as many ids as hits. */
  lemma {:induction false} DistinctIdSetSize(hs: seq<Hit>)
    requires DistinctIds(hs)
    ensures |IdSet(hs)| == |hs|
  {
    if hs != [] {
      var n := |hs|;
      DistinctIdSetSize(hs[..n - 1]);
      assert IdSet(hs) == IdSet(hs[..n - 1]) + {hs[n - 1].id};
      assert hs[n - 1].id !in IdSet(hs[..n - 1]);
    }
  }

  /** Removing the hit at `p` removes one copy of it. */
  lemma RemoveAtMultiset(a: seq<Hit>, p: nat)
    requires p < |a|
    ensures multiset(a[..p] + a[p + 1..]) == multiset(a) - multiset{a[p]}
  {
    assert a == a[..p] + [a[p]] + a[p + 1..];
  }

  /** Hit `q` of `a` with the hit at `p` removed is hit `q` or `q + 1` of `a`. */
  lemma RemoveAtIndex(a: seq<Hit>, p: nat, q: nat)
    requires p < |a|
    requires q < |a| - 1
    ensures (a[..p] + a[p + 1..])[q] == a[if q < p then q else q + 1]
  {
  }

  /** Removing the hit at `p` from hits with distinct ids leaves distinct ids, none of them `a[p]`'s. */
  lemma RemoveAtDistinct(a: seq<Hit>, p: nat)
    requires p < |a|
    requires DistinctIds(a)
    ensures DistinctIds(a[..p] + a[p + 1..])
    ensures forall h :: h in a[..p] + a[p + 1..] ==> h.id != a[p].id
  {
    var rest := a[..p] + a[p + 1..];
    forall i, j | 0 <= i < j < |rest| ensures rest[i].id != rest[j].id {
      RemoveAtIndex(a, p, i);
      RemoveAtIndex(a, p, j);
    }
    forall h | h in rest ensures h.id != a[p].id {
      var q :| 0 <= q < |rest| && rest[q] == h;
      RemoveAtIndex(a, p, q);
    }
  }

  /** In hits with distinct ids, the last id occurs nowhere before it. */
  lemma LastIdIsNew(hs: seq<Hit>)
    requires DistinctIds(hs)
    requires hs != []
    ensures DistinctIds(hs[..|hs| - 1])
    ensures hs[|hs| - 1].id !in IdSet(hs[..|hs| - 1])
    ensures hs[|hs| - 1].id !in Ids(hs[..|hs| - 1])
    ensures IdSet(hs) == IdSet(hs[..|hs| - 1]) + {hs[|hs| - 1].id}
  {
    var n := |hs|;
    var prefix := hs[..n - 1];
    forall i | 0 <= i < n - 1 ensures Ids(prefix)[i] != hs[n - 1].id {
      assert prefix[i] == hs[i];
    }
  }

  /** A hit occurring in `a` has a position in it. */
  lemma PositionOf(a: seq<Hit>, x: Hit) returns (p: nat)
    requires x in multiset(a)
    ensures p < |a| && a[p] == x
  {
    assert x in a;
    p :| 0 <= p < |a| && a[p] == x;
  }

  /** Dropping the last element drops one copy of it. */
  lemma MultisetDropLast(b: seq<Hit>)
    requires b != []
    ensures multiset(b[..|b| - 1]) == multiset(b) - multiset{b[|b| - 1]}
  {
    assert b == b[..|b| - 1] + [b[|b| - 1]];
  }

  /** Reordering hits keeps their ids distinct. */
  lemma {:induction false} DistinctPermutation(a: seq<Hit>, b: seq<Hit>)
    requires multiset(a) == multiset(b)
    requires DistinctIds(a)
    ensures DistinctIds(b)
  {
    if b != [] {
      var n := |b|;
      var x := b[n - 1];
      var p := PositionOf(a, x);
      var rest := a[..p] + a[p + 1..];
      RemoveAtMultiset(a, p);
      RemoveAtDistinct(a, p);
      MultisetDropLast(b);
      DistinctPermutation(rest, b[..n - 1]);
      LastDistinct(rest, b, x);
    }
  }

  /** Closing step of the above: `b`'s last hit shares its id with none before it. */
  lemma LastDistinct(rest: seq<Hit>, b: seq<Hit>, x: Hit)
    requires b != [] && b[|b| - 1] == x
    requires multiset(rest) == multiset(b[..|b| - 1])
    requires forall h :: h in rest ==> h.id != x.id
    requires DistinctIds(b[..|b| - 1])
    ensures DistinctIds(b)
  {
    var n := |b|;
    forall i | 0 <= i < n - 1 ensures b[i].id != x.id {
      assert b[..n - 1][i] == b[i];
      assert b[i] in multiset(rest);
    }
    forall i, j | 0 <= i < j < n ensures b[i].id != b[j].id {
      if j < n - 1 {
        assert b[..n - 1][i] == b[i] && b[..n - 1][j] == b[j];
      }
    }
  }

  /** Cutting a descending list after `m` hits keeps the best: nothing cut scores above anything kept. */
  lemma PrefixIsTop(sorted: seq<Hit>, m: nat)
    requires Descending(sorted)
    requires m <= |sorted|
    ensures multiset(sorted[..m]) <= multiset(sorted)
    ensures forall h, h' :: h in sorted[..m] && h' in multiset(sorted) - multiset(sorted[..m]) ==> h.relevance >= h'.relevance
  {
    var r := sorted[..m];
    assert sorted == r + sorted[m..];
    assert multiset(sorted) == multiset(r) + multiset(sorted[m..]);
    forall h, h' | h in r && h' in multiset(sorted) - multiset(r) ensures h.relevance >= h'.relevance {
      assert h' in sorted[m..];
      var i :| 0 <= i < m && r[i] == h;
      var j :| 0 <= j < |sorted| - m && sorted[m..][j] == h';
      assert sorted[i] == h && sorted[m + j] == h';
    }
  }

  /** Trimming from offset 0 keeps a prefix. */
  lemma TrimFromStart(hs: seq<Hit>, n: nat)
    ensures hs[Min(0, |hs|)..Min(0 + n, |hs|)] == hs[..Min(n, |hs|)]
  {
    assert hs[0..Min(n, |hs|)] == hs[..Min(n, |hs|)];
  }

  /** The first m hits of `hs` sorted by relevance are m of its hits, descending, and none left out beats them. */
  lemma TopOfSorted(hs: seq<Hit>, m: nat)
    requires m <= |hs|
    ensures var r := SortByRelevance(hs)[..m];
      && Descending(r)
      && |r| == m
      && multiset(r) <= multiset(hs)
      && forall h, h' :: h in r && h' in multiset(hs) - multiset(r) ==> h.relevance >= h'.relevance
  {
    PrefixIsTop(SortByRelevance(hs), m);
  }

  /** The ids of `hs + [h]` are those of `hs` and `h`'s. */
  lemma SnocIds(hs: seq<Hit>, h: Hit)
    ensures forall id :: id in Ids(hs + [h]) <==> id in Ids(hs) || id == h.id
  {
    assert Ids(hs + [h]) == Ids(hs) + [h.id];
  }

  function NegatedRelevance(h: Hit): real
  {
    -h.relevance
  }

  /** The order `HitGroup.sort()` establishes: relevance descending, a permutation of the input. */
  function SortByRelevance(hs: seq<Hit>): (r: seq<Hit>)
    ensures Descending(r)
    ensures multiset(r) == multiset(hs)
    ensures |r| == |hs|
  {
    var r := Sorting.SortBy(hs, NegatedRelevance);
    assert forall i, j :: 0 <= i < j < |r| ==> NegatedRelevance(r[i]) <= NegatedRelevance(r[j]);
    r
  }

  function Min(a: int, b: int): int
  {
    if a <= b then a else b
  }

  function Max(a: int, b: int): int
  {
    if a >= b then a else b
  }

  /** A mutable list of hits, as Vespa's `HitGroup`. */
  class HitGroup {
    var hits: seq<Hit>

    constructor ()
      ensures hits == []
    {
      hits := [];
    }

    method Size() returns (n: nat)
      ensures n == |hits|
    {
      n := |hits|;
    }

    /** `HitGroup.add`: appends a hit. */
    method Add(h: Hit)
      modifies this
      ensures hits == old(hits) + [h]
    {
      hits := hits + [h];
    }

    /** `HitGroup.get(id)`: the position of the first hit with this id, or None (Java's null). */
    method Get(id: Id) returns (pos: Option<nat>)
      ensures pos.Some? ==> pos.value < |hits| && hits[pos.value].id == id
      ensures pos.Some? ==> forall j :: 0 <= j < pos.value ==> hits[j].id != id
      ensures pos.None? <==> id !in Ids(hits)
    {
      var i := 0;
      while i < |hits|
        invariant 0 <= i <= |hits|
        invariant forall j :: 0 <= j < i ==> hits[j].id != id
      {
        if hits[i].id == id {
          return Some(i);
        }
        i := i + 1;
      }
      return None;
    }

    /** `Hit.setRelevance` on the hit at `pos`. */
    method SetRelevance(pos: nat, relevance: real)
      requires pos < |hits|
      modifies this
      ensures hits == old(hits)[pos := Hit(old(hits)[pos].id, relevance)]
    {
      hits := hits[pos := Hit(hits[pos].id, relevance)];
    }

    /** `HitGroup.sort()`: relevance descending. */
    method Sort()
      modifies this
      ensures hits == SortByRelevance(old(hits))
    {
      hits := SortByRelevance(hits);
    }

    /** `HitGroup.trim(offset, numHits)`: keeps at most `numHits` hits starting at `offset`. */
    method Trim(offset: nat, numHits: nat)
      modifies this
      ensures hits == old(hits)[Min(offset, |old(hits)|)..Min(offset + numHits, |old(hits)|)]
    {
      hits := hits[Min(offset, |hits|)..Min(offset + numHits, |hits|)];
    }
  }
}
