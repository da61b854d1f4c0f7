/**
 * `_vectorise_list_with_cache`: the strings of a batch that the inference cache holds are
 * answered from it, everything else is encoded in one call, the encoded vectors of strings are
 * written to the cache, and the cached vectors are put back at their positions.
 */
module VectorCache {
  import opened Wrappers
  import Seqs

  /** An item to vectorise: a string, which the cache can answer, or media, which it cannot. */
  datatype Content<M> = Text(s: string) | Media(m: M)

  /** The cache answers the item; `lookup` is the cache's content for this model, read before anything is written. */
  predicate Hit<M, V>(x: Content<M>, lookup: string -> Option<V>)
  {
    x.Text? && lookup(x.s).Some?
  }

  /** `contents_to_vectorise`: the items the cache does not answer, in order. */
  function Uncached<M, V>(content: seq<Content<M>>, lookup: string -> Option<V>): (r: seq<Content<M>>)
    ensures |r| <= |content|
    ensures forall j :: 0 <= j < |r| ==> !Hit(r[j], lookup)
  {
    if content == [] then []
    else
      var last := content[|content| - 1];
      Uncached(content[..|content| - 1], lookup) + (if Hit(last, lookup) then [] else [last])
  }

  /** `cached_output`: the position and cached vector of each item the cache answers, in order. */
  function Cached<M, V>(content: seq<Content<M>>, lookup: string -> Option<V>): (r: seq<(nat, V)>)
    ensures forall j :: 0 <= j < |r| ==>
              r[j].0 < |content| && Hit(content[r[j].0], lookup) && lookup(content[r[j].0].s) == Some(r[j].1)
  {
    if content == [] then []
    else
      var last := content[|content| - 1];
      var init := Cached(content[..|content| - 1], lookup);
      if Hit(last, lookup) then init + [(|content| - 1, lookup(last.s).value)] else init
  }

  /** Every item is either answered or encoded, and the j-th answered one is at most j places after the encoded ones. */
  lemma {:induction false} CachedBound<M, V>(content: seq<Content<M>>, lookup: string -> Option<V>)
    ensures |content| == |Cached(content, lookup)| + |Uncached(content, lookup)|
    ensures forall j :: 0 <= j < |Cached(content, lookup)| ==> Cached(content, lookup)[j].0 <= |Uncached(content, lookup)| + j
  {
    if content != [] {
      CachedBound(content[..|content| - 1], lookup);
    }
  }

  /** `list.insert(loc, v)`: a position past the end appends. */
  function InsertAt<V>(s: seq<V>, loc: nat, v: V): (r: seq<V>)
    ensures |r| == |s| + 1
    ensures loc < |s| ==> r[loc] == v && r[..loc] == s[..loc] && r[loc + 1..] == s[loc..]
    ensures loc >= |s| ==> r == s + [v]
  {
    if loc >= |s| then s + [v] else s[..loc] + [v] + s[loc..]
  }

  /** The insertions of the cached vectors, in order. */
  function InsertAll<V>(s: seq<V>, cached: seq<(nat, V)>): (r: seq<V>)
    ensures |r| == |s| + |cached|
    decreases |cached|
  {
    if cached == [] then s else InsertAll(InsertAt(s, cached[0].0, cached[0].1), cached[1..])
  }

  /** Inserting one more vector after the others. */
  lemma {:induction false} InsertAllSnoc<V>(s: seq<V>, cached: seq<(nat, V)>, e: (nat, V))
    ensures InsertAll(s, cached + [e]) == InsertAt(InsertAll(s, cached), e.0, e.1)
    decreases |cached|
  {
    if cached != [] {
      assert (cached + [e])[1..] == cached[1..] + [e];
      InsertAllSnoc(InsertAt(s, cached[0].0, cached[0].1), cached[1..], e);
    }
  }

  /** Insertions that stay within the list leave its last element last. */
  lemma {:induction false} InsertAllBeforeLast<V>(s: seq<V>, f: V, cached: seq<(nat, V)>)
    requires forall j :: 0 <= j < |cached| ==> cached[j].0 <= |s| + j
    ensures InsertAll(s + [f], cached) == InsertAll(s, cached) + [f]
    decreases |cached|
  {
    if cached != [] {
      var (loc, v) := cached[0];
      assert InsertAt(s + [f], loc, v) == InsertAt(s, loc, v) + [f] by {
        if loc == |s| {
          assert (s + [f])[..loc] == s && (s + [f])[loc..] == [f];
        } else {
          assert (s + [f])[..loc] == s[..loc] && (s + [f])[loc..] == s[loc..] + [f];
        }
      }
      InsertAllBeforeLast(InsertAt(s, loc, v), f, cached[1..]);
    }
  }

  /** `InsertAllBeforeLast` for a list split into its front and its last element. */
  lemma InsertAllBeforeLastOf<V>(s: seq<V>, cached: seq<(nat, V)>)
    requires |s| > 0
    requires forall j :: 0 <= j < |cached| ==> cached[j].0 <= |s| - 1 + j
    ensures InsertAll(s, cached) == InsertAll(s[..|s| - 1], cached) + [s[|s| - 1]]
  {
    Seqs.SplitLast(s);
    InsertAllBeforeLast(s[..|s| - 1], s[|s| - 1], cached);
  }

  /** The vectors of the batch, in its order: the cached one for an answered item, else the next encoded one. */
  function Merge<M, V>(content: seq<Content<M>>, lookup: string -> Option<V>, encoded: seq<V>): (r: seq<V>)
    requires |encoded| == |Uncached(content, lookup)|
    ensures |r| == |content|
  {
    if content == [] then []
    else
      var last := content[|content| - 1];
      if Hit(last, lookup) then Merge(content[..|content| - 1], lookup, encoded) + [lookup(last.s).value]
      else Merge(content[..|content| - 1], lookup, encoded[..|encoded| - 1]) + [encoded[|encoded| - 1]]
  }

  /** Item by item: an answered item gets its cached vector, any other the encoded vector at its place among the encoded items. */
  lemma {:induction false} MergeAt<M, V>(content: seq<Content<M>>, lookup: string -> Option<V>, encoded: seq<V>, i: nat)
    requires |encoded| == |Uncached(content, lookup)| && i < |content|
    ensures Hit(content[i], lookup) ==> Merge(content, lookup, encoded)[i] == lookup(content[i].s).value
    ensures !Hit(content[i], lookup) ==>
              |Uncached(content[..i], lookup)| < |encoded| && Merge(content, lookup, encoded)[i] == encoded[|Uncached(content[..i], lookup)|]
    decreases |content|
  {
    var init := content[..|content| - 1];
    if i < |content| - 1 {
      assert init[..i] == content[..i];
      if Hit(content[|content| - 1], lookup) {
        MergeAt(init, lookup, encoded, i);
      } else {
        MergeAt(init, lookup, encoded[..|encoded| - 1], i);
      }
    } else {
      assert content[..i] == init;
    }
  }

  /** Inserting the cached vectors into the encoded ones gives the merge. */
  lemma {:induction false} InsertAllMerges<M, V>(content: seq<Content<M>>, lookup: string -> Option<V>, encoded: seq<V>)
    requires |encoded| == |Uncached(content, lookup)|
    ensures InsertAll(encoded, Cached(content, lookup)) == Merge(content, lookup, encoded)
  {
    if content != [] {
      var init := content[..|content| - 1];
      var last := content[|content| - 1];
      if Hit(last, lookup) {
        InsertAllMerges(init, lookup, encoded);
        InsertAllSnoc(encoded, Cached(init, lookup), (|content| - 1, lookup(last.s).value));
      } else {
        InsertAllMerges(init, lookup, encoded[..|encoded| - 1]);
        CachedBound(init, lookup);
        InsertAllBeforeLastOf(encoded, Cached(init, lookup));
      }
    }
  }

  /** `[vector for _, vector in cached_output]`. */
  function Values<V>(cached: seq<(nat, V)>): (r: seq<V>)
    ensures |r| == |cached|
  {
    if cached == [] then [] else Values(cached[..|cached| - 1]) + [cached[|cached| - 1].1]
  }

  /** When the cache answers every item, the cached vectors alone are the merge. */
  lemma {:induction false} ValuesMerge<M, V>(content: seq<Content<M>>, lookup: string -> Option<V>)
    requires Uncached(content, lookup) == []
    ensures Values(Cached(content, lookup)) == Merge(content, lookup, [])
  {
    if content != [] {
      var init := content[..|content| - 1];
      assert Uncached(init, lookup) == [];
      ValuesMerge(init, lookup);
      var cached := Cached(content, lookup);
      assert cached[..|cached| - 1] == Cached(init, lookup);
    }
  }

  /** The result of `_vectorise_list_with_cache` given the encoder's vectors `encoded` for the uncached items. */
  function Vectorised<M, V>(content: seq<Content<M>>, lookup: string -> Option<V>, encoded: seq<V>): seq<V>
  {
    if Uncached(content, lookup) != [] then InsertAll(encoded, Cached(content, lookup))
    else Values(Cached(content, lookup))
  }

  /**
   * One vector per item, in the batch's order: when the encoder returns one vector per item it
   * is given, the i-th result is the cached vector of the i-th item, or its encoded vector.
   */
  lemma VectorisedInOrder<M, V>(content: seq<Content<M>>, lookup: string -> Option<V>, encode: seq<Content<M>> -> seq<V>, i: nat)
    requires var uncached := Uncached(content, lookup); uncached != [] ==> |encode(uncached)| == |uncached|
    requires i < |content|
    ensures |Vectorised(content, lookup, encode(Uncached(content, lookup)))| == |content|
    ensures Hit(content[i], lookup) ==> Vectorised(content, lookup, encode(Uncached(content, lookup)))[i] == lookup(content[i].s).value
    ensures !Hit(content[i], lookup) ==>
              var encoded := encode(Uncached(content, lookup));
              |Uncached(content[..i], lookup)| < |encoded| && Vectorised(content, lookup, encoded)[i] == encoded[|Uncached(content[..i], lookup)|]
  {
    var uncached := Uncached(content, lookup);
    if uncached != [] {
      InsertAllMerges(content, lookup, encode(uncached));
      MergeAt(content, lookup, encode(uncached), i);
    } else {
      ValuesMerge(content, lookup);
      MergeAt(content, lookup, [], i);
    }
  }

  /** The cache writes for the first `n` pairs of encoded items and their vectors: one per string. */
  function Writes<M, V>(items: seq<Content<M>>, vectors: seq<V>, n: nat): (r: seq<(string, V)>)
    requires n <= |items| && n <= |vectors|
  {
    if n == 0 then []
    else Writes(items, vectors, n - 1) + (if items[n - 1].Text? then [(items[n - 1].s, vectors[n - 1])] else [])
  }

  /** Each write stores, under a string the cache did not hold, the encoded vector encoded for it. */
  lemma {:induction false} WritesAreMisses<M, V>(content: seq<Content<M>>, lookup: string -> Option<V>, vectors: seq<V>, n: nat)
    requires n <= |Uncached(content, lookup)| && n <= |vectors|
    ensures forall w :: w in Writes(Uncached(content, lookup), vectors, n) ==>
              lookup(w.0).None? && exists j :: 0 <= j < n && Uncached(content, lookup)[j] == Text(w.0) && vectors[j] == w.1
  {
    var items := Uncached(content, lookup);
    if n > 0 {
      WritesAreMisses(content, lookup, vectors, n - 1);
      assert !Hit(items[n - 1], lookup);
    }
  }

  /** The number of writes of a call. */
  function WritesOf<M, V>(items: seq<Content<M>>, vectors: seq<V>): nat
  {
    if |items| < |vectors| then |items| else |vectors|
  }

  /** The first loop: splits the batch into the items to encode and the cached vectors with their positions. */
  method Partition<M, V>(content: seq<Content<M>>, lookup: string -> Option<V>)
    returns (toVectorise: seq<Content<M>>, cachedOutput: seq<(nat, V)>)
    ensures toVectorise == Uncached(content, lookup)
    ensures cachedOutput == Cached(content, lookup)
  {
    toVectorise := [];
    cachedOutput := [];
    for loc := 0 to |content|
      invariant toVectorise == Uncached(content[..loc], lookup)
      invariant cachedOutput == Cached(content[..loc], lookup)
    {
      assert content[..loc + 1][..loc] == content[..loc];
      var item := content[loc];
      if item.Text? {
        var vectorised := lookup(item.s);
        if vectorised.None? {
          toVectorise := toVectorise + [item];
        } else {
          cachedOutput := cachedOutput + [(loc, vectorised.value)];
        }
      } else {
        toVectorise := toVectorise + [item];
      }
    }
    assert content[..|content|] == content;
  }

  /** The loop over `zip(contents_to_vectorise, vectorised_outputs)`: the writes to the cache. */
  method CacheWrites<M, V>(items: seq<Content<M>>, outputs: seq<V>) returns (writes: seq<(string, V)>)
    ensures writes == Writes(items, outputs, WritesOf(items, outputs))
  {
    writes := [];
    for i := 0 to WritesOf(items, outputs)
      invariant writes == Writes(items, outputs, i)
    {
      if items[i].Text? {
        writes := writes + [(items[i].s, outputs[i])];
      }
    }
  }

  /** The loop that inserts the cached vectors back at their positions. */
  method InsertCached<V>(outputs: seq<V>, cachedOutput: seq<(nat, V)>) returns (r: seq<V>)
    ensures r == InsertAll(outputs, cachedOutput)
  {
    r := outputs;
    for j := 0 to |cachedOutput|
      invariant InsertAll(r, cachedOutput[j..]) == InsertAll(outputs, cachedOutput)
    {
      Seqs.DropFirst(cachedOutput, j);
      r := InsertAt(r, cachedOutput[j].0, cachedOutput[j].1);
    }
  }

  /** `[vector for _, vector in cached_output]`, as a loop. */
  method CachedValues<V>(cachedOutput: seq<(nat, V)>) returns (r: seq<V>)
    ensures r == Values(cachedOutput)
  {
    r := [];
    for j := 0 to |cachedOutput|
      invariant r == Values(cachedOutput[..j])
    {
      assert cachedOutput[..j + 1][..j] == cachedOutput[..j];
      r := r + [cachedOutput[j].1];
    }
    assert cachedOutput[..|cachedOutput|] == cachedOutput;
  }

  /**
   * `_vectorise_list_with_cache`, with the cache's content as `lookup` and the model's encoder as
   * `encode`: returns the vectors and the writes to the cache, in order.
   */
  method VectoriseListWithCache<M, V>(content: seq<Content<M>>, lookup: string -> Option<V>, encode: seq<Content<M>> -> seq<V>)
    returns (vectors: seq<V>, writes: seq<(string, V)>)
    ensures vectors == Vectorised(content, lookup, encode(Uncached(content, lookup)))
    ensures var uncached := Uncached(content, lookup);
            writes == if uncached == [] then [] else Writes(uncached, encode(uncached), WritesOf(uncached, encode(uncached)))
  {
    var toVectorise, cachedOutput := Partition(content, lookup);
    if |toVectorise| > 0 {
      var outputs := encode(toVectorise);
      writes := CacheWrites(toVectorise, outputs);
      vectors := InsertCached(outputs, cachedOutput);
    } else {
      writes := [];
      vectors := CachedValues(cachedOutput);
    }
  }
}
