/**
 * What the weighted RRF of the `ai.marqo.search` searcher promises: which ids come
 * out, the score each one gets, that the output is the top hits by that score, and
 * what the two extreme values of alpha reduce it to.
 */
module FusionProperties {
  import opened Hits
  import opened Fusion

  /** The weighted reciprocal rank a list gives `id`, by its first occurrence; 0 when absent. */
  function Contribution(hits: seq<Hit>, id: Id, weight: real, k: nat): real
  {
    if id in Ids(hits) then Weighted(weight, FirstIndex(hits, id) + 1, k) else 0.0
  }

  /** `hits` with each hit re-scored by its own rank: weight / (rank + k). */
  function Rescored(hits: seq<Hit>, weight: real, k: nat): (r: seq<Hit>)
    ensures |r| == |hits|
  {
    seq(|hits|, i requires 0 <= i < |hits| => Hit(hits[i].id, Weighted(weight, i + 1, k)))
  }

  /** The lexical loop keeps every id already in the output and ends with every lexical id in it. */
  lemma {:induction false} LexicalPassCovers(st: FusionState, hits: seq<Hit>, k: nat, alpha: real)
    requires Tracked(st)
    ensures forall id :: id in Ids(st.out) ==> id in Ids(LexicalPass(st, hits, k, alpha).out)
    ensures forall id :: id in Ids(hits) ==> id in Ids(LexicalPass(st, hits, k, alpha).out)
  {
    if hits != [] {
      var n := |hits|;
      LexicalPassCovers(st, hits[..n - 1], k, alpha);
      var mid := LexicalPass(st, hits[..n - 1], k, alpha);
      var r := LexicalStep(mid, hits[n - 1], n, k, alpha);
      assert r == LexicalPass(st, hits, k, alpha);
      assert forall id :: id in Ids(mid.out) ==> id in Ids(r.out);
      assert hits[n - 1].id in Ids(r.out);
      forall id | id in Ids(hits) ensures id in Ids(r.out) {
        var i :| 0 <= i < n && Ids(hits)[i] == id;
        if i < n - 1 {
          assert Ids(hits[..n - 1])[i] == id;
        }
      }
    }
  }

  /**
   * The fused output holds exactly the ids of the lists alpha lets in: the tensor
   * ids when alpha > 0 and the lexical ids when alpha < 1.
   */
  lemma FusedIds(hitsTensor: seq<Hit>, hitsLexical: seq<Hit>, k: nat, alpha: real)
    ensures forall id :: id in Ids(Fused(hitsTensor, hitsLexical, k, alpha).out) <==>
      (alpha > 0.0 && id in Ids(hitsTensor)) || (alpha < 1.0 && id in Ids(hitsLexical))
  {
    var afterTensor := if alpha > 0.0 then TensorPass(hitsTensor, k, alpha) else Start;
    TensorPassIds(hitsTensor, k, alpha);
    if alpha < 1.0 {
      var r := LexicalPass(afterTensor, hitsLexical, k, alpha);
      LexicalPassCovers(afterTensor, hitsLexical, k, alpha);
      LexicalPassAppendsUnseen(afterTensor, hitsLexical, k, alpha);
      forall id | id in Ids(r.out)
        ensures id in Ids(afterTensor.out) || id in Ids(hitsLexical)
      {
        var i :| 0 <= i < |r.out| && Ids(r.out)[i] == id;
        if i < |afterTensor.out| {
          assert Ids(r.out)[..|afterTensor.out|][i] == id;
        }
      }
    }
  }

  /** At most one fused hit per input hit. */
  lemma FusedSize(hitsTensor: seq<Hit>, hitsLexical: seq<Hit>, k: nat, alpha: real)
    ensures |Fused(hitsTensor, hitsLexical, k, alpha).out| <= |hitsTensor| + |hitsLexical|
  {
    var afterTensor := if alpha > 0.0 then TensorPass(hitsTensor, k, alpha) else Start;
    if alpha < 1.0 {
      LexicalPassAppendsUnseen(afterTensor, hitsLexical, k, alpha);
    }
  }

  /**
   * `rrf`'s output is ordered by relevance, holds min(max(|tensor|, |lexical|), #fused)
   * of the fused hits, and they are the best ones: no fused hit left out of the
   * output scores higher than any hit in it.
   */
  lemma RrfResultTopHits(hitsTensor: seq<Hit>, hitsLexical: seq<Hit>, k: nat, alpha: real)
    ensures var out := Fused(hitsTensor, hitsLexical, k, alpha).out;
      var r := RrfResult(hitsTensor, hitsLexical, k, alpha);
      && Descending(r)
      && |r| == Min(Max(|hitsTensor|, |hitsLexical|), |out|)
      && multiset(r) <= multiset(out)
      && forall h, h' :: h in r && h' in multiset(out) - multiset(r) ==> h.relevance >= h'.relevance
  {
    var out := Fused(hitsTensor, hitsLexical, k, alpha).out;
    var sorted := SortByRelevance(out);
    PrefixIsTop(sorted, Min(Max(|hitsTensor|, |hitsLexical|), |sorted|));
  }

  /** The invariant of the lexical loop when both lists have distinct ids. */
  ghost predicate Blended(st: FusionState, hitsTensor: seq<Hit>, lexicalSoFar: seq<Hit>, k: nat, alpha: real)
  {
    && Tracked(st)
    && DistinctIds(st.out)
    && (forall id :: id in Ids(st.out) <==> id in Ids(hitsTensor) || id in Ids(lexicalSoFar))
    && forall i :: 0 <= i < |st.out| ==>
      && st.scores[st.out[i].id] == st.out[i].relevance
      && st.out[i].relevance
        == Contribution(hitsTensor, st.out[i].id, alpha, k) + Contribution(lexicalSoFar, st.out[i].id, 1.0 - alpha, k)
  }

  /** With distinct ids, hit i's id is found first at position i. */
  lemma FirstIndexDistinct(hits: seq<Hit>, i: nat)
    requires DistinctIds(hits)
    requires i < |hits|
    ensures hits[i].id in Ids(hits)
    ensures FirstIndex(hits, hits[i].id) == i
  {
    assert Ids(hits)[i] == hits[i].id;
  }

  /** With distinct tensor ids, the tensor loop's score for each id is that hit's own. */
  lemma {:induction false} TensorPassScores(hits: seq<Hit>, k: nat, alpha: real)
    requires DistinctIds(hits)
    ensures forall i :: 0 <= i < |hits| ==> TensorPass(hits, k, alpha).scores[hits[i].id] == Weighted(alpha, i + 1, k)
  {
    if hits != [] {
      var n := |hits|;
      TensorPassScores(hits[..n - 1], k, alpha);
    }
  }

  /** The tensor loop's output holds exactly the tensor ids. */
  lemma TensorPassIds(hits: seq<Hit>, k: nat, alpha: real)
    ensures forall id :: id in Ids(TensorPass(hits, k, alpha).out) <==> id in Ids(hits)
  {
    var out := TensorPass(hits, k, alpha).out;
    assert Ids(out) == Ids(hits);
  }

  /** The state after the tensor loop satisfies the invariant with no lexical hit seen. */
  lemma BlendedStart(hitsTensor: seq<Hit>, k: nat, alpha: real)
    requires DistinctIds(hitsTensor)
    ensures Blended(TensorPass(hitsTensor, k, alpha), hitsTensor, [], k, alpha)
  {
    var st := TensorPass(hitsTensor, k, alpha);
    TensorPassScores(hitsTensor, k, alpha);
    TensorPassIds(hitsTensor, k, alpha);
    forall i, j | 0 <= i < j < |st.out|
      ensures st.out[i].id != st.out[j].id
    {
      assert st.out[i].id == hitsTensor[i].id && st.out[j].id == hitsTensor[j].id;
    }
    forall i | 0 <= i < |st.out|
      ensures st.scores[st.out[i].id] == st.out[i].relevance
      ensures st.out[i].relevance == Contribution(hitsTensor, st.out[i].id, alpha, k) + Contribution([], st.out[i].id, 1.0 - alpha, k)
    {
      assert st.out[i] == Hit(hitsTensor[i].id, Weighted(alpha, i + 1, k));
      ContributionAt(hitsTensor, i, alpha, k);
      NoContribution(hitsTensor[i].id, 1.0 - alpha, k);
    }
  }

  /** With distinct ids, the hit at position i contributes with rank i + 1. */
  lemma ContributionAt(hits: seq<Hit>, i: nat, weight: real, k: nat)
    requires DistinctIds(hits)
    requires i < |hits|
    ensures Contribution(hits, hits[i].id, weight, k) == Weighted(weight, i + 1, k)
  {
    FirstIndexDistinct(hits, i);
  }

  /** An empty list contributes nothing. */
  lemma NoContribution(id: Id, weight: real, k: nat)
    ensures Contribution([], id, weight, k) == 0.0
  {
    assert Ids([]) == [];
  }

  /** Appending a new, distinct id to a list changes its contribution only for that id. */
  lemma ContributionSnoc(hits: seq<Hit>, hit: Hit, id: Id, weight: real, k: nat)
    requires hit.id !in Ids(hits)
    ensures Contribution(hits + [hit], id, weight, k)
      == if id == hit.id then Weighted(weight, |hits| + 1, k) else Contribution(hits, id, weight, k)
  {
    var ext := hits + [hit];
    if id == hit.id {
      assert Ids(ext)[|hits|] == id;
    } else if id in Ids(hits) {
      var p := FirstIndex(hits, id);
      assert ext[p] == hits[p];
      assert Ids(ext)[p] == id;
      var q := FirstIndex(ext, id);
      assert q < |hits|;
      assert ext[q] == hits[q];
    } else {
      forall i | 0 <= i < |ext| ensures Ids(ext)[i] != id {
        if i < |hits| {
          assert Ids(hits)[i] == ext[i].id;
        }
      }
    }
  }

  /** One lexical step with a new distinct lexical id keeps the invariant. */
  lemma BlendedStep(st: FusionState, hitsTensor: seq<Hit>, lexicalSoFar: seq<Hit>, hit: Hit, k: nat, alpha: real)
    requires Blended(st, hitsTensor, lexicalSoFar, k, alpha)
    requires hit.id !in Ids(lexicalSoFar)
    ensures Blended(LexicalStep(st, hit, |lexicalSoFar| + 1, k, alpha), hitsTensor, lexicalSoFar + [hit], k, alpha)
  {
    SnocIds(lexicalSoFar, hit);
    if hit.id !in st.scores {
      BlendedStepUnseen(st, hitsTensor, lexicalSoFar, hit, k, alpha);
    } else {
      BlendedStepSeen(st, hitsTensor, lexicalSoFar, hit, k, alpha);
    }
  }

  /** An id no list has brought yet is appended with its lexical term as its whole score. */
  lemma BlendedStepUnseen(st: FusionState, hitsTensor: seq<Hit>, lexicalSoFar: seq<Hit>, hit: Hit, k: nat, alpha: real)
    requires Blended(st, hitsTensor, lexicalSoFar, k, alpha)
    requires hit.id !in Ids(lexicalSoFar)
    requires hit.id !in st.scores
    requires forall id :: id in Ids(lexicalSoFar + [hit]) <==> id in Ids(lexicalSoFar) || id == hit.id
    ensures Blended(LexicalStep(st, hit, |lexicalSoFar| + 1, k, alpha), hitsTensor, lexicalSoFar + [hit], k, alpha)
  {
    var ext := lexicalSoFar + [hit];
    var next := LexicalStep(st, hit, |lexicalSoFar| + 1, k, alpha);
    var w := Weighted(1.0 - alpha, |lexicalSoFar| + 1, k);
    assert next.out == st.out + [Hit(hit.id, w)];
    forall i | 0 <= i < |st.out| ensures st.out[i].id != hit.id {
      assert Ids(st.out)[i] == st.out[i].id;
    }
    forall i | 0 <= i < |next.out|
      ensures next.scores[next.out[i].id] == next.out[i].relevance
      ensures next.out[i].relevance
        == Contribution(hitsTensor, next.out[i].id, alpha, k) + Contribution(ext, next.out[i].id, 1.0 - alpha, k)
    {
      UnseenEntry(st, hitsTensor, lexicalSoFar, hit, k, alpha, i);
    }
  }

  /** The unseen case at one output position. */
  lemma UnseenEntry(st: FusionState, hitsTensor: seq<Hit>, lexicalSoFar: seq<Hit>, hit: Hit, k: nat, alpha: real, i: nat)
    requires Blended(st, hitsTensor, lexicalSoFar, k, alpha)
    requires hit.id !in Ids(lexicalSoFar)
    requires hit.id !in st.scores
    requires i <= |st.out|
    ensures var next := LexicalStep(st, hit, |lexicalSoFar| + 1, k, alpha);
      && i < |next.out|
      && next.scores[next.out[i].id] == next.out[i].relevance
      && next.out[i].relevance
        == Contribution(hitsTensor, next.out[i].id, alpha, k) + Contribution(lexicalSoFar + [hit], next.out[i].id, 1.0 - alpha, k)
  {
    var next := LexicalStep(st, hit, |lexicalSoFar| + 1, k, alpha);
    ContributionSnoc(lexicalSoFar, hit, next.out[i].id, 1.0 - alpha, k);
    if i < |st.out| {
      assert Ids(st.out)[i] == st.out[i].id;
      assert next.out[i] == st.out[i];
    } else {
      assert hit.id !in Ids(hitsTensor);
    }
  }

  /** An id already in the output keeps its place and gains its lexical term. */
  lemma BlendedStepSeen(st: FusionState, hitsTensor: seq<Hit>, lexicalSoFar: seq<Hit>, hit: Hit, k: nat, alpha: real)
    requires Blended(st, hitsTensor, lexicalSoFar, k, alpha)
    requires hit.id !in Ids(lexicalSoFar)
    requires hit.id in st.scores
    requires forall id :: id in Ids(lexicalSoFar + [hit]) <==> id in Ids(lexicalSoFar) || id == hit.id
    ensures Blended(LexicalStep(st, hit, |lexicalSoFar| + 1, k, alpha), hitsTensor, lexicalSoFar + [hit], k, alpha)
  {
    var next := LexicalStep(st, hit, |lexicalSoFar| + 1, k, alpha);
    SameIdsDistinct(st.out, next.out);
    SeenIds(st, hitsTensor, lexicalSoFar, hit, k, alpha);
    SeenEntries(st, hitsTensor, lexicalSoFar, hit, k, alpha);
  }

  /** The seen case keeps the output ids, which already include the hit's. */
  lemma SeenIds(st: FusionState, hitsTensor: seq<Hit>, lexicalSoFar: seq<Hit>, hit: Hit, k: nat, alpha: real)
    requires Blended(st, hitsTensor, lexicalSoFar, k, alpha)
    requires hit.id in st.scores
    requires forall id :: id in Ids(lexicalSoFar + [hit]) <==> id in Ids(lexicalSoFar) || id == hit.id
    ensures var next := LexicalStep(st, hit, |lexicalSoFar| + 1, k, alpha);
      forall id :: id in Ids(next.out) <==> id in Ids(hitsTensor) || id in Ids(lexicalSoFar + [hit])
  {
    assert hit.id in Ids(st.out);
  }

  /** The seen case at every output position. */
  lemma SeenEntries(st: FusionState, hitsTensor: seq<Hit>, lexicalSoFar: seq<Hit>, hit: Hit, k: nat, alpha: real)
    requires Blended(st, hitsTensor, lexicalSoFar, k, alpha)
    requires hit.id !in Ids(lexicalSoFar)
    requires hit.id in st.scores
    ensures var next := LexicalStep(st, hit, |lexicalSoFar| + 1, k, alpha);
      forall i :: 0 <= i < |next.out| ==>
        && next.scores[next.out[i].id] == next.out[i].relevance
        && next.out[i].relevance
          == Contribution(hitsTensor, next.out[i].id, alpha, k) + Contribution(lexicalSoFar + [hit], next.out[i].id, 1.0 - alpha, k)
  {
    var next := LexicalStep(st, hit, |lexicalSoFar| + 1, k, alpha);
    forall i | 0 <= i < |next.out|
      ensures next.scores[next.out[i].id] == next.out[i].relevance
      ensures next.out[i].relevance
        == Contribution(hitsTensor, next.out[i].id, alpha, k) + Contribution(lexicalSoFar + [hit], next.out[i].id, 1.0 - alpha, k)
    {
      SeenEntry(st, hitsTensor, lexicalSoFar, hit, k, alpha, i);
    }
  }

  /** A list with the same ids, in the same order, as a list of distinct ids has distinct ids. */
  lemma SameIdsDistinct(a: seq<Hit>, b: seq<Hit>)
    requires DistinctIds(a)
    requires Ids(b) == Ids(a)
    ensures DistinctIds(b)
  {
    forall i, j | 0 <= i < j < |b| ensures b[i].id != b[j].id {
      assert Ids(b)[i] == Ids(a)[i] && Ids(b)[j] == Ids(a)[j];
    }
  }

  /** The seen case at one output position. */
  lemma SeenEntry(st: FusionState, hitsTensor: seq<Hit>, lexicalSoFar: seq<Hit>, hit: Hit, k: nat, alpha: real, i: nat)
    requires Blended(st, hitsTensor, lexicalSoFar, k, alpha)
    requires hit.id !in Ids(lexicalSoFar)
    requires hit.id in st.scores
    requires i < |st.out|
    ensures var next := LexicalStep(st, hit, |lexicalSoFar| + 1, k, alpha);
      && i < |next.out|
      && next.scores[next.out[i].id] == next.out[i].relevance
      && next.out[i].relevance
        == Contribution(hitsTensor, next.out[i].id, alpha, k) + Contribution(lexicalSoFar + [hit], next.out[i].id, 1.0 - alpha, k)
  {
    var p := FirstIndex(st.out, hit.id);
    if i == p {
      SeenEntryAtHit(st, hitsTensor, lexicalSoFar, hit, k, alpha);
    } else {
      var next := LexicalStep(st, hit, |lexicalSoFar| + 1, k, alpha);
      assert st.out[i].id != st.out[p].id;
      assert next.out[i] == st.out[i];
      assert next.scores[st.out[i].id] == st.scores[st.out[i].id];
      ContributionSnoc(lexicalSoFar, hit, st.out[i].id, 1.0 - alpha, k);
    }
  }

  /** The seen case at the re-scored hit: its score gains exactly the lexical term. */
  lemma SeenEntryAtHit(st: FusionState, hitsTensor: seq<Hit>, lexicalSoFar: seq<Hit>, hit: Hit, k: nat, alpha: real)
    requires Blended(st, hitsTensor, lexicalSoFar, k, alpha)
    requires hit.id !in Ids(lexicalSoFar)
    requires hit.id in st.scores
    ensures var next := LexicalStep(st, hit, |lexicalSoFar| + 1, k, alpha);
      var p := FirstIndex(st.out, hit.id);
      && next.out[p] == Hit(hit.id, next.scores[hit.id])
      && next.scores[hit.id]
        == Contribution(hitsTensor, hit.id, alpha, k) + Contribution(lexicalSoFar + [hit], hit.id, 1.0 - alpha, k)
  {
    var p := FirstIndex(st.out, hit.id);
    var w := Weighted(1.0 - alpha, |lexicalSoFar| + 1, k);
    ContributionSnoc(lexicalSoFar, hit, hit.id, 1.0 - alpha, k);
    var before := st.out[p].relevance;
    assert st.scores[hit.id] == before;
    assert Contribution(lexicalSoFar, hit.id, 1.0 - alpha, k) == 0.0;
    assert before == Contribution(hitsTensor, hit.id, alpha, k);
    assert Contribution(lexicalSoFar + [hit], hit.id, 1.0 - alpha, k) == w;
  }

  /** The lexical loop keeps the invariant when both lists have distinct ids. */
  lemma {:induction false} LexicalPassBlended(hitsTensor: seq<Hit>, hitsLexical: seq<Hit>, k: nat, alpha: real)
    requires DistinctIds(hitsTensor) && DistinctIds(hitsLexical)
    ensures Blended(LexicalPass(TensorPass(hitsTensor, k, alpha), hitsLexical, k, alpha), hitsTensor, hitsLexical, k, alpha)
  {
    if hitsLexical == [] {
      BlendedStart(hitsTensor, k, alpha);
    } else {
      var n := |hitsLexical|;
      var prefix := hitsLexical[..n - 1];
      LastIdIsNew(hitsLexical);
      LexicalPassBlended(hitsTensor, prefix, k, alpha);
      assert hitsLexical == prefix + [hitsLexical[n - 1]];
      var mid := LexicalPass(TensorPass(hitsTensor, k, alpha), prefix, k, alpha);
      BlendedStep(mid, hitsTensor, prefix, hitsLexical[n - 1], k, alpha);
      assert LexicalPass(TensorPass(hitsTensor, k, alpha), hitsLexical, k, alpha) == LexicalStep(mid, hitsLexical[n - 1], n, k, alpha);
    }
  }

  /**
   * Weighted RRF proper: when each list has distinct ids and 0 < alpha < 1, the
   * output has distinct ids, is ordered by relevance, holds max(|tensor|, |lexical|)
   * hits, and each hit's relevance is alpha / (tensor rank + k) plus
   * (1 - alpha) / (lexical rank + k), a list it is absent from contributing 0.
   */
  lemma RrfBlendedScores(hitsTensor: seq<Hit>, hitsLexical: seq<Hit>, k: nat, alpha: real)
    requires DistinctIds(hitsTensor) && DistinctIds(hitsLexical)
    requires 0.0 < alpha < 1.0
    ensures var r := RrfResult(hitsTensor, hitsLexical, k, alpha);
      && Descending(r)
      && DistinctIds(r)
      && |r| == Max(|hitsTensor|, |hitsLexical|)
      && forall h :: h in r ==>
        h.relevance == Contribution(hitsTensor, h.id, alpha, k) + Contribution(hitsLexical, h.id, 1.0 - alpha, k)
  {
    var out := Fused(hitsTensor, hitsLexical, k, alpha).out;
    FusedBlended(hitsTensor, hitsLexical, k, alpha);
    FusedHoldsBoth(hitsTensor, hitsLexical, k, alpha);
    var sorted := SortByRelevance(out);
    DistinctPermutation(out, sorted);
    var m := Min(Max(|hitsTensor|, |hitsLexical|), |sorted|);
    forall h | h in sorted[..m]
      ensures h.relevance == Contribution(hitsTensor, h.id, alpha, k) + Contribution(hitsLexical, h.id, 1.0 - alpha, k)
    {
      assert h in multiset(out);
    }
  }

  /** The fused, unsorted output when both lists have distinct ids and 0 < alpha < 1. */
  lemma FusedBlended(hitsTensor: seq<Hit>, hitsLexical: seq<Hit>, k: nat, alpha: real)
    requires DistinctIds(hitsTensor) && DistinctIds(hitsLexical)
    requires 0.0 < alpha < 1.0
    ensures var out := Fused(hitsTensor, hitsLexical, k, alpha).out;
      && DistinctIds(out)
      && forall h :: h in out ==>
        h.relevance == Contribution(hitsTensor, h.id, alpha, k) + Contribution(hitsLexical, h.id, 1.0 - alpha, k)
  {
    LexicalPassBlended(hitsTensor, hitsLexical, k, alpha);
    var out := Fused(hitsTensor, hitsLexical, k, alpha).out;
    forall h | h in out
      ensures h.relevance == Contribution(hitsTensor, h.id, alpha, k) + Contribution(hitsLexical, h.id, 1.0 - alpha, k)
    {
      var i :| 0 <= i < |out| && out[i] == h;
    }
  }

  /** With distinct ids in each list, the fused output is at least as long as either list. */
  lemma FusedHoldsBoth(hitsTensor: seq<Hit>, hitsLexical: seq<Hit>, k: nat, alpha: real)
    requires DistinctIds(hitsTensor) && DistinctIds(hitsLexical)
    requires 0.0 < alpha < 1.0
    ensures |hitsTensor| <= |Fused(hitsTensor, hitsLexical, k, alpha).out|
    ensures |hitsLexical| <= |Fused(hitsTensor, hitsLexical, k, alpha).out|
  {
    var out := Fused(hitsTensor, hitsLexical, k, alpha).out;
    LexicalPassBlended(hitsTensor, hitsLexical, k, alpha);
    IdSetCovered(hitsTensor, out);
    IdSetCovered(hitsLexical, out);
    DistinctIdSetSize(hitsTensor);
    DistinctIdSetSize(hitsLexical);
    DistinctIdSetSize(out);
    SubsetSize(IdSet(hitsTensor), IdSet(out));
    SubsetSize(IdSet(hitsLexical), IdSet(out));
  }

  lemma IdSetCovered(a: seq<Hit>, b: seq<Hit>)
    requires forall id :: id in Ids(a) ==> id in Ids(b)
    ensures IdSet(a) <= IdSet(b)
  {
    forall id | id in IdSet(a) ensures id in IdSet(b) {
      var i :| 0 <= i < |a| && a[i].id == id;
      assert Ids(a)[i] == id;
      assert id in Ids(b);
      var j :| 0 <= j < |b| && Ids(b)[j] == id;
      assert b[j].id == id;
    }
  }

  lemma SubsetSize<T>(a: set<T>, b: set<T>)
    requires a <= b
    ensures |a| <= |b|
  {
    assert b == a + (b - a);
  }

  /** With alpha >= 1 the lexical loop is skipped: the output is the tensor list re-scored by alpha / (rank + k). */
  lemma TensorOnly(hitsTensor: seq<Hit>, hitsLexical: seq<Hit>, k: nat, alpha: real)
    requires alpha >= 1.0
    ensures Fused(hitsTensor, hitsLexical, k, alpha).out == Rescored(hitsTensor, alpha, k)
  {
  }

  /** From an empty state, distinct lexical hits are each appended, re-scored by their own rank. */
  lemma {:induction false} LexicalPassFromStart(hits: seq<Hit>, k: nat, alpha: real)
    requires DistinctIds(hits)
    ensures var r := LexicalPass(Start, hits, k, alpha);
      && |r.out| == |hits|
      && (forall i :: 0 <= i < |hits| ==> r.out[i] == Hit(hits[i].id, Weighted(1.0 - alpha, i + 1, k)))
      && r.scores.Keys == IdSet(hits)
  {
    if hits != [] {
      var n := |hits|;
      var prefix := hits[..n - 1];
      LastIdIsNew(hits);
      LexicalPassFromStart(prefix, k, alpha);
      var mid := LexicalPass(Start, prefix, k, alpha);
      var w := Weighted(1.0 - alpha, n, k);
      assert hits[n - 1].id !in mid.scores;
      var r := LexicalStep(mid, hits[n - 1], n, k, alpha);
      assert r == FusionState(mid.scores[hits[n - 1].id := w], mid.out + [Hit(hits[n - 1].id, w)]);
      assert LexicalPass(Start, hits, k, alpha) == r;
      forall i | 0 <= i < n ensures r.out[i] == Hit(hits[i].id, Weighted(1.0 - alpha, i + 1, k)) {
        if i < n - 1 {
          assert r.out[i] == mid.out[i];
          assert hits[i] == prefix[i];
        }
      }
    }
  }

  /** With alpha <= 0 the tensor loop is skipped: the output is the (distinct) lexical list re-scored by (1 - alpha) / (rank + k). */
  lemma LexicalOnly(hitsTensor: seq<Hit>, hitsLexical: seq<Hit>, k: nat, alpha: real)
    requires alpha <= 0.0
    requires DistinctIds(hitsLexical)
    ensures Fused(hitsTensor, hitsLexical, k, alpha).out == Rescored(hitsLexical, 1.0 - alpha, k)
  {
    LexicalPassFromStart(hitsLexical, k, alpha);
  }

  /**
   * Tensor hits [A, B], lexical hits [B, C], k = 60, alpha = 0.5: B, found by both
   * lists, is first with 0.5/62 + 0.5/61, A follows with 0.5/61, and C (0.5/62) is
   * cut because the output keeps max(2, 2) hits.
   */
  lemma RrfScenario()
    ensures RrfResult([Hit("A", 0.0), Hit("B", 0.0)], [Hit("B", 0.0), Hit("C", 0.0)], 60, 0.5)
      == [Hit("B", 1.0 / 124.0 + 1.0 / 122.0), Hit("A", 1.0 / 122.0)]
  {
    var a := Hit("A", 1.0 / 122.0);
    var b := Hit("B", 1.0 / 124.0 + 1.0 / 122.0);
    var c := Hit("C", 1.0 / 124.0);
    var out := Fused([Hit("A", 0.0), Hit("B", 0.0)], [Hit("B", 0.0), Hit("C", 0.0)], 60, 0.5).out;
    ScenarioFused();
    assert multiset(out) == multiset{b, a, c};
    TopTwoOfThree(out, b, a, c);
  }

  /** The scenario above before sorting: A and B from the tensor loop, B re-scored, C appended. */
  lemma ScenarioFused()
    ensures Fused([Hit("A", 0.0), Hit("B", 0.0)], [Hit("B", 0.0), Hit("C", 0.0)], 60, 0.5).out
      == [Hit("A", 1.0 / 122.0), Hit("B", 1.0 / 124.0 + 1.0 / 122.0), Hit("C", 1.0 / 124.0)]
  {
    var tensor := [Hit("A", 0.0), Hit("B", 0.0)];
    var lexical := [Hit("B", 0.0), Hit("C", 0.0)];
    var afterTensor := TensorPass(tensor, 60, 0.5);
    assert afterTensor.out == [Hit("A", 1.0 / 122.0), Hit("B", 1.0 / 124.0)];
    assert afterTensor.scores == map["A" := 1.0 / 122.0, "B" := 1.0 / 124.0];
    var mid := ScenarioFirstLexical(afterTensor);
    assert lexical[..1] == [Hit("B", 0.0)];
    assert LexicalPass(afterTensor, lexical, 60, 0.5) == LexicalStep(mid, Hit("C", 0.0), 2, 60, 0.5);
  }

  /** The scenario's first lexical step: B is already scored, so it is re-scored in place. */
  lemma ScenarioFirstLexical(afterTensor: FusionState) returns (mid: FusionState)
    requires afterTensor.out == [Hit("A", 1.0 / 122.0), Hit("B", 1.0 / 124.0)]
    requires afterTensor.scores == map["A" := 1.0 / 122.0, "B" := 1.0 / 124.0]
    requires Tracked(afterTensor)
    ensures mid == LexicalPass(afterTensor, [Hit("B", 0.0)], 60, 0.5)
    ensures mid.out == [Hit("A", 1.0 / 122.0), Hit("B", 1.0 / 124.0 + 1.0 / 122.0)]
    ensures "C" !in mid.scores
  {
    assert [Hit("B", 0.0)][..0] == [];
    assert LexicalPass(afterTensor, [], 60, 0.5) == afterTensor;
    mid := LexicalStep(afterTensor, Hit("B", 0.0), 1, 60, 0.5);
    assert FirstIndex(afterTensor.out, "B") == 1;
    assert Weighted(0.5, 1, 60) == 1.0 / 122.0;
  }

  /** Three hits with strictly decreasing relevance x, y, z: sorting keeps x and y first. */
  lemma TopTwoOfThree(out: seq<Hit>, x: Hit, y: Hit, z: Hit)
    requires multiset(out) == multiset{x, y, z}
    requires x.relevance > y.relevance > z.relevance
    ensures |out| == 3
    ensures SortByRelevance(out)[..2] == [x, y]
  {
    assert |out| == 3 by { assert |multiset(out)| == 3; }
    SortedPermutationOfThree(out, SortByRelevance(out), x, y, z);
  }

  /** The only descending arrangement of three hits with strictly decreasing relevance. */
  lemma SortedPermutationOfThree(out: seq<Hit>, sorted: seq<Hit>, x: Hit, y: Hit, z: Hit)
    requires multiset(out) == multiset{x, y, z}
    requires multiset(sorted) == multiset(out)
    requires Descending(sorted)
    requires x.relevance > y.relevance > z.relevance
    ensures sorted == [x, y, z]
  {
    assert |sorted| == 3 by { assert |multiset(sorted)| == 3; }
    assert sorted[0] in multiset{x, y, z} && sorted[1] in multiset{x, y, z} && sorted[2] in multiset{x, y, z};
    assert x in multiset(sorted) && y in multiset(sorted) && z in multiset(sorted);
    assert x != y && y != z && x != z;
  }
}
