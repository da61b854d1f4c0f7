/**
 * The weighted RRF of the earlier `com.yahoo.search.example` searcher. Its tensor
 * loop is the same as the ai.marqo one, but it has no alpha guards and its lexical
 * loop always appends: a lexical hit gets its stored score (0 if none) plus its own
 * weighted reciprocal rank, and is added even when its id is already in the output.
 */
module ExampleFusion {
  import opened Hits
  import opened Fusion
  import FusionProperties
  import Seqs

  /** One lexical step of the variant: the accumulated score is recorded and the hit is always appended. */
  function VariantLexicalStep(st: FusionState, hit: Hit, rank: nat, k: nat, alpha: real): FusionState
    requires rank >= 1
  {
    var existing := if hit.id in st.scores then st.scores[hit.id] else 0.0;
    var newScore := existing + Weighted(1.0 - alpha, rank, k);
    FusionState(st.scores[hit.id := newScore], st.out + [Hit(hit.id, newScore)])
  }

  /** The variant's lexical loop over `hits` (ranks 1..|hits|): one output hit per lexical hit, after the old output. */
  function VariantLexicalPass(st: FusionState, hits: seq<Hit>, k: nat, alpha: real): (r: FusionState)
    ensures |r.out| == |st.out| + |hits|
    ensures r.out[..|st.out|] == st.out
    ensures forall j :: 0 <= j < |hits| ==> r.out[|st.out| + j].id == hits[j].id
  {
    if hits == [] then st
    else
      var n := |hits|;
      var mid := VariantLexicalPass(st, hits[..n - 1], k, alpha);
      var r := VariantLexicalStep(mid, hits[n - 1], n, k, alpha);
      assert r.out[..|mid.out|] == mid.out;
      assert forall j :: 0 <= j < n - 1 ==> hits[..n - 1][j] == hits[j];
      r
  }

  /** Both loops of the variant `rrf`: the unsorted output. */
  function VariantFused(hitsTensor: seq<Hit>, hitsLexical: seq<Hit>, k: nat, alpha: real): FusionState
  {
    VariantLexicalPass(TensorPass(hitsTensor, k, alpha), hitsLexical, k, alpha)
  }

  /** What the variant `rrf` returns: the output sorted by relevance and cut to max(|tensor|, |lexical|). */
  function VariantRrfResult(hitsTensor: seq<Hit>, hitsLexical: seq<Hit>, k: nat, alpha: real): seq<Hit>
  {
    var sorted := SortByRelevance(VariantFused(hitsTensor, hitsLexical, k, alpha).out);
    sorted[..Min(Max(|hitsTensor|, |hitsLexical|), |sorted|)]
  }

  /** Before sorting the variant holds one hit per input hit, the tensor hits first. */
  lemma VariantFusedShape(hitsTensor: seq<Hit>, hitsLexical: seq<Hit>, k: nat, alpha: real)
    ensures var out := VariantFused(hitsTensor, hitsLexical, k, alpha).out;
      && |out| == |hitsTensor| + |hitsLexical|
      && out[..|hitsTensor|] == TensorPass(hitsTensor, k, alpha).out
  {
  }

  /** After sorting and trimming the variant holds the max(|tensor|, |lexical|) best of its hits, descending. */
  lemma VariantRrfShape(hitsTensor: seq<Hit>, hitsLexical: seq<Hit>, k: nat, alpha: real)
    ensures var out := VariantFused(hitsTensor, hitsLexical, k, alpha).out;
      var r := VariantRrfResult(hitsTensor, hitsLexical, k, alpha);
      && Descending(r)
      && |r| == Max(|hitsTensor|, |hitsLexical|)
      && multiset(r) <= multiset(out)
      && forall h, h' :: h in r && h' in multiset(out) - multiset(r) ==> h.relevance >= h'.relevance
  {
    var out := VariantFused(hitsTensor, hitsLexical, k, alpha).out;
    VariantFusedShape(hitsTensor, hitsLexical, k, alpha);
    TopOfSorted(out, Max(|hitsTensor|, |hitsLexical|));
  }

  /** While the lexical loop runs: every scored id is a tensor or lexical id, scored tensor part plus lexical part. */
  ghost predicate Accumulated(st: FusionState, hitsTensor: seq<Hit>, lexicalSoFar: seq<Hit>, k: nat, alpha: real)
  {
    forall id ::
      && (id in st.scores <==> id in Ids(hitsTensor) || id in Ids(lexicalSoFar))
      && (id in st.scores ==>
            st.scores[id] == FusionProperties.Contribution(hitsTensor, id, alpha, k)
                             + FusionProperties.Contribution(lexicalSoFar, id, 1.0 - alpha, k))
  }

  /** After the tensor loop, with distinct tensor ids, each tensor id holds its tensor score. */
  lemma AccumulatedStart(hitsTensor: seq<Hit>, k: nat, alpha: real)
    requires DistinctIds(hitsTensor)
    ensures Accumulated(TensorPass(hitsTensor, k, alpha), hitsTensor, [], k, alpha)
  {
    var st := TensorPass(hitsTensor, k, alpha);
    FusionProperties.TensorPassScores(hitsTensor, k, alpha);
    FusionProperties.TensorPassIds(hitsTensor, k, alpha);
    forall id | id in st.scores
      ensures st.scores[id] == FusionProperties.Contribution(hitsTensor, id, alpha, k)
    {
      var i := FirstIndex(hitsTensor, id);
      FusionProperties.FirstIndexDistinct(hitsTensor, i);
    }
  }

  /** A lexical step on a new lexical id keeps the invariant and appends the hit with its accumulated score. */
  lemma AccumulatedStep(st: FusionState, hitsTensor: seq<Hit>, lexicalSoFar: seq<Hit>, hit: Hit, k: nat, alpha: real)
    requires Accumulated(st, hitsTensor, lexicalSoFar, k, alpha)
    requires hit.id !in Ids(lexicalSoFar)
    ensures var next := VariantLexicalStep(st, hit, |lexicalSoFar| + 1, k, alpha);
      && Accumulated(next, hitsTensor, lexicalSoFar + [hit], k, alpha)
      && next.out[|st.out|] == Hit(hit.id, FusionProperties.Contribution(hitsTensor, hit.id, alpha, k)
                                         + Weighted(1.0 - alpha, |lexicalSoFar| + 1, k))
  {
    var next := VariantLexicalStep(st, hit, |lexicalSoFar| + 1, k, alpha);
    SnocIds(lexicalSoFar, hit);
    forall id
      ensures id in next.scores <==> id in Ids(hitsTensor) || id in Ids(lexicalSoFar + [hit])
      ensures id in next.scores ==>
        next.scores[id] == FusionProperties.Contribution(hitsTensor, id, alpha, k)
                           + FusionProperties.Contribution(lexicalSoFar + [hit], id, 1.0 - alpha, k)
    {
      FusionProperties.ContributionSnoc(lexicalSoFar, hit, id, 1.0 - alpha, k);
    }
  }

  /** The lexical hit at rank j + 1 comes out after the tensor hits, scored tensor part plus lexical part. */
  ghost predicate LexicalEntries(out: seq<Hit>, hitsTensor: seq<Hit>, hitsLexical: seq<Hit>, k: nat, alpha: real)
  {
    && |out| == |hitsTensor| + |hitsLexical|
    && forall j :: 0 <= j < |hitsLexical| ==>
      out[|hitsTensor| + j]
        == Hit(hitsLexical[j].id, FusionProperties.Contribution(hitsTensor, hitsLexical[j].id, alpha, k) + Weighted(1.0 - alpha, j + 1, k))
  }

  /**
   * With distinct ids in each list, the variant's lexical hit at rank j + 1 comes out
   * right after the tensor hits, scored with its tensor contribution (0 when the id is
   * not a tensor id) plus (1 - alpha) / (j + 1 + k).
   */
  lemma {:induction false} VariantLexicalScores(hitsTensor: seq<Hit>, hitsLexical: seq<Hit>, k: nat, alpha: real)
    requires DistinctIds(hitsTensor) && DistinctIds(hitsLexical)
    ensures Accumulated(VariantFused(hitsTensor, hitsLexical, k, alpha), hitsTensor, hitsLexical, k, alpha)
    ensures LexicalEntries(VariantFused(hitsTensor, hitsLexical, k, alpha).out, hitsTensor, hitsLexical, k, alpha)
  {
    var n := |hitsLexical|;
    if n == 0 {
      AccumulatedStart(hitsTensor, k, alpha);
    } else {
      LastIdIsNew(hitsLexical);
      VariantLexicalScores(hitsTensor, hitsLexical[..n - 1], k, alpha);
      VariantLexicalScoresStep(hitsTensor, hitsLexical, k, alpha);
    }
  }

  /** The step of `VariantLexicalScores`: from the lexical hits but the last to all of them. */
  lemma VariantLexicalScoresStep(hitsTensor: seq<Hit>, hitsLexical: seq<Hit>, k: nat, alpha: real)
    requires hitsLexical != []
    requires hitsLexical[|hitsLexical| - 1].id !in Ids(hitsLexical[..|hitsLexical| - 1])
    requires var prefix := hitsLexical[..|hitsLexical| - 1];
      && Accumulated(VariantFused(hitsTensor, prefix, k, alpha), hitsTensor, prefix, k, alpha)
      && LexicalEntries(VariantFused(hitsTensor, prefix, k, alpha).out, hitsTensor, prefix, k, alpha)
    ensures Accumulated(VariantFused(hitsTensor, hitsLexical, k, alpha), hitsTensor, hitsLexical, k, alpha)
    ensures LexicalEntries(VariantFused(hitsTensor, hitsLexical, k, alpha).out, hitsTensor, hitsLexical, k, alpha)
  {
    var n := |hitsLexical|;
    var prefix := hitsLexical[..n - 1];
    var mid := VariantFused(hitsTensor, prefix, k, alpha);
    var last := hitsLexical[n - 1];
    var next := VariantFused(hitsTensor, hitsLexical, k, alpha);
    assert next == VariantLexicalStep(mid, last, n, k, alpha);
    AccumulatedStep(mid, hitsTensor, prefix, last, k, alpha);
    Seqs.SplitLast(hitsLexical);
    LexicalEntriesSnoc(mid.out, next.out, hitsTensor, hitsLexical, k, alpha,
                       FusionProperties.Contribution(hitsTensor, last.id, alpha, k));
  }

  /** Appending the entry of the last lexical hit to the entries of the others gives the entries of all. */
  lemma LexicalEntriesSnoc(mid: seq<Hit>, out: seq<Hit>, hitsTensor: seq<Hit>, hitsLexical: seq<Hit>, k: nat, alpha: real, c: real)
    requires hitsLexical != []
    requires LexicalEntries(mid, hitsTensor, hitsLexical[..|hitsLexical| - 1], k, alpha)
    requires |out| == |mid| + 1 && out[..|mid|] == mid
    requires c == FusionProperties.Contribution(hitsTensor, hitsLexical[|hitsLexical| - 1].id, alpha, k)
    requires out[|mid|] == Hit(hitsLexical[|hitsLexical| - 1].id, c + Weighted(1.0 - alpha, |hitsLexical|, k))
    ensures LexicalEntries(out, hitsTensor, hitsLexical, k, alpha)
  {
    var prefix := hitsLexical[..|hitsLexical| - 1];
    forall j | 0 <= j < |hitsLexical| - 1
      ensures out[|hitsTensor| + j]
        == Hit(hitsLexical[j].id, FusionProperties.Contribution(hitsTensor, hitsLexical[j].id, alpha, k) + Weighted(1.0 - alpha, j + 1, k))
    {
      assert prefix[j] == hitsLexical[j];
      assert out[|hitsTensor| + j] == mid[|hitsTensor| + j];
    }
  }

  /**
   * The variant counts an id found by both searches twice: the output keeps its tensor
   * hit and adds a second hit with the tensor score plus the lexical one.
   */
  lemma VariantDoubleCounts(hitsTensor: seq<Hit>, hitsLexical: seq<Hit>, k: nat, alpha: real, i: nat, j: nat)
    requires DistinctIds(hitsTensor) && DistinctIds(hitsLexical)
    requires i < |hitsTensor| && j < |hitsLexical|
    requires hitsTensor[i].id == hitsLexical[j].id
    ensures var out := VariantFused(hitsTensor, hitsLexical, k, alpha).out;
      && out[i] == Hit(hitsTensor[i].id, Weighted(alpha, i + 1, k))
      && out[|hitsTensor| + j] == Hit(hitsTensor[i].id, Weighted(alpha, i + 1, k) + Weighted(1.0 - alpha, j + 1, k))
  {
    FusionProperties.FirstIndexDistinct(hitsTensor, i);
    FusionProperties.ContributionAt(hitsTensor, i, alpha, k);
    var c := FusionProperties.Contribution(hitsTensor, hitsLexical[j].id, alpha, k);
    VariantLexicalScores(hitsTensor, hitsLexical, k, alpha);
    var out := VariantFused(hitsTensor, hitsLexical, k, alpha).out;
    assert out[|hitsTensor| + j] == Hit(hitsLexical[j].id, c + Weighted(1.0 - alpha, j + 1, k));
    assert out[..|hitsTensor|][i] == out[i];
  }

  /** The variant's lexical loop over the first n hits is one step on from the loop over the first n - 1. */
  lemma VariantLexicalPassPrefix(st: FusionState, hits: seq<Hit>, n: nat, k: nat, alpha: real)
    requires 1 <= n <= |hits|
    ensures VariantLexicalPass(st, hits[..n], k, alpha)
      == VariantLexicalStep(VariantLexicalPass(st, hits[..n - 1], k, alpha), hits[n - 1], n, k, alpha)
  {
    assert hits[..n][..n - 1] == hits[..n - 1];
  }

  /** `HybridSearcher.rrf` (com.yahoo.search.example). */
  method VariantRrf(hitsTensor: seq<Hit>, hitsLexical: seq<Hit>, k: nat, alpha: real) returns (result: HitGroup)
    ensures fresh(result)
    ensures result.hits == VariantRrfResult(hitsTensor, hitsLexical, k, alpha)
  {
    result := new HitGroup();
    var rrfScores := AddTensorHits(result, hitsTensor, k, alpha);
    rrfScores := AddVariantLexicalHits(result, rrfScores, hitsLexical, k, alpha);
    ghost var out := VariantFused(hitsTensor, hitsLexical, k, alpha).out;
    assert result.hits == out;
    result.Sort();
    ghost var sorted := result.hits;
    assert sorted == SortByRelevance(out);
    var finalLength := Max(|hitsTensor|, |hitsLexical|);
    result.Trim(0, finalLength);
    TrimFromStart(sorted, finalLength);
  }

  /** The variant's lexical loop of `rrf`. */
  method AddVariantLexicalHits(result: HitGroup, scores: map<Id, real>, hitsLexical: seq<Hit>, k: nat, alpha: real)
    returns (rrfScores: map<Id, real>)
    modifies result
    ensures FusionState(rrfScores, result.hits) == VariantLexicalPass(FusionState(scores, old(result.hits)), hitsLexical, k, alpha)
  {
    ghost var start := FusionState(scores, result.hits);
    rrfScores := scores;
    var rank := 1;
    while rank <= |hitsLexical|
      invariant 1 <= rank <= |hitsLexical| + 1
      invariant FusionState(rrfScores, result.hits) == VariantLexicalPass(start, hitsLexical[..rank - 1], k, alpha)
    {
      VariantLexicalPassPrefix(start, hitsLexical, rank, k, alpha);
      rrfScores := AddVariantLexicalHit(result, rrfScores, hitsLexical[rank - 1], rank, k, alpha);
      rank := rank + 1;
    }
    assert hitsLexical[..|hitsLexical|] == hitsLexical;
  }

  /** One iteration of the variant's lexical loop: the hit at `rank`, always appended. */
  method AddVariantLexicalHit(result: HitGroup, scores: map<Id, real>, hit: Hit, rank: nat, k: nat, alpha: real)
    returns (rrfScores: map<Id, real>)
    requires rank >= 1
    modifies result
    ensures FusionState(rrfScores, result.hits) == VariantLexicalStep(FusionState(scores, old(result.hits)), hit, rank, k, alpha)
  {
    var reciprocalRank := Weighted(1.0 - alpha, rank, k);
    var existingScore := if hit.id in scores then scores[hit.id] else 0.0;
    var newScore := existingScore + reciprocalRank;
    rrfScores := scores[hit.id := newScore];
    result.Add(Hit(hit.id, newScore));
  }
}
