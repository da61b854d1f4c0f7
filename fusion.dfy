/**
 * Weighted Reciprocal Rank Fusion as `HybridSearcher.rrf` in the `ai.marqo.search`
 * package does it: the tensor hits (when alpha > 0) and then the lexical hits (when
 * alpha < 1) are scored by weight / (rank + k); an id already scored is not appended
 * again, its output hit is re-scored with the sum instead; the output is then sorted
 * by relevance and trimmed to the longer input's length.
 */
module Fusion {
  import opened Wrappers
  import opened Hits

  /** `weight * (1.0 / (rank + k))`, the weighted reciprocal rank of a hit at 1-based `rank`. */
  function Weighted(weight: real, rank: nat, k: nat): real
    requires rank >= 1
  {
    weight * (1.0 / (rank + k) as real)
  }

  /** The state of a fusion run: the `rrfScores` map and the hits appended to `result` so far. */
  datatype FusionState = FusionState(scores: map<Id, real>, out: seq<Hit>)

  const Start := FusionState(map[], [])

  /** Every scored id has a hit in the output and every output hit's id is scored. */
  ghost predicate Tracked(st: FusionState)
  {
    forall id :: id in st.scores <==> id in Ids(st.out)
  }

  /**
   * The tensor loop over `hits` (ranks 1..|hits|): every hit is appended re-scored
   * with alpha / (rank + k), and its score is recorded under its id.
   */
  function TensorPass(hits: seq<Hit>, k: nat, alpha: real): (st: FusionState)
    ensures |st.out| == |hits|
    ensures forall i :: 0 <= i < |hits| ==> st.out[i] == Hit(hits[i].id, Weighted(alpha, i + 1, k))
    ensures Tracked(st)
  {
    if hits == [] then Start
    else
      var n := |hits|;
      var st := TensorPass(hits[..n - 1], k, alpha);
      var score := Weighted(alpha, n, k);
      FusionState(st.scores[hits[n - 1].id := score], st.out + [Hit(hits[n - 1].id, score)])
  }

  /** The tensor loop over the first n hits is one step on from the loop over the first n - 1. */
  lemma TensorPassPrefix(hits: seq<Hit>, n: nat, k: nat, alpha: real)
    requires 1 <= n <= |hits|
    ensures var st := TensorPass(hits[..n - 1], k, alpha);
      TensorPass(hits[..n], k, alpha)
        == FusionState(st.scores[hits[n - 1].id := Weighted(alpha, n, k)], st.out + [Hit(hits[n - 1].id, Weighted(alpha, n, k))])
  {
    assert hits[..n][..n - 1] == hits[..n - 1];
  }

  /** The position of the first hit of `out` with this id (what `HitGroup.get(id)` finds). */
  function FirstIndex(out: seq<Hit>, id: Id): (p: nat)
    requires id in Ids(out)
    ensures p < |out| && out[p].id == id
    ensures forall j :: 0 <= j < p ==> out[j].id != id
  {
    if out[0].id == id then 0
    else
      assert id in Ids(out[1..]) by {
        var i :| 0 <= i < |out| && Ids(out)[i] == id;
        assert Ids(out[1..])[i - 1] == id;
      }
      1 + FirstIndex(out[1..], id)
  }

  /**
   * One lexical hit at `rank`: an unseen id is recorded and appended with
   * (1 - alpha) / (rank + k); a seen id is not appended, its score and its first
   * output hit's relevance become the stored score plus that term.
   */
  function LexicalStep(st: FusionState, hit: Hit, rank: nat, k: nat, alpha: real): (next: FusionState)
    requires rank >= 1
    requires Tracked(st)
    ensures Tracked(next)
    ensures hit.id in st.scores ==> Ids(next.out) == Ids(st.out)
    ensures hit.id !in st.scores ==> Ids(next.out) == Ids(st.out) + [hit.id]
  {
    var reciprocalRank := Weighted(1.0 - alpha, rank, k);
    if hit.id !in st.scores then
      var next := FusionState(st.scores[hit.id := reciprocalRank], st.out + [Hit(hit.id, reciprocalRank)]);
      assert Ids(next.out) == Ids(st.out) + [hit.id];
      next
    else
      var newScore := st.scores[hit.id] + reciprocalRank;
      var p := FirstIndex(st.out, hit.id);
      var next := FusionState(st.scores[hit.id := newScore], st.out[p := Hit(hit.id, newScore)]);
      assert Ids(next.out) == Ids(st.out);
      next
  }

  /** The lexical loop over `hits` (ranks 1..|hits|), starting from `st`. */
  function LexicalPass(st: FusionState, hits: seq<Hit>, k: nat, alpha: real): (r: FusionState)
    requires Tracked(st)
    ensures Tracked(r)
  {
    if hits == [] then st
    else
      var n := |hits|;
      LexicalStep(LexicalPass(st, hits[..n - 1], k, alpha), hits[n - 1], n, k, alpha)
  }

  /**
   * The lexical loop never moves or drops a hit already in the output, appends at
   * most one hit per lexical hit, and each appended hit's id is a lexical id that
   * was not scored before and occurs nowhere else in the output.
   */
  lemma {:induction false} LexicalPassAppendsUnseen(st: FusionState, hits: seq<Hit>, k: nat, alpha: real)
    requires Tracked(st)
    ensures AppendsUnseen(st, hits, LexicalPass(st, hits, k, alpha))
  {
    if hits != [] {
      LexicalPassAppendsUnseen(st, hits[..|hits| - 1], k, alpha);
      AppendsUnseenStep(st, hits, k, alpha);
    }
  }

  /** What `LexicalPassAppendsUnseen` states of the loop over `hits` from `st`, ending in `r`. */
  ghost predicate AppendsUnseen(st: FusionState, hits: seq<Hit>, r: FusionState)
  {
    && |st.out| <= |r.out| <= |st.out| + |hits|
    && Ids(r.out)[..|st.out|] == Ids(st.out)
    && (forall i :: |st.out| <= i < |r.out| ==> r.out[i].id in Ids(hits) && r.out[i].id !in st.scores)
    && (forall i, j :: |st.out| <= i < |r.out| && 0 <= j < |r.out| && i != j ==> r.out[i].id != r.out[j].id)
  }

  /** The step of `LexicalPassAppendsUnseen`: from all hits but the last to all of them. */
  lemma AppendsUnseenStep(st: FusionState, hits: seq<Hit>, k: nat, alpha: real)
    requires Tracked(st) && hits != []
    requires AppendsUnseen(st, hits[..|hits| - 1], LexicalPass(st, hits[..|hits| - 1], k, alpha))
    ensures AppendsUnseen(st, hits, LexicalPass(st, hits, k, alpha))
  {
    var n := |hits|;
    var mid := LexicalPass(st, hits[..n - 1], k, alpha);
    var r := LexicalStep(mid, hits[n - 1], n, k, alpha);
    assert r == LexicalPass(st, hits, k, alpha);
    PrefixIdsIncluded(hits);
    if hits[n - 1].id in mid.scores {
      KeptIdsAppendUnseen(st, hits, mid, r);
    } else {
      AppendedIdAppendsUnseen(st, hits, mid, r);
    }
  }

  /** A lexical hit whose id was seen leaves the ids as they were. */
  lemma KeptIdsAppendUnseen(st: FusionState, hits: seq<Hit>, mid: FusionState, r: FusionState)
    requires hits != []
    requires AppendsUnseen(st, hits[..|hits| - 1], mid)
    requires forall id :: id in Ids(hits[..|hits| - 1]) ==> id in Ids(hits)
    requires Ids(r.out) == Ids(mid.out)
    ensures AppendsUnseen(st, hits, r)
  {
    assert |r.out| == |Ids(r.out)| == |mid.out|;
    forall i | |st.out| <= i < |r.out| ensures r.out[i].id == mid.out[i].id {
      assert Ids(r.out)[i] == Ids(mid.out)[i];
    }
    SameIdsAppendedUnique(st, mid, r);
  }

  /** A lexical hit whose id was unseen appends that id, a lexical id absent from the output. */
  lemma AppendedIdAppendsUnseen(st: FusionState, hits: seq<Hit>, mid: FusionState, r: FusionState)
    requires hits != [] && Tracked(st)
    requires AppendsUnseen(st, hits[..|hits| - 1], mid)
    requires forall id :: id in Ids(hits[..|hits| - 1]) ==> id in Ids(hits)
    requires hits[|hits| - 1].id in Ids(hits) && hits[|hits| - 1].id !in Ids(mid.out)
    requires Ids(r.out) == Ids(mid.out) + [hits[|hits| - 1].id]
    ensures AppendsUnseen(st, hits, r)
  {
    var id := hits[|hits| - 1].id;
    var m := |mid.out|;
    assert |r.out| == |Ids(r.out)| == m + 1;
    assert Ids(r.out)[..m] == Ids(mid.out);
    assert Ids(r.out)[..|st.out|] == Ids(mid.out)[..|st.out|];
    forall i | |st.out| <= i < m ensures r.out[i].id == mid.out[i].id {
      assert Ids(r.out)[i] == Ids(mid.out)[i];
    }
    assert r.out[m].id == Ids(r.out)[m] == id;
    forall j | 0 <= j < |st.out| ensures Ids(st.out)[j] != id {
      assert Ids(st.out)[j] == Ids(mid.out)[j];
    }
    assert id !in Ids(st.out);
    AppendedUnique(st, mid, r, id);
  }

  /** Every id of all but the last hit is an id of `hits`, and so is the last one's. */
  lemma PrefixIdsIncluded(hits: seq<Hit>)
    requires hits != []
    ensures forall id :: id in Ids(hits[..|hits| - 1]) ==> id in Ids(hits)
    ensures hits[|hits| - 1].id in Ids(hits)
  {
    var n := |hits|;
    forall id | id in Ids(hits[..n - 1]) ensures id in Ids(hits) {
      var i :| 0 <= i < n - 1 && Ids(hits[..n - 1])[i] == id;
      assert Ids(hits)[i] == id;
    }
    assert Ids(hits)[n - 1] == hits[n - 1].id;
  }

  /** A step that re-scores in place keeps the ids, so the appended ids stay unique. */
  lemma SameIdsAppendedUnique(st: FusionState, mid: FusionState, r: FusionState)
    requires |st.out| <= |mid.out|
    requires Ids(r.out) == Ids(mid.out)
    requires forall i, j :: |st.out| <= i < |mid.out| && 0 <= j < |mid.out| && i != j ==> mid.out[i].id != mid.out[j].id
    ensures forall i, j :: |st.out| <= i < |r.out| && 0 <= j < |r.out| && i != j ==> r.out[i].id != r.out[j].id
  {
    forall i, j | |st.out| <= i < |r.out| && 0 <= j < |r.out| && i != j ensures r.out[i].id != r.out[j].id {
      assert Ids(r.out)[i] == Ids(mid.out)[i] && Ids(r.out)[j] == Ids(mid.out)[j];
    }
  }

  /** A step that appends an id absent from the output keeps the appended ids unique. */
  lemma AppendedUnique(st: FusionState, mid: FusionState, r: FusionState, id: Id)
    requires |st.out| <= |mid.out|
    requires Ids(r.out) == Ids(mid.out) + [id]
    requires id !in Ids(mid.out)
    requires forall i, j :: |st.out| <= i < |mid.out| && 0 <= j < |mid.out| && i != j ==> mid.out[i].id != mid.out[j].id
    ensures forall i, j :: |st.out| <= i < |r.out| && 0 <= j < |r.out| && i != j ==> r.out[i].id != r.out[j].id
  {
    var m := |mid.out|;
    forall i, j | |st.out| <= i < |r.out| && 0 <= j < |r.out| && i != j ensures r.out[i].id != r.out[j].id {
      assert r.out[i].id == Ids(r.out)[i] && r.out[j].id == Ids(r.out)[j];
      if i < m && j < m {
        assert Ids(r.out)[i] == Ids(mid.out)[i] && Ids(r.out)[j] == Ids(mid.out)[j];
      } else if i < m {
        assert Ids(r.out)[i] == Ids(mid.out)[i];
      } else if j < m {
        assert Ids(r.out)[j] == Ids(mid.out)[j];
      }
    }
  }

  /** Both loops of `rrf`, each run only when alpha lets it: the unsorted fused output. */
  function Fused(hitsTensor: seq<Hit>, hitsLexical: seq<Hit>, k: nat, alpha: real): FusionState
  {
    var afterTensor := if alpha > 0.0 then TensorPass(hitsTensor, k, alpha) else Start;
    if alpha < 1.0 then LexicalPass(afterTensor, hitsLexical, k, alpha) else afterTensor
  }

  /** What `rrf` returns: the fused hits sorted by relevance and cut to max(|tensor|, |lexical|). */
  function RrfResult(hitsTensor: seq<Hit>, hitsLexical: seq<Hit>, k: nat, alpha: real): seq<Hit>
  {
    var sorted := SortByRelevance(Fused(hitsTensor, hitsLexical, k, alpha).out);
    sorted[..Min(Max(|hitsTensor|, |hitsLexical|), |sorted|)]
  }

  /** `HybridSearcher.rrf` (ai.marqo.search). */
  method Rrf(hitsTensor: seq<Hit>, hitsLexical: seq<Hit>, k: nat, alpha: real) returns (result: HitGroup)
    ensures fresh(result)
    ensures result.hits == RrfResult(hitsTensor, hitsLexical, k, alpha)
  {
    var rrfScores: map<Id, real> := map[];
    result := new HitGroup();
    if alpha > 0.0 {
      rrfScores := AddTensorHits(result, hitsTensor, k, alpha);
    }
    if alpha < 1.0 {
      rrfScores := AddLexicalHits(result, rrfScores, hitsLexical, k, alpha);
    }
    assert result.hits == Fused(hitsTensor, hitsLexical, k, alpha).out;
    result.Sort();
    var finalLength := Max(|hitsTensor|, |hitsLexical|);
    result.Trim(0, finalLength);
  }

  /** The tensor loop of `rrf`, run on an empty `result`. */
  method AddTensorHits(result: HitGroup, hitsTensor: seq<Hit>, k: nat, alpha: real) returns (rrfScores: map<Id, real>)
    requires result.hits == []
    modifies result
    ensures FusionState(rrfScores, result.hits) == TensorPass(hitsTensor, k, alpha)
  {
    rrfScores := map[];
    var rank := 1;
    assert hitsTensor[..0] == [];
    while rank <= |hitsTensor|
      invariant 1 <= rank <= |hitsTensor| + 1
      invariant FusionState(rrfScores, result.hits) == TensorPass(hitsTensor[..rank - 1], k, alpha)
    {
      var hit := hitsTensor[rank - 1];
      var reciprocalRank := alpha * (1.0 / (rank + k) as real);
      TensorPassPrefix(hitsTensor, rank, k, alpha);
      rrfScores := rrfScores[hit.id := reciprocalRank];
      result.Add(Hit(hit.id, reciprocalRank));
      rank := rank + 1;
    }
    assert hitsTensor[..|hitsTensor|] == hitsTensor;
  }

  /** The lexical loop of `rrf`, continuing from the scores and hits of the tensor loop. */
  method AddLexicalHits(result: HitGroup, scores: map<Id, real>, hitsLexical: seq<Hit>, k: nat, alpha: real)
    returns (rrfScores: map<Id, real>)
    requires Tracked(FusionState(scores, result.hits))
    modifies result
    ensures FusionState(rrfScores, result.hits) == LexicalPass(FusionState(scores, old(result.hits)), hitsLexical, k, alpha)
  {
    ghost var start := FusionState(scores, result.hits);
    rrfScores := scores;
    var rank := 1;
    assert hitsLexical[..0] == [];
    while rank <= |hitsLexical|
      invariant 1 <= rank <= |hitsLexical| + 1
      invariant FusionState(rrfScores, result.hits) == LexicalPass(start, hitsLexical[..rank - 1], k, alpha)
    {
      assert hitsLexical[..rank][..rank - 1] == hitsLexical[..rank - 1];
      rrfScores := AddLexicalHit(result, rrfScores, hitsLexical[rank - 1], rank, k, alpha);
      rank := rank + 1;
    }
    assert hitsLexical[..|hitsLexical|] == hitsLexical;
  }

  /** One iteration of the lexical loop of `rrf`: the hit at `rank`. */
  method AddLexicalHit(result: HitGroup, scores: map<Id, real>, hit: Hit, rank: nat, k: nat, alpha: real)
    returns (rrfScores: map<Id, real>)
    requires rank >= 1
    requires Tracked(FusionState(scores, result.hits))
    modifies result
    ensures FusionState(rrfScores, result.hits) == LexicalStep(FusionState(scores, old(result.hits)), hit, rank, k, alpha)
  {
    var reciprocalRank := (1.0 - alpha) * (1.0 / (rank + k) as real);
    if hit.id !in scores {
      rrfScores := scores[hit.id := reciprocalRank];
      result.Add(Hit(hit.id, reciprocalRank));
    } else {
      var newScore := scores[hit.id] + reciprocalRank;
      rrfScores := scores[hit.id := newScore];
      var pos := result.Get(hit.id);
      assert pos.value == FirstIndex(result.hits, hit.id);
      result.SetRelevance(pos.value, newScore);
    }
  }
}
