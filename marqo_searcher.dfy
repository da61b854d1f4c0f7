/**
 * `search` of the ai.marqo hybrid searcher: it reads the retrieval and ranking
 * methods from the query, and either fuses a lexical and a tensor sub-search with
 * RRF ("disjunction" retrieval) or runs one derived query ("lexical"/"tensor").
 * The search backend is a parameter: a function from a query to its hits or the
 * failure it raised.
 */
module MarqoSearcher {
  import opened Wrappers
  import opened Hits
  import opened Queries
  import opened SubQueries
  import Fusion
  import FusionProperties

  /** Runs a query downstream: the hits, or the message of the failure. */
  type Backend = QueryValue -> Result<seq<Hit>, string>

  /** The retrieval and ranking methods `search` accepts besides "disjunction"/"rrf". */
  const StandardSearchTypes: seq<string> := ["lexical", "tensor"]

  function Retrieval(q: QueryValue): string
  {
    GetString(q.properties, "hybrid.retrievalMethod", "")
  }

  function Ranking(q: QueryValue): string
  {
    GetString(q.properties, "hybrid.rankingMethod", "")
  }

  function RrfK(q: QueryValue): int
  {
    GetInteger(q.properties, "hybrid.rrf_k", 60)
  }

  function Alpha(q: QueryValue): real
  {
    GetDouble(q.properties, "hybrid.alpha", 0.5)
  }

  /** A backend call, its failure turned into the searcher's error. */
  function Execute(backend: Backend, q: QueryValue): Result<seq<Hit>, SearchError>
  {
    match backend(q)
    case Ok(hits) => Ok(hits)
    case Err(message) => Err(BackendFailure(message))
  }

  /**
   * The "disjunction" branch: both sub-queries are derived (lexical first), both
   * searches complete (lexical first), and only then is the ranking method checked.
   */
  function Disjunction(q: QueryValue, backend: Backend): Result<seq<Hit>, SearchError>
  {
    var lexicalQuery :- SubQuery(q, "lexical", "lexical");
    var tensorQuery :- SubQuery(q, "tensor", "tensor");
    var lexical :- Execute(backend, lexicalQuery);
    var tensor :- Execute(backend, tensorQuery);
    if Ranking(q) != "rrf" then Err(RankingNotRrf)
    else if RrfK(q) < 0 then Err(NegativeRrfK(RrfK(q)))
    else Ok(Fusion.RrfResult(tensor, lexical, RrfK(q), Alpha(q)))
  }

  /** The "lexical"/"tensor" branch: one derived query, searched twice, the second result returned. */
  function Standard(q: QueryValue, backend: Backend): Result<seq<Hit>, SearchError>
  {
    var combined :- SubQuery(q, Retrieval(q), Ranking(q));
    var _ :- Execute(backend, combined);
    Execute(backend, combined)
  }

  /** What `search` returns for a query, or the error it raises. */
  function SearchResult(q: QueryValue, backend: Backend): (r: Result<seq<Hit>, SearchError>)
    ensures Retrieval(q) !in ["disjunction", "lexical", "tensor"] ==> r == Err(RetrievalUnknown)
    ensures Retrieval(q) in StandardSearchTypes && Ranking(q) !in StandardSearchTypes ==> r == Err(RankingNotStandard)
    ensures r.Ok? && Retrieval(q) == "disjunction" ==> Ranking(q) == "rrf"
    ensures r.Ok? ==> Retrieval(q) in ["disjunction", "lexical", "tensor"]
  {
    if Retrieval(q) == "disjunction" then Disjunction(q, backend)
    else if Retrieval(q) in StandardSearchTypes then
      if Ranking(q) in StandardSearchTypes then Standard(q, backend) else Err(RankingNotStandard)
    else Err(RetrievalUnknown)
  }

  /**
   * A disjunction search that succeeds returns the RRF fusion of the tensor and lexical
   * results of its two sub-queries: descending, at most as long as the longer list.
   */
  lemma DisjunctionFuses(q: QueryValue, backend: Backend)
    requires Retrieval(q) == "disjunction"
    requires SearchResult(q, backend).Ok?
    ensures SubQuery(q, "lexical", "lexical").Ok? && SubQuery(q, "tensor", "tensor").Ok?
    ensures var lexical := backend(SubQuery(q, "lexical", "lexical").value);
      var tensor := backend(SubQuery(q, "tensor", "tensor").value);
      var r := SearchResult(q, backend).value;
      && lexical.Ok? && tensor.Ok? && RrfK(q) >= 0
      && r == Fusion.RrfResult(tensor.value, lexical.value, RrfK(q), Alpha(q))
      && Descending(r)
      && |r| <= Max(|tensor.value|, |lexical.value|)
  {
    var lexical := backend(SubQuery(q, "lexical", "lexical").value).value;
    var tensor := backend(SubQuery(q, "tensor", "tensor").value).value;
    FusionProperties.RrfResultTopHits(tensor, lexical, RrfK(q), Alpha(q));
  }

  /**
   * With alpha strictly between 0 and 1 and no duplicate ids in either result, a
   * disjunction search returns every id of either result once.
   */
  lemma DisjunctionKeepsAll(q: QueryValue, backend: Backend)
    requires Retrieval(q) == "disjunction"
    requires SearchResult(q, backend).Ok?
    requires 0.0 < Alpha(q) < 1.0
    requires DistinctIds(backend(SubQuery(q, "lexical", "lexical").value).value)
    requires DistinctIds(backend(SubQuery(q, "tensor", "tensor").value).value)
    ensures var lexical := backend(SubQuery(q, "lexical", "lexical").value).value;
      var tensor := backend(SubQuery(q, "tensor", "tensor").value).value;
      var r := SearchResult(q, backend).value;
      DistinctIds(r) && |r| == Max(|tensor|, |lexical|)
  {
    DisjunctionFuses(q, backend);
    var lexical := backend(SubQuery(q, "lexical", "lexical").value).value;
    var tensor := backend(SubQuery(q, "tensor", "tensor").value).value;
    FusionProperties.RrfBlendedScores(tensor, lexical, RrfK(q), Alpha(q));
  }

  /**
   * The ranking method of a disjunction search is checked last: with a ranking other
   * than "rrf" the search fails with the first sub-query or backend failure, if any,
   * and with `RankingNotRrf` only when both sub-searches succeeded.
   */
  lemma DisjunctionRankingCheckedLast(q: QueryValue, backend: Backend)
    requires Retrieval(q) == "disjunction"
    requires Ranking(q) != "rrf"
    ensures SearchResult(q, backend).Err?
    ensures SearchResult(q, backend) == Err(RankingNotRrf) <==>
      && SubQuery(q, "lexical", "lexical").Ok?
      && SubQuery(q, "tensor", "tensor").Ok?
      && backend(SubQuery(q, "lexical", "lexical").value).Ok?
      && backend(SubQuery(q, "tensor", "tensor").value).Ok?
  {
  }

  /** A successful "lexical"/"tensor" search returns what the backend returns for the derived query. */
  lemma StandardPassesThrough(q: QueryValue, backend: Backend)
    requires Retrieval(q) in StandardSearchTypes
    requires SearchResult(q, backend).Ok?
    ensures Ranking(q) in StandardSearchTypes
    ensures SubQuery(q, Retrieval(q), Ranking(q)).Ok?
    ensures backend(SubQuery(q, Retrieval(q), Ranking(q)).value) == Ok(SearchResult(q, backend).value)
  {
  }

  /** The "disjunction" branch of `search`, given the methods and parameters it read. */
  method SearchDisjunction(query: Query, backend: Backend, rankingMethod: string, rrfK: int, alpha: real)
    returns (r: Result<seq<Hit>, SearchError>)
    requires rankingMethod == Ranking(query.Value())
    requires rrfK == RrfK(query.Value()) && alpha == Alpha(query.Value())
    ensures r == Disjunction(query.Value(), backend)
  {
    var queryLexical := CreateSubQuery(query, "lexical", "lexical");
    if queryLexical.Err? {
      return Err(queryLexical.error);
    }
    var queryTensor := CreateSubQuery(query, "tensor", "tensor");
    if queryTensor.Err? {
      return Err(queryTensor.error);
    }
    var resultLexical := backend(queryLexical.value.Value());
    if resultLexical.Err? {
      return Err(BackendFailure(resultLexical.error));
    }
    var resultTensor := backend(queryTensor.value.Value());
    if resultTensor.Err? {
      return Err(BackendFailure(resultTensor.error));
    }
    if rankingMethod == "rrf" {
      if rrfK < 0 {
        return Err(NegativeRrfK(rrfK));
      }
      var fused := Fusion.Rrf(resultTensor.value, resultLexical.value, rrfK, alpha);
      return Ok(fused.hits);
    } else {
      return Err(RankingNotRrf);
    }
  }

  /** The "lexical"/"tensor" branch of `search`: the derived query is executed twice. */
  method SearchStandard(query: Query, backend: Backend, retrievalMethod: string, rankingMethod: string)
    returns (r: Result<seq<Hit>, SearchError>)
    requires retrievalMethod == Retrieval(query.Value()) && rankingMethod == Ranking(query.Value())
    ensures r == Standard(query.Value(), backend)
  {
    var combinedQuery := CreateSubQuery(query, retrievalMethod, rankingMethod);
    if combinedQuery.Err? {
      return Err(combinedQuery.error);
    }
    var result := Execute(backend, combinedQuery.value.Value());
    if result.Err? {
      return Err(result.error);
    }
    r := Execute(backend, combinedQuery.value.Value());
  }

  /** The searcher component; `standardSearchTypes` is the list `search` appends to on every call. */
  class HybridSearcher {
    var standardSearchTypes: seq<string>

    /** The list only ever holds the two standard method names. */
    ghost predicate Valid()
      reads this
    {
      forall i :: 0 <= i < |standardSearchTypes| ==> standardSearchTypes[i] in StandardSearchTypes
    }

    constructor ()
      ensures Valid()
      ensures standardSearchTypes == []
    {
      standardSearchTypes := [];
    }

    /** `search(query, execution)`. */
    method Search(query: Query, backend: Backend) returns (r: Result<seq<Hit>, SearchError>)
      requires Valid()
      modifies this
      ensures Valid()
      ensures standardSearchTypes == old(standardSearchTypes) + StandardSearchTypes
      ensures r == SearchResult(query.Value(), backend)
    {
      standardSearchTypes := standardSearchTypes + ["lexical"];
      standardSearchTypes := standardSearchTypes + ["tensor"];
      assert forall m :: m in standardSearchTypes <==> m in StandardSearchTypes;

      var retrievalMethod := GetString(query.properties, "hybrid.retrievalMethod", "");
      var rankingMethod := GetString(query.properties, "hybrid.rankingMethod", "");
      var rrfK := GetInteger(query.properties, "hybrid.rrf_k", 60);
      var alpha := GetDouble(query.properties, "hybrid.alpha", 0.5);

      if retrievalMethod == "disjunction" {
        r := SearchDisjunction(query, backend, rankingMethod, rrfK, alpha);
      } else if retrievalMethod in standardSearchTypes {
        if rankingMethod in standardSearchTypes {
          r := SearchStandard(query, backend, retrievalMethod, rankingMethod);
        } else {
          return Err(RankingNotStandard);
        }
      } else {
        return Err(RetrievalUnknown);
      }
    }
  }
}
