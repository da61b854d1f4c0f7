/**
 * `search` of the earlier `com.yahoo.search.example` hybrid searcher: only the
 * "disjunction" retrieval with "rrf" ranking produces hits; every other combination
 * returns an empty hit group. Its two sub-queries only get their YQL and rank
 * profile from the query's properties.
 */
module ExampleSearcher {
  import opened Wrappers
  import opened Hits
  import opened Queries
  import opened MarqoSearcher
  import opened ExampleFusion

  /** The clone of `q` with `yql` set from "yql.<kind>" and the profile from "ranking.<kind>". */
  function PlainSubQuery(q: QueryValue, kind: string): QueryValue
  {
    q.(properties := q.properties["yql" := PStr(GetString(q.properties, "yql." + kind, ""))],
       profile := GetString(q.properties, "ranking." + kind, ""))
  }

  /** What this `search` returns for a query, or the error it raises. */
  function ExampleSearchResult(q: QueryValue, backend: Backend): (r: Result<seq<Hit>, SearchError>)
    ensures r.Ok? && r.value != [] ==> Retrieval(q) == "disjunction" && Ranking(q) == "rrf"
    ensures Retrieval(q) != "disjunction" ==> r == Ok([])
    ensures r.Err? ==> Retrieval(q) == "disjunction"
  {
    if Retrieval(q) != "disjunction" then Ok([])
    else
      var lexical :- Execute(backend, PlainSubQuery(q, "lexical"));
      var tensor :- Execute(backend, PlainSubQuery(q, "tensor"));
      if Ranking(q) != "rrf" then Ok([])
      else if RrfK(q) < 0 then Err(NegativeRrfK(RrfK(q)))
      else Ok(VariantRrfResult(tensor, lexical, RrfK(q), Alpha(q)))
  }

  /**
   * A successful disjunction/rrf search returns the variant fusion of the tensor and
   * lexical results: max(|tensor|, |lexical|) hits, descending.
   */
  lemma ExampleSearchFuses(q: QueryValue, backend: Backend)
    requires Retrieval(q) == "disjunction" && Ranking(q) == "rrf"
    requires ExampleSearchResult(q, backend).Ok?
    ensures var lexical := backend(PlainSubQuery(q, "lexical"));
      var tensor := backend(PlainSubQuery(q, "tensor"));
      var r := ExampleSearchResult(q, backend).value;
      && lexical.Ok? && tensor.Ok? && RrfK(q) >= 0
      && r == VariantRrfResult(tensor.value, lexical.value, RrfK(q), Alpha(q))
      && Descending(r)
      && |r| == Max(|tensor.value|, |lexical.value|)
  {
    var lexical := backend(PlainSubQuery(q, "lexical")).value;
    var tensor := backend(PlainSubQuery(q, "tensor")).value;
    VariantRrfShape(tensor, lexical, RrfK(q), Alpha(q));
  }

  /** `search(query, execution)` of the example searcher. */
  method Search(query: Query, backend: Backend) returns (r: Result<seq<Hit>, SearchError>)
    ensures r == ExampleSearchResult(query.Value(), backend)
  {
    var retrievalMethod := GetString(query.properties, "hybrid.retrievalMethod", "");
    var rankingMethod := GetString(query.properties, "hybrid.rankingMethod", "");
    var yqlLexical := GetString(query.properties, "yql.lexical", "");
    var yqlTensor := GetString(query.properties, "yql.tensor", "");
    var rankProfileLexical := GetString(query.properties, "ranking.lexical", "");
    var rankProfileTensor := GetString(query.properties, "ranking.tensor", "");
    var rrfK := GetInteger(query.properties, "hybrid.rrf_k", 60);
    var alpha := GetDouble(query.properties, "hybrid.alpha", 0.5);

    if retrievalMethod == "disjunction" {
      var queryLexical := query.Clone();
      queryLexical.SetProperty("yql", PStr(yqlLexical));
      queryLexical.SetProfile(rankProfileLexical);
      var queryTensor := query.Clone();
      queryTensor.SetProperty("yql", PStr(yqlTensor));
      queryTensor.SetProfile(rankProfileTensor);
      assert "yql." + "lexical" == "yql.lexical" && "ranking." + "lexical" == "ranking.lexical";
      assert "yql." + "tensor" == "yql.tensor" && "ranking." + "tensor" == "ranking.tensor";
      assert queryLexical.Value() == PlainSubQuery(query.Value(), "lexical");
      assert queryTensor.Value() == PlainSubQuery(query.Value(), "tensor");

      var resultLexical := Execute(backend, queryLexical.Value());
      if resultLexical.Err? {
        return Err(resultLexical.error);
      }
      var resultTensor := Execute(backend, queryTensor.Value());
      if resultTensor.Err? {
        return Err(resultTensor.error);
      }
      if rankingMethod == "rrf" {
        if rrfK < 0 {
          return Err(NegativeRrfK(rrfK));
        }
        var fused := VariantRrf(resultTensor.value, resultLexical.value, rrfK, alpha);
        return Ok(fused.hits);
      }
    }
    return Ok([]);
  }
}
