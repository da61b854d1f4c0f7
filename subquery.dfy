/**
 * How the ai.marqo hybrid searcher derives a lexical or tensor sub-query from the
 * incoming query: the YQL is chosen by the retrieval method, the fields to search
 * are copied out of a tensor feature into one `query(<field>)` feature per label,
 * and the rank profile and score-modifier weights are chosen by the ranking method.
 */
module SubQueries {
  import opened Wrappers
  import opened Queries

  const FieldsToSearch := "marqo__fields_to_search"
  const AddWeights := "marqo__add_weights"
  const MultWeights := "marqo__mult_weights"

  /** `addQueryWrapper`: the rank-feature name `query(s)`; `Unwrap` takes it apart again. */
  function AddQueryWrapper(s: string): (r: string)
    ensures Unwrap(r) == Some(s)
  {
    var r := "query(" + s + ")";
    assert r[..6] == "query(" && r[6..|r| - 1] == s;
    r
  }

  /** The `s` of a rank-feature name `query(s)`, or None for any other name. */
  function Unwrap(name: string): Option<string>
  {
    if |name| >= 7 && name[..6] == "query(" && name[|name| - 1] == ')' then Some(name[6..|name| - 1]) else None
  }

  /** Every name `Unwrap` accepts is a wrapped name, so the wrapper is a bijection onto those names. */
  lemma UnwrapWrapped(name: string)
    requires Unwrap(name).Some?
    ensures AddQueryWrapper(Unwrap(name).value) == name
  {
    assert name == name[..6] + name[6..|name| - 1] + [name[|name| - 1]];
  }

  /** The features after `query(l)` has been set to `value` for each label `l`, in order. */
  function InjectLabels(features: map<string, Feature>, labels: seq<string>, value: real): map<string, Feature>
  {
    if labels == [] then features
    else InjectLabels(features, labels[..|labels| - 1], value)[AddQueryWrapper(labels[|labels| - 1]) := ScalarFeature(value)]
  }

  /** The features after the labels of each cell have been injected, cell by cell. */
  function InjectCells(features: map<string, Feature>, cells: seq<Cell>): map<string, Feature>
  {
    if cells == [] then features
    else
      var last := cells[|cells| - 1];
      InjectLabels(InjectCells(features, cells[..|cells| - 1]), last.labels, last.value)
  }

  /** The value of the last cell whose address has label `l`, if any cell has it. */
  function LastValue(cells: seq<Cell>, l: string): (r: Option<real>)
    ensures r.None? <==> forall i :: 0 <= i < |cells| ==> l !in cells[i].labels
    ensures r.Some? ==> exists i :: (0 <= i < |cells| && l in cells[i].labels && cells[i].value == r.value &&
      forall j :: i < j < |cells| ==> l !in cells[j].labels)
  {
    if cells == [] then None
    else if l in cells[|cells| - 1].labels then Some(cells[|cells| - 1].value)
    else
      var r := LastValue(cells[..|cells| - 1], l);
      assert forall i :: 0 <= i < |cells| - 1 ==> cells[..|cells| - 1][i] == cells[i];
      r
  }

  /** After injecting labels, `query(l)` holds `value` for each label `l`; every other feature is as before. */
  lemma {:induction false} InjectLabelsAt(features: map<string, Feature>, labels: seq<string>, value: real, name: string)
    ensures Lookup(InjectLabels(features, labels, value), name) ==
      if Unwrap(name).Some? && Unwrap(name).value in labels then Some(ScalarFeature(value)) else Lookup(features, name)
  {
    if labels != [] {
      var prefix, last := labels[..|labels| - 1], labels[|labels| - 1];
      assert labels == prefix + [last];
      InjectLabelsAt(features, prefix, value, name);
      if Unwrap(name).Some? {
        UnwrapWrapped(name);
      }
    }
  }

  /** After injecting cells, `query(l)` holds the value of the last cell labelled `l`; other features are as before. */
  lemma {:induction false} InjectCellsAt(features: map<string, Feature>, cells: seq<Cell>, name: string)
    ensures Lookup(InjectCells(features, cells), name) ==
      if Unwrap(name).Some? && LastValue(cells, Unwrap(name).value).Some?
      then Some(ScalarFeature(LastValue(cells, Unwrap(name).value).value))
      else Lookup(features, name)
  {
    if cells != [] {
      var last := cells[|cells| - 1];
      InjectCellsAt(features, cells[..|cells| - 1], name);
      InjectLabelsAt(InjectCells(features, cells[..|cells| - 1]), last.labels, last.value, name);
    }
  }

  /** Whether the sub-query for `ranking` uses the score-modifier rank profile and weights. */
  function ScoreModifiersPresent(q: QueryValue, ranking: string): bool
  {
    GetBoolean(q.properties, "hybrid." + ranking + "ScoreModifiersPresent", false)
  }

  /** The tensor feature that lists the fields to search for `retrieval`. */
  function FieldsFeature(retrieval: string): string
  {
    AddQueryWrapper(FieldsToSearch + "_" + retrieval)
  }

  /**
   * `createSubQuery(query, retrieval, ranking)`: the derived query, or the missing
   * tensor feature that made it fail. The weights are read from the original query.
   */
  function SubQuery(q: QueryValue, retrieval: string, ranking: string): (r: Result<QueryValue, SearchError>)
    ensures r.Err? <==> (GetTensor(q.features, FieldsFeature(retrieval)).None? ||
      (ScoreModifiersPresent(q, ranking) &&
        (GetTensor(q.features, AddQueryWrapper(AddWeights + "_" + ranking)).None? ||
         GetTensor(q.features, AddQueryWrapper(MultWeights + "_" + ranking)).None?)))
    ensures r.Ok? ==> r.value.properties == q.properties["yql" := PStr(GetString(q.properties, "yql." + retrieval, ""))]
    ensures r.Ok? ==>
      r.value.profile == if ScoreModifiersPresent(q, ranking)
        then GetString(q.properties, "ranking." + ranking + "ScoreModifiers", "")
        else GetString(q.properties, "ranking." + ranking, "")
    ensures r.Err? ==> r.error.FeatureNotFound?
  {
    var props := q.properties["yql" := PStr(GetString(q.properties, "yql." + retrieval, ""))];
    match GetTensor(q.features, FieldsFeature(retrieval))
    case None => Err(FeatureNotFound(FieldsFeature(retrieval)))
    case Some(cells) =>
      var features := InjectCells(q.features, cells);
      if ScoreModifiersPresent(q, ranking) then
        var addName := AddQueryWrapper(AddWeights + "_" + ranking);
        var multName := AddQueryWrapper(MultWeights + "_" + ranking);
        match (GetTensor(q.features, addName), GetTensor(q.features, multName))
        case (None, _) => Err(FeatureNotFound(addName))
        case (_, None) => Err(FeatureNotFound(multName))
        case (Some(add), Some(mult)) =>
          var weighted := features[AddQueryWrapper(AddWeights) := TensorFeature(add)][AddQueryWrapper(MultWeights) := TensorFeature(mult)];
          Ok(QueryValue(props, weighted, GetString(q.properties, "ranking." + ranking + "ScoreModifiers", "")))
      else
        Ok(QueryValue(props, features, GetString(q.properties, "ranking." + ranking, "")))
  }

  /**
   * The features of a derived query, name by name: the unsuffixed weights when score
   * modifiers are present, then one feature per field label, then the original features.
   */
  lemma SubQueryFeatures(q: QueryValue, retrieval: string, ranking: string, name: string)
    requires SubQuery(q, retrieval, ranking).Ok?
    ensures var cells := GetTensor(q.features, FieldsFeature(retrieval)).value;
      Lookup(SubQuery(q, retrieval, ranking).value.features, name) ==
      if ScoreModifiersPresent(q, ranking) && name == AddQueryWrapper(AddWeights)
      then Some(TensorFeature(GetTensor(q.features, AddQueryWrapper(AddWeights + "_" + ranking)).value))
      else if ScoreModifiersPresent(q, ranking) && name == AddQueryWrapper(MultWeights)
      then Some(TensorFeature(GetTensor(q.features, AddQueryWrapper(MultWeights + "_" + ranking)).value))
      else if Unwrap(name).Some? && LastValue(cells, Unwrap(name).value).Some?
      then Some(ScalarFeature(LastValue(cells, Unwrap(name).value).value))
      else Lookup(q.features, name)
  {
    var cells := GetTensor(q.features, FieldsFeature(retrieval)).value;
    InjectCellsAt(q.features, cells, name);
  }

  /** The derived query as a value, for an outcome that holds a query object. */
  function Outcome(r: Result<Query, SearchError>): Result<QueryValue, SearchError>
    reads if r.Ok? then {r.value} else {}
  {
    match r
    case Ok(q) => Ok(q.Value())
    case Err(e) => Err(e)
  }

  /** `addFieldToRankFeatures`: sets `query(l)` to the cell's value for each label of its address. */
  method AddFieldToRankFeatures(cell: Cell, query: Query)
    modifies query
    ensures query.Value() == old(query.Value()).(features := InjectLabels(old(query.features), cell.labels, cell.value))
  {
    var i := 0;
    while i < |cell.labels|
      invariant 0 <= i <= |cell.labels|
      invariant query.Value() == old(query.Value()).(features := InjectLabels(old(query.features), cell.labels[..i], cell.value))
    {
      assert cell.labels[..i + 1][..i] == cell.labels[..i];
      query.PutFeature(AddQueryWrapper(cell.labels[i]), ScalarFeature(cell.value));
      i := i + 1;
    }
    assert cell.labels[..i] == cell.labels;
  }

  /** `extractTensorRankFeature`: the tensor feature `name`, failing when the query has none. */
  method ExtractTensorRankFeature(query: Query, name: string) returns (r: Result<seq<Cell>, SearchError>)
    ensures r.Ok? <==> name in query.features && query.features[name].TensorFeature?
    ensures r.Ok? ==> r.value == query.features[name].cells
    ensures r.Err? ==> r.error == FeatureNotFound(name)
  {
    var t := GetTensor(query.features, name);
    if t.Some? {
      r := Ok(t.value);
    } else {
      r := Err(FeatureNotFound(name));
    }
  }

  /** `createSubQuery`: clones the query and derives the sub-query on the clone; the original is untouched. */
  method CreateSubQuery(query: Query, retrieval: string, ranking: string) returns (r: Result<Query, SearchError>)
    ensures r.Ok? ==> fresh(r.value)
    ensures Outcome(r) == SubQuery(query.Value(), retrieval, ranking)
  {
    var yql := GetString(query.properties, "yql." + retrieval, "");
    var profileNew := GetString(query.properties, "ranking." + ranking, "");
    var profileModifiers := GetString(query.properties, "ranking." + ranking + "ScoreModifiers", "");
    var queryNew := query.Clone();
    queryNew.SetProperty("yql", PStr(yql));
    var fields := ExtractTensorRankFeature(query, FieldsFeature(retrieval));
    if fields.Err? {
      return Err(fields.error);
    }
    var cells := fields.value;
    var j := 0;
    while j < |cells|
      invariant 0 <= j <= |cells|
      invariant queryNew.Value() == QueryValue(query.properties["yql" := PStr(yql)], InjectCells(query.features, cells[..j]), query.profile)
    {
      assert cells[..j + 1][..j] == cells[..j];
      AddFieldToRankFeatures(cells[j], queryNew);
      j := j + 1;
    }
    assert cells[..j] == cells;
    if GetBoolean(query.properties, "hybrid." + ranking + "ScoreModifiersPresent", false) {
      queryNew.SetProfile(profileModifiers);
      var add := ExtractTensorRankFeature(query, AddQueryWrapper(AddWeights + "_" + ranking));
      if add.Err? {
        return Err(add.error);
      }
      var mult := ExtractTensorRankFeature(query, AddQueryWrapper(MultWeights + "_" + ranking));
      if mult.Err? {
        return Err(mult.error);
      }
      queryNew.PutFeature(AddQueryWrapper(AddWeights), TensorFeature(add.value));
      queryNew.PutFeature(AddQueryWrapper(MultWeights), TensorFeature(mult.value));
    } else {
      queryNew.SetProfile(profileNew);
    }
    r := Ok(queryNew);
  }
}
