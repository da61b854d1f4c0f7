/**
 * The parts of a Vespa search query that the hybrid searchers read and change:
 * its request properties, its ranking features (rank-feature name to tensor or
 * number) and its rank profile. A tensor is the list of its cells; each cell has
 * an address (one label per dimension) and a value.
 */
module Queries {
  import opened Wrappers

  /** A request property value. */
  datatype PropValue = PStr(s: string) | PBool(b: bool) | PInt(i: int) | PReal(r: real)

  /** One tensor cell: its address labels and its value. */
  datatype Cell = Cell(labels: seq<string>, value: real)

  /** A ranking feature: a tensor, or a plain number. */
  datatype Feature = TensorFeature(cells: seq<Cell>) | ScalarFeature(value: real)

  /** The state of a query as a value. */
  datatype QueryValue = QueryValue(properties: map<string, PropValue>, features: map<string, Feature>, profile: string)

  /** Why a hybrid search did not produce hits (the source raises each as a `RuntimeException`). */
  datatype SearchError =
    | FeatureNotFound(name: string)
    | BackendFailure(message: string)
    | RankingNotRrf
    | RankingNotStandard
    | RetrievalUnknown
    | NegativeRrfK(k: int)

  /** `Properties.getString(name, default)`. */
  function GetString(props: map<string, PropValue>, name: string, default: string): string
  {
    if name in props && props[name].PStr? then props[name].s else default
  }

  /** `Properties.getBoolean(name, default)`; a string property reads as true only when it is "true". */
  function GetBoolean(props: map<string, PropValue>, name: string, default: bool): bool
  {
    if name !in props then default
    else match props[name]
      case PBool(b) => b
      case PStr(s) => s == "true"
      case _ => default
  }

  /** `Properties.getInteger(name, default)`. */
  function GetInteger(props: map<string, PropValue>, name: string, default: int): int
  {
    if name in props && props[name].PInt? then props[name].i else default
  }

  /** `Properties.getDouble(name, default)`; an integer property reads as its value. */
  function GetDouble(props: map<string, PropValue>, name: string, default: real): real
  {
    if name !in props then default
    else match props[name]
      case PReal(r) => r
      case PInt(i) => i as real
      case _ => default
  }

  /** `RankFeatures.getTensor(name)`: the cells of a tensor feature, if there is one under `name`. */
  function GetTensor(features: map<string, Feature>, name: string): Option<seq<Cell>>
  {
    if name in features && features[name].TensorFeature? then Some(features[name].cells) else None
  }

  /** The feature under `name`, if any. */
  function Lookup(features: map<string, Feature>, name: string): Option<Feature>
  {
    if name in features then Some(features[name]) else None
  }

  /** A Vespa `Query`: the searchers clone it and set properties, features and the profile on the clone. */
  class Query {
    var properties: map<string, PropValue>
    var features: map<string, Feature>
    var profile: string

    constructor (v: QueryValue)
      ensures Value() == v
    {
      properties := v.properties;
      features := v.features;
      profile := v.profile;
    }

    /** The query's current state. */
    function Value(): QueryValue
      reads this
    {
      QueryValue(properties, features, profile)
    }

    /** `Query.clone()`: a new query with the same state. */
    method Clone() returns (q: Query)
      ensures fresh(q)
      ensures q.Value() == Value()
    {
      q := new Query(Value());
    }

    /** `properties().set(name, value)`. */
    method SetProperty(name: string, value: PropValue)
      modifies this
      ensures Value() == old(Value()).(properties := old(properties)[name := value])
    {
      properties := properties[name := value];
    }

    /** `getRanking().getFeatures().put(name, value)`. */
    method PutFeature(name: string, value: Feature)
      modifies this
      ensures Value() == old(Value()).(features := old(features)[name := value])
    {
      features := features[name := value];
    }

    /** `getRanking().setProfile(profile)`. */
    method SetProfile(p: string)
      modifies this
      ensures Value() == old(Value()).(profile := p)
    {
      profile := p;
    }
  }
}
