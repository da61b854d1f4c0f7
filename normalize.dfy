/**
 * `normalize` of the `com.yahoo.search.example` hybrid searcher: min-max scaling of
 * rank features. A first pass finds, per feature, the least and greatest score over
 * the non-auxiliary hits; a second pass sets each non-auxiliary hit's relevance to
 * the mean over features of (score - min) / (max - min).
 */
module Normalization {
  import opened Wrappers

  /** A hit as `normalize` sees it: auxiliary or not, and its `matchfeatures` field if it has one. */
  datatype RankedHit = RankedHit(id: string, relevance: real, auxiliary: bool, matchFeatures: Option<map<string, real>>)

  /** Why `normalize` stops: a hit without match features, a missing feature, or a score that is not a number. */
  datatype NormalizeError = NoFeatureData | MissingFeature(name: string) | UndefinedScore

  /** Java's `Double.MAX_VALUE`, (2 - 2^-52) * 2^1023. */
  const DoubleMaxValue: real := 179769313486231570814527423731704356798070567525844996598917476803157260780028538760589558632766878171540458953514382464234321326889464182768467546703537516986049910576551282076245490090389328944075868508455133942304583236903222948165808559332123348274797826204144723168738177180919299881250404026184124858368.0

  /** Java's `Double.MIN_VALUE`, 2^-1074: the smallest POSITIVE double, not the most negative one. */
  const DoubleMinValue: real := 1.0 / 202402253307310618352495346718917307049556649764142118356901358027430339567995346891960383701437124495187077864316811911389808737385793476867013399940738509921517424276566361364466907742093216341239767678472745068562007483424692698618103355649159556340810056512358769552333414615230502532186327508646006263307707741093494784.0

  /** The score of feature `f` in a hit's match features (0 where there is none; never read then). */
  function Score(h: RankedHit, f: string): real
  {
    if h.matchFeatures.Some? && f in h.matchFeatures.value then h.matchFeatures.value[f] else 0.0
  }

  /** The first of `features` that `m` lacks, if any. */
  function FirstMissing(m: map<string, real>, features: seq<string>): (r: Option<string>)
    ensures r.None? <==> forall i :: 0 <= i < |features| ==> features[i] in m
    ensures r.Some? ==> r.value in features && r.value !in m
  {
    if features == [] then None
    else
      var n := |features|;
      var e := FirstMissing(m, features[..n - 1]);
      assert forall i :: 0 <= i < n - 1 ==> features[..n - 1][i] == features[i];
      if e.Some? then e
      else if features[n - 1] in m then None
      else Some(features[n - 1])
  }

  /** What the first pass raises on this hit, if anything. */
  function HitError(h: RankedHit, features: seq<string>): (r: Option<NormalizeError>)
    ensures r.None? <==> h.auxiliary || (h.matchFeatures.Some? && forall i :: 0 <= i < |features| ==> features[i] in h.matchFeatures.value)
  {
    if h.auxiliary then None
    else if h.matchFeatures.None? then Some(NoFeatureData)
    else match FirstMissing(h.matchFeatures.value, features)
      case Some(f) => Some(MissingFeature(f))
      case None => None
  }

  /** What the first pass raises: the error of the first hit that has one. */
  function FeatureError(hits: seq<RankedHit>, features: seq<string>): (r: Option<NormalizeError>)
    ensures r.None? <==> forall j :: 0 <= j < |hits| ==> HitError(hits[j], features).None?
  {
    if hits == [] then None
    else
      var n := |hits|;
      var e := FeatureError(hits[..n - 1], features);
      assert forall j :: 0 <= j < n - 1 ==> hits[..n - 1][j] == hits[j];
      if e.Some? then e else HitError(hits[n - 1], features)
  }

  /** The least score of `f` over the non-auxiliary hits, starting from `Double.MAX_VALUE`. */
  function ColumnMin(hits: seq<RankedHit>, f: string): (r: real)
    ensures r <= DoubleMaxValue
    ensures forall j :: 0 <= j < |hits| && !hits[j].auxiliary ==> r <= Score(hits[j], f)
    ensures r == DoubleMaxValue || exists j :: 0 <= j < |hits| && !hits[j].auxiliary && r == Score(hits[j], f)
  {
    if hits == [] then DoubleMaxValue
    else
      var n := |hits|;
      var m := ColumnMin(hits[..n - 1], f);
      assert forall j :: 0 <= j < n - 1 ==> hits[..n - 1][j] == hits[j];
      if !hits[n - 1].auxiliary && Score(hits[n - 1], f) < m then Score(hits[n - 1], f) else m
  }

  /** The greatest score of `f` over the non-auxiliary hits, starting from `init`. */
  function ColumnMax(hits: seq<RankedHit>, f: string, init: real): (r: real)
    ensures r >= init
    ensures forall j :: 0 <= j < |hits| && !hits[j].auxiliary ==> r >= Score(hits[j], f)
    ensures r == init || exists j :: 0 <= j < |hits| && !hits[j].auxiliary && r == Score(hits[j], f)
  {
    if hits == [] then init
    else
      var n := |hits|;
      var m := ColumnMax(hits[..n - 1], f, init);
      assert forall j :: 0 <= j < n - 1 ==> hits[..n - 1][j] == hits[j];
      if !hits[n - 1].auxiliary && Score(hits[n - 1], f) > m then Score(hits[n - 1], f) else m
  }

  /** Some hit is not auxiliary, so the second pass re-scores at least one hit. */
  predicate HasPrimary(hits: seq<RankedHit>)
  {
    exists j :: 0 <= j < |hits| && !hits[j].auxiliary
  }

  /** The per-feature minima, in feature order. */
  function Mins(hits: seq<RankedHit>, features: seq<string>): seq<real>
  {
    seq(|features|, i requires 0 <= i < |features| => ColumnMin(hits, features[i]))
  }

  /** The per-feature maxima, in feature order, each starting from `init`. */
  function Maxs(hits: seq<RankedHit>, features: seq<string>, init: real): seq<real>
  {
    seq(|features|, i requires 0 <= i < |features| => ColumnMax(hits, features[i], init))
  }

  /**
   * Min-max scaling is defined on these extremes: there is at least one feature to
   * average over and no feature has max == min.
   */
  predicate Scalable(features: seq<string>, mins: seq<real>, maxs: seq<real>)
  {
    0 < |features| == |mins| == |maxs| && forall i :: 0 <= i < |features| ==> maxs[i] != mins[i]
  }

  /** A score scaled so that `mn` maps to 0 and `mx` to 1. */
  function Scaled(s: real, mn: real, mx: real): real
    requires mn != mx
  {
    (s - mn) / (mx - mn)
  }

  /** The sum of the scaled scores of a hit's first `n` features. */
  function TermSum(h: RankedHit, features: seq<string>, mins: seq<real>, maxs: seq<real>, n: nat): real
    requires Scalable(features, mins, maxs) && n <= |features|
  {
    if n == 0 then 0.0
    else TermSum(h, features, mins, maxs, n - 1) + Scaled(Score(h, features[n - 1]), mins[n - 1], maxs[n - 1])
  }

  /** A hit's normalized relevance: the mean of its scaled scores. */
  function Relevance(h: RankedHit, features: seq<string>, mins: seq<real>, maxs: seq<real>): real
    requires Scalable(features, mins, maxs)
  {
    TermSum(h, features, mins, maxs, |features|) / (|features| as real)
  }

  /** The second pass on one hit: auxiliary hits are skipped, the others get their normalized relevance. */
  function Rescored(h: RankedHit, features: seq<string>, mins: seq<real>, maxs: seq<real>): RankedHit
    requires !h.auxiliary ==> Scalable(features, mins, maxs)
  {
    if h.auxiliary then h else h.(relevance := Relevance(h, features, mins, maxs))
  }

  /**
   * The outcome of `normalize` when the running maxima start from `maxInit`: the first
   * pass's error, `UndefinedScore` where Java would compute NaN relevances, or the
   * re-scored hits. Only the relevance of non-auxiliary hits changes.
   */
  function Normalized(hits: seq<RankedHit>, features: seq<string>, maxInit: real): (r: Result<seq<RankedHit>, NormalizeError>)
    ensures r.Err? <==>
      (FeatureError(hits, features).Some? || (HasPrimary(hits) && !Scalable(features, Mins(hits, features), Maxs(hits, features, maxInit))))
    ensures r.Ok? ==> |r.value| == |hits|
    ensures r.Ok? ==> forall j :: 0 <= j < |hits| ==>
      && r.value[j].(relevance := hits[j].relevance) == hits[j]
      && (hits[j].auxiliary ==> r.value[j] == hits[j])
  {
    match FeatureError(hits, features)
    case Some(e) => Err(e)
    case None =>
      var mins, maxs := Mins(hits, features), Maxs(hits, features, maxInit);
      if HasPrimary(hits) && !Scalable(features, mins, maxs) then Err(UndefinedScore)
      else Ok(seq(|hits|, j requires 0 <= j < |hits| => Rescored(hits[j], features, mins, maxs)))
  }

  /** A re-scored hit's relevance is its mean scaled score over the columns' extremes. */
  lemma NormalizedAt(hits: seq<RankedHit>, features: seq<string>, maxInit: real, j: nat)
    requires Normalized(hits, features, maxInit).Ok?
    requires j < |hits| && !hits[j].auxiliary
    ensures Scalable(features, Mins(hits, features), Maxs(hits, features, maxInit))
    ensures Normalized(hits, features, maxInit).value[j].relevance
      == Relevance(hits[j], features, Mins(hits, features), Maxs(hits, features, maxInit))
  {
    assert HasPrimary(hits);
  }

  /** A scaled score between min and max lies in [0, 1]. */
  lemma ScaledInUnitRange(s: real, mn: real, mx: real)
    requires mn <= s <= mx && mn != mx
    ensures 0.0 <= Scaled(s, mn, mx) <= 1.0
  {
    var d := mx - mn;
    assert d > 0.0;
    assert (s - mn) / d * d == s - mn;
  }

  /** Each scaled score of a hit within the column bounds is in [0, 1], so n of them sum to at most n. */
  lemma {:induction false} TermSumBounds(h: RankedHit, features: seq<string>, mins: seq<real>, maxs: seq<real>, n: nat)
    requires Scalable(features, mins, maxs) && n <= |features|
    requires forall i :: 0 <= i < |features| ==> mins[i] <= Score(h, features[i]) <= maxs[i]
    ensures 0.0 <= TermSum(h, features, mins, maxs, n) <= n as real
  {
    if n > 0 {
      TermSumBounds(h, features, mins, maxs, n - 1);
      ScaledInUnitRange(Score(h, features[n - 1]), mins[n - 1], maxs[n - 1]);
    }
  }

  /** Whatever the maxima start from, every re-scored relevance lies in [0, 1]. */
  lemma NormalizedInUnitRange(hits: seq<RankedHit>, features: seq<string>, maxInit: real, j: nat)
    requires Normalized(hits, features, maxInit).Ok?
    requires j < |hits| && !hits[j].auxiliary
    ensures 0.0 <= Normalized(hits, features, maxInit).value[j].relevance <= 1.0
  {
    NormalizedAt(hits, features, maxInit, j);
    var mins, maxs := Mins(hits, features), Maxs(hits, features, maxInit);
    ColumnBounds(hits, features, maxInit, j);
    TermSumBounds(hits[j], features, mins, maxs, |features|);
    MeanInUnitRange(TermSum(hits[j], features, mins, maxs, |features|), |features| as real);
  }

  /** A sum of n values in [0, 1], divided by n, is in [0, 1]. */
  lemma MeanInUnitRange(s: real, n: real)
    requires 0.0 < n && 0.0 <= s <= n
    ensures 0.0 <= s / n <= 1.0
  {
    assert s / n * n == s;
  }

  /** A non-auxiliary hit's score of each feature lies between that feature's extremes. */
  lemma ColumnBounds(hits: seq<RankedHit>, features: seq<string>, maxInit: real, j: nat)
    requires j < |hits| && !hits[j].auxiliary
    ensures forall i :: 0 <= i < |features| ==>
      Mins(hits, features)[i] <= Score(hits[j], features[i]) <= Maxs(hits, features, maxInit)[i]
  {
  }

  /** With one feature, the relevance of a hit is its scaled score. */
  lemma SingleFeatureRelevance(hits: seq<RankedHit>, f: string, maxInit: real, j: nat)
    requires Normalized(hits, [f], maxInit).Ok?
    requires j < |hits| && !hits[j].auxiliary
    ensures ColumnMin(hits, f) != ColumnMax(hits, f, maxInit)
    ensures Normalized(hits, [f], maxInit).value[j].relevance == Scaled(Score(hits[j], f), ColumnMin(hits, f), ColumnMax(hits, f, maxInit))
  {
    NormalizedAt(hits, [f], maxInit, j);
    var mins, maxs := Mins(hits, [f]), Maxs(hits, [f], maxInit);
    assert mins[0] == ColumnMin(hits, f) && maxs[0] == ColumnMax(hits, f, maxInit);
    SingleRelevance(hits[j], f, mins, maxs);
  }

  /** The mean over one feature is that feature's scaled score. */
  lemma SingleRelevance(h: RankedHit, f: string, mins: seq<real>, maxs: seq<real>)
    requires Scalable([f], mins, maxs)
    ensures Relevance(h, [f], mins, maxs) == Scaled(Score(h, f), mins[0], maxs[0])
  {
    var x := Scaled(Score(h, f), mins[0], maxs[0]);
    assert TermSum(h, [f], mins, maxs, 1) == 0.0 + x;
    assert x / 1.0 == x;
  }

  /** Every score of `f` on a non-auxiliary hit is a finite double. */
  predicate InDoubleRange(hits: seq<RankedHit>, f: string)
  {
    forall j :: 0 <= j < |hits| && !hits[j].auxiliary ==> -DoubleMaxValue <= Score(hits[j], f) <= DoubleMaxValue
  }

  /**
   * Started from the most negative double, as intended, a single feature is scaled so
   * that the best-scoring hit gets exactly 1.
   */
  lemma CorrectedTopScoresOne(hits: seq<RankedHit>, f: string, j: nat)
    requires Normalized(hits, [f], -DoubleMaxValue).Ok?
    requires InDoubleRange(hits, f)
    requires j < |hits| && !hits[j].auxiliary
    requires forall i :: 0 <= i < |hits| && !hits[i].auxiliary ==> Score(hits[i], f) <= Score(hits[j], f)
    ensures Normalized(hits, [f], -DoubleMaxValue).value[j].relevance == 1.0
  {
    SingleFeatureRelevance(hits, f, -DoubleMaxValue, j);
    var mn, mx := ColumnMin(hits, f), ColumnMax(hits, f, -DoubleMaxValue);
    assert mx == Score(hits[j], f);
    ScaledMaxIsOne(mn, mx);
  }

  /** Likewise the worst-scoring hit gets exactly 0. */
  lemma CorrectedBottomScoresZero(hits: seq<RankedHit>, f: string, j: nat)
    requires Normalized(hits, [f], -DoubleMaxValue).Ok?
    requires InDoubleRange(hits, f)
    requires j < |hits| && !hits[j].auxiliary
    requires forall i :: 0 <= i < |hits| && !hits[i].auxiliary ==> Score(hits[i], f) >= Score(hits[j], f)
    ensures Normalized(hits, [f], -DoubleMaxValue).value[j].relevance == 0.0
  {
    SingleFeatureRelevance(hits, f, -DoubleMaxValue, j);
    var mn, mx := ColumnMin(hits, f), ColumnMax(hits, f, -DoubleMaxValue);
    assert mn == Score(hits[j], f);
    ScaledMinIsZero(mn, mx);
  }

  /** The maximum itself scales to 1. */
  lemma ScaledMaxIsOne(mn: real, mx: real)
    requires mn != mx
    ensures Scaled(mx, mn, mx) == 1.0
  {
    var d := mx - mn;
    assert Scaled(mx, mn, mx) == d / d;
    DivSelf(d);
  }

  lemma DivSelf(d: real)
    requires d != 0.0
    ensures d / d == 1.0
  {
    assert d / d * d == d;
    assert (d / d - 1.0) * d == 0.0;
  }

  /** The minimum itself scales to 0. */
  lemma ScaledMinIsZero(mn: real, mx: real)
    requires mn != mx
    ensures Scaled(mn, mn, mx) == 0.0
  {
    var d := mx - mn;
    assert Scaled(mn, mn, mx) == 0.0 / d;
  }

  /** Only the maximum itself scales to 1: a score below it scales below 1. */
  lemma ScaledBelowOne(s: real, mn: real, mx: real)
    requires mn <= s < mx
    ensures Scaled(s, mn, mx) < 1.0
  {
    var d := mx - mn;
    assert d > 0.0;
    var x := Scaled(s, mn, mx);
    assert x == (s - mn) / d;
    assert x * d == s - mn;
    assert x * d < d;
  }

  /**
   * As written, the maxima start from `Double.MIN_VALUE`, a positive number: when every
   * score of the feature is at most 0, no hit gets relevance 1, not even the best one.
   */
  lemma AsWrittenNegativeScoresBelowOne(hits: seq<RankedHit>, f: string, j: nat)
    requires Normalized(hits, [f], DoubleMinValue).Ok?
    requires forall i :: 0 <= i < |hits| && !hits[i].auxiliary ==> Score(hits[i], f) <= 0.0
    requires j < |hits| && !hits[j].auxiliary
    ensures Normalized(hits, [f], DoubleMinValue).value[j].relevance < 1.0
  {
    SingleFeatureRelevance(hits, f, DoubleMinValue, j);
    var mn, mx := ColumnMin(hits, f), ColumnMax(hits, f, DoubleMinValue);
    assert mx == DoubleMinValue;
    var s := Score(hits[j], f);
    ScaledBelowOne(s, mn, mx);
  }

  /** Two hits whose bm25 scores, -1 and -2, are both negative. */
  function NegativeHits(): seq<RankedHit>
  {
    [RankedHit("a", 0.0, false, Some(map["bm25" := -1.0])), RankedHit("b", 0.0, false, Some(map["bm25" := -2.0]))]
  }

  /** On `NegativeHits`, as written, the better hit gets 1 / (1 + 2^-1074 + 1) rather than 1. */
  lemma AsWrittenCounterexample()
    ensures Normalized(NegativeHits(), ["bm25"], DoubleMinValue).Ok?
    ensures Normalized(NegativeHits(), ["bm25"], DoubleMinValue).value[0].relevance < 1.0
  {
    NegativeHitsScalable();
    NegativeHitsScores();
    AsWrittenNegativeScoresBelowOne(NegativeHits(), "bm25", 0);
  }

  /** Started from the most negative double, the two hits of `NegativeHits` get 1 and 0. */
  lemma CorrectedOnNegativeHits()
    ensures Normalized(NegativeHits(), ["bm25"], -DoubleMaxValue).Ok?
    ensures Normalized(NegativeHits(), ["bm25"], -DoubleMaxValue).value[0].relevance == 1.0
    ensures Normalized(NegativeHits(), ["bm25"], -DoubleMaxValue).value[1].relevance == 0.0
  {
    var hits := NegativeHits();
    NegativeHitsScalable();
    NegativeHitsScores();
    assert InDoubleRange(hits, "bm25");
    CorrectedTopScoresOne(hits, "bm25", 0);
    CorrectedBottomScoresZero(hits, "bm25", 1);
  }

  /** The bm25 scores of `NegativeHits`. */
  lemma NegativeHitsScores()
    ensures |NegativeHits()| == 2 && !NegativeHits()[0].auxiliary && !NegativeHits()[1].auxiliary
    ensures Score(NegativeHits()[0], "bm25") == -1.0 && Score(NegativeHits()[1], "bm25") == -2.0
  {
  }

  /** Both versions of `normalize` succeed on `NegativeHits`. */
  lemma NegativeHitsScalable()
    ensures Normalized(NegativeHits(), ["bm25"], DoubleMinValue).Ok?
    ensures Normalized(NegativeHits(), ["bm25"], -DoubleMaxValue).Ok?
  {
    var hits := NegativeHits();
    NegativeHitsComplete();
    NegativeHitsColumns();
    assert Scalable(["bm25"], Mins(hits, ["bm25"]), Maxs(hits, ["bm25"], DoubleMinValue));
    assert Scalable(["bm25"], Mins(hits, ["bm25"]), Maxs(hits, ["bm25"], -DoubleMaxValue));
  }

  /** Both hits of `NegativeHits` carry a bm25 score. */
  lemma NegativeHitsComplete()
    ensures FeatureError(NegativeHits(), ["bm25"]).None?
  {
    var hits := NegativeHits();
    assert hits[..1] == [hits[0]];
  }

  /** The extremes of bm25 on `NegativeHits`, with the maxima started either way. */
  lemma NegativeHitsColumns()
    ensures ColumnMin(NegativeHits(), "bm25") == -2.0
    ensures ColumnMax(NegativeHits(), "bm25", DoubleMinValue) == DoubleMinValue
    ensures ColumnMax(NegativeHits(), "bm25", -DoubleMaxValue) == -1.0
  {
    var hits := NegativeHits();
    assert hits[..1] == [hits[0]];
  }

  /** A first-pass error at hit `j`, after error-free hits, is the error of the whole pass. */
  lemma FeatureErrorAt(hits: seq<RankedHit>, features: seq<string>, j: nat)
    requires j < |hits|
    requires FeatureError(hits[..j], features).None?
    requires HitError(hits[j], features).Some?
    ensures FeatureError(hits, features) == HitError(hits[j], features)
  {
    var m := |hits|;
    if m > j + 1 {
      assert hits[..m - 1][..j] == hits[..j];
      FeatureErrorAt(hits[..m - 1], features, j);
    } else {
      assert hits[..m - 1] == hits[..j];
    }
  }

  /**
   * `normalize(hits, features)`, as written: the maxima start from `Double.MIN_VALUE`.
   * Where Java would store NaN relevances, the hits are left as they were and
   * `UndefinedScore` is returned.
   */
  method Normalize(hits: array<RankedHit>, features: seq<string>) returns (err: Option<NormalizeError>)
    modifies hits
    ensures var r := Normalized(old(hits[..]), features, DoubleMinValue);
      && err == (if r.Err? then Some(r.error) else None)
      && hits[..] == (if r.Ok? then r.value else old(hits[..]))
  {
    var minValues, maxValues, primary, e := FindExtremes(hits, features);
    if e.Some? {
      return e;
    }
    if primary && (|features| == 0 || exists i :: 0 <= i < |features| && maxValues[i] == minValues[i]) {
      return Some(UndefinedScore);
    }
    ghost var hs := hits[..];
    RescoreHits(hits, features, minValues, maxValues);
    assert hits[..] == Normalized(hs, features, DoubleMinValue).value;
    err := None;
  }

  /**
   * The first pass: the running min and max of each feature over the non-auxiliary
   * hits, whether there is a non-auxiliary hit, or the error that stops the pass.
   */
  method FindExtremes(hits: array<RankedHit>, features: seq<string>)
    returns (minValues: array<real>, maxValues: array<real>, primary: bool, err: Option<NormalizeError>)
    ensures err == FeatureError(hits[..], features)
    ensures minValues.Length == maxValues.Length == |features|
    ensures err.None? ==>
      && minValues[..] == Mins(hits[..], features)
      && maxValues[..] == Maxs(hits[..], features, DoubleMinValue)
      && (primary <==> HasPrimary(hits[..]))
  {
    var n := |features|;
    minValues, maxValues := InitialExtremes(n);
    assert hits[..0] == [];
    primary := false;
    var j := 0;
    while j < hits.Length
      invariant 0 <= j <= hits.Length
      invariant FeatureError(hits[..j], features).None?
      invariant primary <==> HasPrimary(hits[..j])
      invariant forall i' :: 0 <= i' < n ==>
        minValues[i'] == ColumnMin(hits[..j], features[i']) && maxValues[i'] == ColumnMax(hits[..j], features[i'], DoubleMinValue)
    {
      var hit := hits[j];
      assert hits[..j + 1][..j] == hits[..j];
      if !hit.auxiliary {
        if hit.matchFeatures.None? {
          FeatureErrorAt(hits[..], features, j);
          return minValues, maxValues, primary, Some(NoFeatureData);
        }
        var missing := UpdateExtremes(minValues, maxValues, hit.matchFeatures.value, features);
        if missing.Some? {
          FeatureErrorAt(hits[..], features, j);
          return minValues, maxValues, primary, Some(MissingFeature(missing.value));
        }
        primary := true;
      }
      ColumnStep(hits[..], j, features);
      j := j + 1;
    }
    assert hits[..j] == hits[..];
    assert minValues[..] == Mins(hits[..], features);
    err := None;
  }

  /** The running minima start at `Double.MAX_VALUE`, the running maxima at `Double.MIN_VALUE`. */
  method InitialExtremes(n: nat) returns (minValues: array<real>, maxValues: array<real>)
    ensures fresh(minValues) && fresh(maxValues) && minValues != maxValues
    ensures minValues.Length == maxValues.Length == n
    ensures forall i :: 0 <= i < n ==> minValues[i] == DoubleMaxValue && maxValues[i] == DoubleMinValue
  {
    minValues := new real[n];
    maxValues := new real[n];
    var i := 0;
    while i < n
      invariant 0 <= i <= n
      invariant forall i' :: 0 <= i' < i ==> minValues[i'] == DoubleMaxValue && maxValues[i'] == DoubleMinValue
    {
      minValues[i] := DoubleMaxValue;
      maxValues[i] := DoubleMinValue;
      i := i + 1;
    }
  }

  /** The second pass: every non-auxiliary hit gets its normalized relevance. */
  method RescoreHits(hits: array<RankedHit>, features: seq<string>, minValues: array<real>, maxValues: array<real>)
    requires HasPrimary(hits[..]) ==> Scalable(features, minValues[..], maxValues[..])
    modifies hits
    ensures forall j :: 0 <= j < hits.Length ==> hits[j] == Rescored(old(hits[j]), features, minValues[..], maxValues[..])
  {
    var j := 0;
    while j < hits.Length
      invariant 0 <= j <= hits.Length
      invariant forall j' :: 0 <= j' < j ==> hits[j'] == Rescored(old(hits[j']), features, minValues[..], maxValues[..])
      invariant forall j' :: j <= j' < hits.Length ==> hits[j'] == old(hits[j'])
    {
      var hit := hits[j];
      if !hit.auxiliary {
        assert old(hits[..])[j] == hit;
        var finalScore := SumScaled(hit, features, minValues, maxValues);
        finalScore := finalScore / (|features| as real);
        hits[j] := hit.(relevance := finalScore);
      }
      j := j + 1;
    }
  }

  /** The first pass over hit `j` lowers each column's minimum and raises its maximum to the hit's score. */
  lemma ColumnStep(hs: seq<RankedHit>, j: nat, features: seq<string>)
    requires j < |hs|
    ensures forall i :: 0 <= i < |features| ==>
      && ColumnMin(hs[..j + 1], features[i])
        == (if !hs[j].auxiliary && Score(hs[j], features[i]) < ColumnMin(hs[..j], features[i]) then Score(hs[j], features[i]) else ColumnMin(hs[..j], features[i]))
      && ColumnMax(hs[..j + 1], features[i], DoubleMinValue)
        == (if !hs[j].auxiliary && Score(hs[j], features[i]) > ColumnMax(hs[..j], features[i], DoubleMinValue) then Score(hs[j], features[i]) else ColumnMax(hs[..j], features[i], DoubleMinValue))
  {
    assert hs[..j + 1][..j] == hs[..j];
  }

  /** The inner loop of the first pass: updates each feature's running min and max with this hit's score. */
  method UpdateExtremes(minValues: array<real>, maxValues: array<real>, scores: map<string, real>, features: seq<string>)
    returns (missing: Option<string>)
    requires minValues.Length == maxValues.Length == |features|
    requires minValues != maxValues
    modifies minValues, maxValues
    ensures missing == FirstMissing(scores, features)
    ensures missing.None? ==> forall i :: 0 <= i < |features| ==>
      && minValues[i] == (if scores[features[i]] < old(minValues[i]) then scores[features[i]] else old(minValues[i]))
      && maxValues[i] == (if scores[features[i]] > old(maxValues[i]) then scores[features[i]] else old(maxValues[i]))
  {
    var i := 0;
    while i < |features|
      invariant 0 <= i <= |features|
      invariant FirstMissing(scores, features[..i]).None?
      invariant forall i' :: 0 <= i' < i ==>
        && minValues[i'] == (if scores[features[i']] < old(minValues[i']) then scores[features[i']] else old(minValues[i']))
        && maxValues[i'] == (if scores[features[i']] > old(maxValues[i']) then scores[features[i']] else old(maxValues[i']))
      invariant forall i' :: i <= i' < |features| ==> minValues[i'] == old(minValues[i']) && maxValues[i'] == old(maxValues[i'])
    {
      assert features[..i + 1][..i] == features[..i];
      if features[i] !in scores {
        MissingAt(scores, features, i);
        return Some(features[i]);
      }
      var score := scores[features[i]];
      if score < minValues[i] {
        minValues[i] := score;
      }
      if score > maxValues[i] {
        maxValues[i] := score;
      }
      i := i + 1;
    }
    assert features[..i] == features;
    missing := None;
  }

  /** The first missing feature, after present ones, is the first missing feature of the whole list. */
  lemma MissingAt(m: map<string, real>, features: seq<string>, i: nat)
    requires i < |features|
    requires FirstMissing(m, features[..i]).None?
    requires features[i] !in m
    ensures FirstMissing(m, features) == Some(features[i])
  {
    var n := |features|;
    if n > i + 1 {
      MissingAt(m, features[..n - 1], i);
      assert features[..n - 1][..i] == features[..i];
    } else {
      assert features[..n - 1] == features[..i];
    }
  }

  /** The inner loop of the second pass: the sum of a hit's scaled scores. */
  method SumScaled(hit: RankedHit, features: seq<string>, minValues: array<real>, maxValues: array<real>) returns (s: real)
    requires Scalable(features, minValues[..], maxValues[..])
    ensures s == TermSum(hit, features, minValues[..], maxValues[..], |features|)
  {
    s := 0.0;
    var i := 0;
    while i < |features|
      invariant 0 <= i <= |features|
      invariant s == TermSum(hit, features, minValues[..], maxValues[..], i)
    {
      var score := Score(hit, features[i]);
      s := s + (score - minValues[i]) / (maxValues[i] - minValues[i]);
      i := i + 1;
    }
  }
}
