# Marqo hybrid search core, modelled in Dafny

This project models the parts of Marqo that decide what a hybrid search returns, and the bookkeeping around them.

- **Hybrid fusion in the Vespa searcher** (`ai.marqo.search.HybridSearcher`):
  - weighted Reciprocal Rank Fusion (RRF) of a tensor hit list and a lexical hit list;
  - the retrieval/ranking method selection in `search`;
  - the derivation of the lexical and tensor sub-queries (yql, rank profile, rank features).
- **The older example searcher** (`com.yahoo.search.example.HybridSearcher`):
  - its RRF variant, which appends every lexical hit and adds to a zero baseline;
  - its `search` dispatch;
  - its min-max `normalize`.
- **`IndexSettingStore`**: a versioned table of index settings with a bounded history. Also the version check that guards `bootstrap`.
- **Lucene filter strings** of the legacy tensor search: the searchable-attributes filter, escaping of special characters, and moving user filter fields under the chunks field.
- **The structured Vespa schema and documents**: the type and metric maps, the document section, summaries and rank profiles, and `to_vespa_document` with its checks.
- **Model-registry bookkeeping** of `s2_inference`:
  - the model cache key;
  - validation of model properties, with defaults filled in;
  - the model size lookup;
  - merging cached and freshly encoded vectors in order;
  - LRU eviction and ejection over the loaded-model dictionary.
- **`IndexInfo` property filtering.**

## How the model is built

One module per source concern.

- `Fusion` and `FusionProperties` model the RRF of `ai.marqo`.
- `ExampleFusion`, `ExampleSearcher` and `Normalization` model the example searcher.
- `MarqoSearcher` and `SubQueries` model `search` and `createSubQuery`. `Queries` models the Vespa `Query`. `Hits` models `Hit`/`HitGroup`.
- `IndexSettings`, `Filtering`, `StructuredSchema`, `StructuredDocument`, `ModelProperties`, `ModelCache`, `VectorCache` and `IndexInfo` model the Python files.
- `PyDict` is an insertion-ordered Python dict: an association list whose `Put` replaces in place or appends.

State that the source changes in place is state in Dafny:

- `HitGroup`, `Query`, `IndexSettingStore`, `ApplicationPackage`, `AvailableModels`, `Field`, `TensorField` and the caller's `model_properties` dict (`PyDict.MutableDict`) are classes.
- `normalize` works on an `array`.

Each such method has an `ensures` that ties it to a specification function of the old state. The properties the source promises are lemmas about those functions.

Hits are `(id, relevance)` values, and relevances, scores, sizes and alpha are reals.

A Vespa tensor is a sequence of `(labels, value)` cells. A query is a record of properties, rank features and a rank profile.

Names the source takes from code that is not part of this model are parameters:

- the `TensorField` enum values and `LUCENE_SPECIAL_CHARS`;
- the model-type names, the size tables and the memory thresholds;
- Python's `str()` of values;
- semantic-version parsing.

Where the design description and the code disagree, the model follows the code:

- In `search`, the "disjunction must be ranked by rrf" error is raised only after both sub-queries were built and both searches completed (`MarqoSearcher.DisjunctionRankingCheckedLast`).
- `sanitise_lucene_special_chars` does not escape backslashes, and the filter builders (`Clause`, `ContextStep` and the methods that compute them) escape names the same way (`Filtering.Escaped`). The intended escaping is a separate definition, `Filtering.Sanitised`, with its round trip proved (see Findings).
- `to_vespa_document` checks tensor field names against the field map. The conversion methods take a flag `checkTensorMap`: false is the code as written, true is the intended check against the tensor field map. Both are proved against the same specification (see Findings).

## Model

| member | source | states |
|---|---|---|
| Fusion.TensorPass | scripts/vespa_local/src/main/java/ai/marqo/search/HybridSearcher.java:147-164 | one output hit per tensor hit, in order, the hit at rank r with relevance alpha/(r+k), and the id→score map agreeing with the output |
| Fusion.FirstIndex | scripts/vespa_local/src/main/java/ai/marqo/search/HybridSearcher.java:193 | `result.get(id)` finds the first output hit with that id; no earlier hit has it |
| Fusion.LexicalStep | scripts/vespa_local/src/main/java/ai/marqo/search/HybridSearcher.java:171-198 | a lexical hit whose id is already scored leaves the output ids unchanged; an unscored one is appended; map and output stay in agreement |
| Fusion.LexicalPass | scripts/vespa_local/src/main/java/ai/marqo/search/HybridSearcher.java:167-208 | the lexical loop keeps the score map and the output in agreement |
| Fusion.LexicalPassAppendsUnseen | scripts/vespa_local/src/main/java/ai/marqo/search/HybridSearcher.java:176-198 | the lexical pass keeps the output so far and appends only lexical ids not scored before, each at most once |
| Fusion.Rrf | scripts/vespa_local/src/main/java/ai/marqo/search/HybridSearcher.java:132-225 | `rrf` returns a fresh group holding the tensor pass (when alpha > 0), then the lexical pass (when alpha < 1), sorted and trimmed |
| Fusion.AddTensorHits | scripts/vespa_local/src/main/java/ai/marqo/search/HybridSearcher.java:147-164 | the tensor loop leaves the map and the group equal to the tensor pass |
| Fusion.AddLexicalHits | scripts/vespa_local/src/main/java/ai/marqo/search/HybridSearcher.java:167-208 | the lexical loop leaves the map and the group equal to the lexical pass over their old contents |
| Fusion.AddLexicalHit | scripts/vespa_local/src/main/java/ai/marqo/search/HybridSearcher.java:172-198 | one lexical iteration: an unseen id is appended with (1-alpha)/(r+k); a seen id's output hit gets stored score + (1-alpha)/(r+k) |
| FusionProperties.LexicalPassCovers | scripts/vespa_local/src/main/java/ai/marqo/search/HybridSearcher.java:167-208 | after the lexical pass every earlier output id and every lexical id is in the output |
| FusionProperties.FusedIds | scripts/vespa_local/src/main/java/ai/marqo/search/HybridSearcher.java:147-208 | an id is in the fused list iff (alpha > 0 and it is a tensor id) or (alpha < 1 and it is a lexical id): every returned hit comes from an input |
| FusionProperties.FusedSize | scripts/vespa_local/src/main/java/ai/marqo/search/HybridSearcher.java:147-208 | the unsorted fused list has at most \|T\|+\|L\| hits |
| FusionProperties.RrfResultTopHits | scripts/vespa_local/src/main/java/ai/marqo/search/HybridSearcher.java:214-220 | the result is descending, min(max(\|T\|,\|L\|), \|fused\|) long, drawn from the fused hits, and no dropped hit outscores a kept one |
| FusionProperties.TensorPassScores | scripts/vespa_local/src/main/java/ai/marqo/search/HybridSearcher.java:152-153 | with distinct tensor ids, the id at rank i+1 is stored with alpha/(i+1+k) |
| FusionProperties.LexicalPassBlended | scripts/vespa_local/src/main/java/ai/marqo/search/HybridSearcher.java:172-193 | after both passes each output hit's relevance and stored score are its tensor contribution plus its lexical contribution |
| FusionProperties.RrfBlendedScores | scripts/vespa_local/src/main/java/ai/marqo/search/HybridSearcher.java:147-220 | for 0<alpha<1 and distinct ids: descending, distinct ids, exactly max(\|T\|,\|L\|) hits, each scored alpha/(rT+k) + (1-alpha)/(rL+k), a missing side counting 0 |
| FusionProperties.FusedBlended | scripts/vespa_local/src/main/java/ai/marqo/search/HybridSearcher.java:147-208 | before sorting, for 0<alpha<1: distinct ids, each hit carrying the blended score |
| FusionProperties.FusedHoldsBoth | scripts/vespa_local/src/main/java/ai/marqo/search/HybridSearcher.java:147-208 | for 0<alpha<1 the fused list is at least as long as each input |
| FusionProperties.TensorOnly | scripts/vespa_local/src/main/java/ai/marqo/search/HybridSearcher.java:147-168 | alpha ≥ 1 skips the lexical list: the fused list is the tensor list rescored by alpha/(r+k) |
| FusionProperties.LexicalOnly | scripts/vespa_local/src/main/java/ai/marqo/search/HybridSearcher.java:147-168 | alpha ≤ 0 skips the tensor list: the fused list is the lexical list rescored by (1-alpha)/(r+k) |
| FusionProperties.LexicalPassFromStart | scripts/vespa_local/src/main/java/ai/marqo/search/HybridSearcher.java:167-198 | from an empty state, distinct lexical hits are all appended in order with (1-alpha)/(r+k), and exactly their ids are scored |
| FusionProperties.ScenarioFused | scripts/vespa_local/src/main/java/ai/marqo/search/HybridSearcher.java:147-208 | T=[A,B], L=[B,C], k=60, alpha=0.5 fuse to [A 1/122, B 1/124+1/122, C 1/124] |
| FusionProperties.RrfScenario | scripts/vespa_local/src/main/java/ai/marqo/search/HybridSearcher.java:132-225 | the same inputs return [B, A] after sorting and trimming to 2 |
| Hits.SortByRelevance | scripts/vespa_local/src/main/java/ai/marqo/search/HybridSearcher.java:214 | `HitGroup.sort`: a descending permutation of the hits |
| Hits.TopOfSorted | scripts/vespa_local/src/main/java/ai/marqo/search/HybridSearcher.java:214-220 | the first m sorted hits are descending, m long, drawn from the hits, and outscore every hit left out |
| Hits.HitGroup.Get | scripts/vespa_local/src/main/java/ai/marqo/search/HybridSearcher.java:193 | finds the first hit with the id, and nothing iff the id is absent |
| Hits.HitGroup.Add | scripts/vespa_local/src/main/java/ai/marqo/search/HybridSearcher.java:155 | appends the hit |
| Hits.HitGroup.SetRelevance | scripts/vespa_local/src/main/java/ai/marqo/search/HybridSearcher.java:193 | changes only that hit's relevance |
| Hits.HitGroup.Sort | scripts/vespa_local/src/main/java/ai/marqo/search/HybridSearcher.java:214 | the hits become `SortByRelevance` of the old hits |
| Hits.HitGroup.Trim | scripts/vespa_local/src/main/java/ai/marqo/search/HybridSearcher.java:219-220 | keeps the hits from offset, at most count of them |
| Hits.HitGroup.Size | scripts/vespa_local/src/main/java/ai/marqo/search/HybridSearcher.java:219 | the number of hits in the group |
| MarqoSearcher.SearchResult | scripts/vespa_local/src/main/java/ai/marqo/search/HybridSearcher.java:77-121 | an unknown retrieval method fails; lexical/tensor retrieval with a ranking outside {lexical, tensor} fails; a successful disjunction was ranked by rrf |
| MarqoSearcher.DisjunctionFuses | scripts/vespa_local/src/main/java/ai/marqo/search/HybridSearcher.java:77-104 | a successful disjunction returns the RRF of the tensor and lexical results of the two derived sub-queries: descending, at most max(\|T\|,\|L\|) long |
| MarqoSearcher.DisjunctionKeepsAll | scripts/vespa_local/src/main/java/ai/marqo/search/HybridSearcher.java:100-104 | with 0<alpha<1 and distinct ids in each result, exactly max(\|T\|,\|L\|) distinct hits are returned |
| MarqoSearcher.DisjunctionRankingCheckedLast | scripts/vespa_local/src/main/java/ai/marqo/search/HybridSearcher.java:77-107 | disjunction with a ranking other than rrf always fails, and fails with that error exactly when both sub-queries were built and both searches succeeded |
| MarqoSearcher.StandardPassesThrough | scripts/vespa_local/src/main/java/ai/marqo/search/HybridSearcher.java:109-115 | a successful lexical/tensor search returns the backend's result for the combined sub-query |
| MarqoSearcher.SearchDisjunction | scripts/vespa_local/src/main/java/ai/marqo/search/HybridSearcher.java:77-107 | the disjunction branch computes the disjunction outcome |
| MarqoSearcher.SearchStandard | scripts/vespa_local/src/main/java/ai/marqo/search/HybridSearcher.java:109-118 | the lexical/tensor branch computes the standard outcome |
| MarqoSearcher.HybridSearcher.Search | scripts/vespa_local/src/main/java/ai/marqo/search/HybridSearcher.java:44-121 | appends "lexical" and "tensor" to the searcher's list on every call, and returns the search outcome |
| SubQueries.AddQueryWrapper | scripts/vespa_local/src/main/java/ai/marqo/search/HybridSearcher.java:368-370 | `query(s)` unwraps back to s |
| SubQueries.UnwrapWrapped | scripts/vespa_local/src/main/java/ai/marqo/search/HybridSearcher.java:368-370 | every wrapped name is `query(...)` of its unwrapping |
| SubQueries.InjectLabelsAt | scripts/vespa_local/src/main/java/ai/marqo/search/HybridSearcher.java:233-241 | after one cell, feature query(label) is the cell's value for each of its labels; other features are unchanged |
| SubQueries.InjectCellsAt | scripts/vespa_local/src/main/java/ai/marqo/search/HybridSearcher.java:282-284 | over all cells, the last cell naming a label sets its feature |
| SubQueries.LastValue | scripts/vespa_local/src/main/java/ai/marqo/search/HybridSearcher.java:282-284 | the value a label ends up with: none iff no cell names it, else that of the last cell naming it |
| SubQueries.SubQuery | scripts/vespa_local/src/main/java/ai/marqo/search/HybridSearcher.java:256-314 | fails iff the fields-to-search tensor is missing, or the modifiers flag is set and a weights tensor is missing; sets yql from "yql."+retrieval; picks the ScoreModifiers profile iff the flag is set |
| SubQueries.SubQueryFeatures | scripts/vespa_local/src/main/java/ai/marqo/search/HybridSearcher.java:280-299 | each feature of the sub-query: the ranking's weights under the unsuffixed names when flagged, else the last cell value for a field label, else the original feature |
| SubQueries.AddFieldToRankFeatures | scripts/vespa_local/src/main/java/ai/marqo/search/HybridSearcher.java:233-241 | changes only the query's features, setting query(label) for each label of the cell |
| SubQueries.ExtractTensorRankFeature | scripts/vespa_local/src/main/java/ai/marqo/search/HybridSearcher.java:350-362 | succeeds iff the feature is present and a tensor, returning its cells; otherwise fails naming the feature |
| SubQueries.CreateSubQuery | scripts/vespa_local/src/main/java/ai/marqo/search/HybridSearcher.java:256-314 | returns a fresh clone whose value is `SubQuery` of the original, or its error; the original is not changed |
| Queries.Query.Clone | scripts/vespa_local/src/main/java/ai/marqo/search/HybridSearcher.java:276 | a fresh query with the same value |
| Queries.Query.SetProperty | scripts/vespa_local/src/main/java/ai/marqo/search/HybridSearcher.java:277 | sets one property, nothing else |
| Queries.Query.PutFeature | scripts/vespa_local/src/main/java/ai/marqo/search/HybridSearcher.java:298-299 | sets one rank feature, nothing else |
| Queries.Query.SetProfile | scripts/vespa_local/src/main/java/ai/marqo/search/HybridSearcher.java:287-303 | sets the rank profile, nothing else |
| ExampleFusion.VariantLexicalPass | scripts/vespa_local/src/main/java/com/yahoo/search/example/HybridSearcher.java:217-237 | every lexical hit is appended, in order, after the existing output |
| ExampleFusion.VariantFusedShape | scripts/vespa_local/src/main/java/com/yahoo/search/example/HybridSearcher.java:191-237 | before sorting there are \|T\|+\|L\| entries, the first \|T\| being the tensor pass with no alpha guard |
| ExampleFusion.VariantRrfShape | scripts/vespa_local/src/main/java/com/yahoo/search/example/HybridSearcher.java:244-252 | the result is descending, exactly max(\|T\|,\|L\|) long, and holds the top hits of the unsorted list |
| ExampleFusion.VariantLexicalScores | scripts/vespa_local/src/main/java/com/yahoo/search/example/HybridSearcher.java:191-237 | the lexical entry at rank r is (the id's tensor score or 0) + (1-alpha)/(r+k) |
| ExampleFusion.VariantDoubleCounts | scripts/vespa_local/src/main/java/com/yahoo/search/example/HybridSearcher.java:191-237 | an id in both lists appears twice: alpha/(rT+k) at its tensor rank, and that plus (1-alpha)/(rL+k) after the tensor hits |
| ExampleFusion.VariantRrf | scripts/vespa_local/src/main/java/com/yahoo/search/example/HybridSearcher.java:174-260 | returns a fresh group holding the variant's sorted, trimmed result |
| ExampleFusion.AddVariantLexicalHits | scripts/vespa_local/src/main/java/com/yahoo/search/example/HybridSearcher.java:217-237 | the lexical loop leaves the map and the group equal to the variant lexical pass |
| ExampleFusion.AddVariantLexicalHit | scripts/vespa_local/src/main/java/com/yahoo/search/example/HybridSearcher.java:218-236 | one iteration: stored score or 0, plus (1-alpha)/(r+k), stored and appended |
| ExampleSearcher.ExampleSearchResult | scripts/vespa_local/src/main/java/com/yahoo/search/example/HybridSearcher.java:106-165 | a non-empty result needs disjunction retrieval and rrf ranking; any other retrieval returns an empty list; only the disjunction branch can fail |
| ExampleSearcher.ExampleSearchFuses | scripts/vespa_local/src/main/java/com/yahoo/search/example/HybridSearcher.java:106-161 | disjunction with rrf returns the variant RRF of the two backend results: descending, max(\|T\|,\|L\|) long |
| ExampleSearcher.Search | scripts/vespa_local/src/main/java/com/yahoo/search/example/HybridSearcher.java:40-166 | `search` computes that outcome |
| Normalization.HitError | scripts/vespa_local/src/main/java/com/yahoo/search/example/HybridSearcher.java:277-285 | a hit is fine iff it is auxiliary, or it has match features holding every feature |
| Normalization.FeatureError | scripts/vespa_local/src/main/java/com/yahoo/search/example/HybridSearcher.java:277-291 | the first pass fails iff some hit is not fine |
| Normalization.ColumnMin | scripts/vespa_local/src/main/java/com/yahoo/search/example/HybridSearcher.java:269-291 | the least score over non-auxiliary hits, or Double.MAX_VALUE when there are none |
| Normalization.ColumnMax | scripts/vespa_local/src/main/java/com/yahoo/search/example/HybridSearcher.java:269-291 | the greatest of the initial value and the scores of non-auxiliary hits |
| Normalization.Normalized | scripts/vespa_local/src/main/java/com/yahoo/search/example/HybridSearcher.java:267-308 | fails iff a hit lacks features or a relevance would be undefined; otherwise only non-auxiliary relevances change |
| Normalization.NormalizedAt | scripts/vespa_local/src/main/java/com/yahoo/search/example/HybridSearcher.java:293-306 | a non-auxiliary hit's new relevance is the mean over features of (score-min)/(max-min) |
| Normalization.NormalizedInUnitRange | scripts/vespa_local/src/main/java/com/yahoo/search/example/HybridSearcher.java:293-306 | every normalized relevance lies in [0, 1] |
| Normalization.SingleFeatureRelevance | scripts/vespa_local/src/main/java/com/yahoo/search/example/HybridSearcher.java:298-305 | with one feature the relevance is that feature's scaled score |
| Normalization.CorrectedTopScoresOne | scripts/vespa_local/src/main/java/com/yahoo/search/example/HybridSearcher.java:271-274 | with maxima started at the most negative double, the best hit scores exactly 1 |
| Normalization.CorrectedBottomScoresZero | scripts/vespa_local/src/main/java/com/yahoo/search/example/HybridSearcher.java:271-274 | and the worst hit scores exactly 0 |
| Normalization.AsWrittenNegativeScoresBelowOne | scripts/vespa_local/src/main/java/com/yahoo/search/example/HybridSearcher.java:273 | as written (maxima from Double.MIN_VALUE), when all scores are ≤ 0 no hit reaches 1 |
| Normalization.AsWrittenCounterexample | scripts/vespa_local/src/main/java/com/yahoo/search/example/HybridSearcher.java:273 | bm25 scores -1 and -2: the better hit scores below 1 |
| Normalization.CorrectedOnNegativeHits | scripts/vespa_local/src/main/java/com/yahoo/search/example/HybridSearcher.java:271-274 | the same hits, corrected: 1 and 0 |
| Normalization.Normalize | scripts/vespa_local/src/main/java/com/yahoo/search/example/HybridSearcher.java:267-308 | the array becomes the normalized hits (as written), or is unchanged and the error is returned |
| Normalization.FindExtremes | scripts/vespa_local/src/main/java/com/yahoo/search/example/HybridSearcher.java:269-291 | the first pass: the error, or the per-feature minima and maxima and whether any hit is non-auxiliary |
| Normalization.InitialExtremes | scripts/vespa_local/src/main/java/com/yahoo/search/example/HybridSearcher.java:269-274 | two fresh arrays of Double.MAX_VALUE and Double.MIN_VALUE |
| Normalization.UpdateExtremes | scripts/vespa_local/src/main/java/com/yahoo/search/example/HybridSearcher.java:283-290 | reports the first missing feature, else lowers each minimum and raises each maximum by the hit's score |
| Normalization.RescoreHits | scripts/vespa_local/src/main/java/com/yahoo/search/example/HybridSearcher.java:293-307 | the second pass rescores every hit, skipping auxiliary ones |
| Normalization.SumScaled | scripts/vespa_local/src/main/java/com/yahoo/search/example/HybridSearcher.java:297-303 | the sum of a hit's scaled scores |
| IndexSettings.MoveToHistory | src/marqo/core/index_management/vespa_application_package.py:190-196 | the current setting goes to the front of its history, which keeps at most 3 entries; other names untouched |
| IndexSettings.Prefix | src/marqo/core/index_management/vespa_application_package.py:193-194 | the `[:limit]` slice: a prefix of at most limit elements, the whole list when it is short enough |
| IndexSettings.Save | src/marqo/core/index_management/vespa_application_package.py:162-181 | succeeds iff stored version + 1 == target (existing name) or target == 1 (new name); stores a copy at the target version; the old setting goes to history, or stale history is dropped |
| IndexSettings.Delete | src/marqo/core/index_management/vespa_application_package.py:183-188 | an absent name changes nothing; a present one moves to history and leaves the settings |
| IndexSettings.SaveDeleteBounded | src/marqo/core/index_management/vespa_application_package.py:190-196 | save and delete keep every history at most 3 long |
| IndexSettings.SecondSaveConflicts | src/marqo/core/index_management/vespa_application_package.py:166-170 | saving the same setting twice conflicts the second time |
| IndexSettings.SaveFromStored | src/marqo/core/index_management/vespa_application_package.py:162-181 | re-saving the stored setting with a new body succeeds, bumps its version and puts the old one first in history |
| IndexSettings.DeleteThenRecreate | src/marqo/core/index_management/vespa_application_package.py:172-188 | after a delete, a save succeeds iff it targets version 1, and then clears that name's history |
| IndexSettings.SaveAll | src/marqo/core/index_management/vespa_application_package.py:274-276 | when every save succeeds, each name is stored |
| IndexSettings.SaveAllBounded | src/marqo/core/index_management/vespa_application_package.py:274-276 | a run of saves keeps histories bounded |
| IndexSettings.SaveAllStops | src/marqo/core/index_management/vespa_application_package.py:274-276 | the first failing save stops the run |
| IndexSettings.IndexSettingStore.SaveIndexSetting | src/marqo/core/index_management/vespa_application_package.py:162-181 | the store becomes `Save` of its old value, or is unchanged and the conflict is returned |
| IndexSettings.IndexSettingStore.DeleteIndexSetting | src/marqo/core/index_management/vespa_application_package.py:183-188 | the store becomes `Delete` of its old value |
| IndexSettings.IndexSettingStore.MoveToHistoryOf | src/marqo/core/index_management/vespa_application_package.py:190-196 | the store becomes `MoveToHistory` of its old value |
| IndexSettings.AppVersion | src/marqo/core/index_management/vespa_application_package.py:295-299 | the config file's version if present, else the config doc's, else "2.0.0" |
| IndexSettings.BootstrapOnce | src/marqo/core/index_management/vespa_application_package.py:268-272 | bootstrap proceeds iff downgrade is allowed or the app version is below Marqo's; never twice for one version |
| IndexSettings.ApplicationPackage.Bootstrap | src/marqo/core/index_management/vespa_application_package.py:265-283 | returns false and changes nothing when it may not proceed; otherwise saves the existing settings (only without a config file), stopping at the first failed save without recording the version, and records the version when every save succeeds |
| IndexSettings.ApplicationPackage.SaveEach | src/marqo/core/index_management/vespa_application_package.py:274-276 | the loop of saves computes `SaveAll` |
| Filtering.BeforeColon | src/marqo/tensor_search/filtering.py:114 | `s.split(':')[0]`: the prefix of s up to its first colon |
| Filtering.EscapeStep | src/marqo/tensor_search/filtering.py:72-73 | replacing c by \c after escaping a set S is escaping S ∪ {c} |
| Filtering.EscapeEach | src/marqo/tensor_search/filtering.py:72-74 | the loop escapes the whole set whatever order it iterates in |
| Filtering.SanitiseAsWritten | src/marqo/tensor_search/filtering.py:54-74 | as written: every special character except the backslash is escaped |
| Filtering.AsWrittenLosesBackslash | src/marqo/tensor_search/filtering.py:70 | the name `\a` comes out as `\a`, which Lucene reads as `a` |
| Filtering.UnescapeEscaped | src/marqo/tensor_search/filtering.py:68-74 | escaping a set that holds the backslash is undone by Lucene's unescaping |
| Filtering.SanitisedRoundTrip | src/marqo/tensor_search/filtering.py:68-74 | every name sanitised as intended reads back as itself |
| Filtering.Sanitise | src/marqo/tensor_search/filtering.py:54-74 | the loop computes the intended sanitising, backslash included |
| Filtering.ReversedClauses | src/marqo/tensor_search/filtering.py:44-51 | one clause `<chunks>.<field_name>:(<name escaped as written>)` per attribute, the last attribute first |
| Filtering.AttributesFilterJoins | src/marqo/tensor_search/filtering.py:36-51 | the filter is those clauses joined by " OR " ("" for no attributes) |
| Filtering.AsWrittenClauseLosesBackslash | src/marqo/tensor_search/filtering.py:44-47 | the attribute `\a` gives the clause `...:(\a)`, which Lucene reads as the attribute `a` |
| Filtering.AttributeList.Pop | src/marqo/tensor_search/filtering.py:44 | `list.pop()` removes and returns the last element |
| Filtering.BuildSearchableAttributesFilter | src/marqo/tensor_search/filtering.py:36-51 | returns the attributes filter, each name escaped as written, and empties the list it was given |
| Filtering.Contextualised | src/marqo/tensor_search/filtering.py:77-129 | no filter gives ""; a filter in which no property's escaped name occurs comes back unchanged |
| Filtering.AbsentPropertiesUnchanged | src/marqo/tensor_search/filtering.py:100-102 | properties whose escaped names do not occur leave the filter unchanged |
| Filtering.PlainNameUnescaped | src/marqo/tensor_search/filtering.py:101 | a name without special characters is its own escape, as written and as intended |
| Filtering.StepUnchanged | src/marqo/tensor_search/filtering.py:118-128 | a name that is not the first field and follows no space or parenthesis is left alone |
| Filtering.FirstFieldGuard | src/marqo/tensor_search/filtering.py:105-115 | the first-field test holds exactly when the filter's first field is the escaped name |
| Filtering.FirstFieldPrefixed | src/marqo/tensor_search/filtering.py:105-117 | when a property's escaped name is the filter's first field, the contextualised filter starts with `<chunks>.<name>:` |
| Filtering.InnerFieldPrefixed | src/marqo/tensor_search/filtering.py:118-128 | when the name is not the first field, ` name:` and `(name:` in the filter become ` <chunks>.name:` and `(<chunks>.name:` in the result |
| Filtering.Combined | src/marqo/tensor_search/filtering.py:30-33 | "(A) AND (B)" when both are non-empty, otherwise whichever is non-empty |
| Filtering.BuildTensorSearchFilter | src/marqo/tensor_search/filtering.py:13-33 | combines the attributes filter and the contextualised user filter; the caller's list is not changed |
| Filtering.ContextualiseUserFilter | src/marqo/tensor_search/filtering.py:77-129 | the loop computes the contextualised filter, with names escaped as written |
| IndexInfo.GetIndexSettings | src/marqo/tensor_search/models/index_info.py:16-17 | a fresh dict with the same entries |
| IndexInfo.SetInSettingsCopy | src/marqo/tensor_search/models/index_info.py:16-17 | writing to the copy leaves the stored settings unchanged |
| IndexInfo.VectorProperties | src/marqo/tensor_search/models/index_info.py:19-28 | exactly the chunk sub-properties whose names start with the vector prefix; a missing key fails |
| IndexInfo.TextProperties | src/marqo/tensor_search/models/index_info.py:30-44 | exactly the entries neither vector-prefixed nor named like a TensorField value |
| IndexInfo.SubFieldsAccept | src/marqo/tensor_search/models/index_info.py:69-75 | the subfield loop fails iff some subfield's properties are not a dict |
| IndexInfo.TrueTextAccept | src/marqo/tensor_search/models/index_info.py:62-75 | the loop fails iff some entry is ill-shaped |
| IndexInfo.SubFieldsKeys | src/marqo/tensor_search/models/index_info.py:69-75 | adds the keys "parent.sub" of text-typed subfields |
| IndexInfo.TrueTextKeys | src/marqo/tensor_search/models/index_info.py:62-75 | the keys are those of flat text entries and of text subfields; untyped entries are skipped |
| IndexInfo.TrueTextEntries | src/marqo/tensor_search/models/index_info.py:62-75 | every entry comes from a text field or a text subfield |
| IndexInfo.TrueTextPropertiesSpec | src/marqo/tensor_search/models/index_info.py:46-75 | `get_true_text_properties` succeeds iff the text properties are well shaped, with exactly those keys and entries |
| IndexInfo.AddTextSubFields | src/marqo/tensor_search/models/index_info.py:70-75 | the subfield loop computes `SubFields` |
| IndexInfo.GetTrueTextProperties | src/marqo/tensor_search/models/index_info.py:46-75 | the method computes `TrueTextProperties` |
| StructuredSchema.VespaType | src/marqo/core/structured_vespa_index.py:366-371 | defined on the eight mapped types; MultimodalCombination fails |
| StructuredSchema.ArrayTypesWrapElements | src/marqo/core/structured_vespa_index.py:10-19 | array types are `array<element type>` |
| StructuredSchema.DistanceMetricNamesDistinct | src/marqo/core/structured_vespa_index.py:380-385 | distinct metrics have distinct Vespa names |
| StructuredSchema.GeneratedIdempotent | src/marqo/core/structured_vespa_index.py:185-216 | recording the generated field names twice changes nothing more |
| StructuredSchema.SummarySourceAfterGeneration | src/marqo/core/structured_vespa_index.py:259-265 | summary source: filter name, else lexical name, else plain name |
| StructuredSchema.SummarySourceDeclared | src/marqo/core/structured_vespa_index.py:259-265 | every summary source is a field the document section declares |
| StructuredSchema.DeclareField | src/marqo/core/structured_vespa_index.py:185-216 | one field's lines (lexical, filter, or plain; none for MultimodalCombination) and its recorded names |
| StructuredSchema.DeclareFields | src/marqo/core/structured_vespa_index.py:185-216 | the field loop emits every field's lines and records every field's names |
| StructuredSchema.DeclareTensorFields | src/marqo/core/structured_vespa_index.py:222-240 | the chunks and embeddings fields of each tensor field, names recorded |
| StructuredSchema.GenerateDocumentSection | src/marqo/core/structured_vespa_index.py:174-244 | the document section, with all generated names recorded |
| StructuredSchema.SummariesCoverFields | src/marqo/core/structured_vespa_index.py:252-269 | every field's summary line is in the non-vector summary |
| StructuredSchema.SummariseField | src/marqo/core/structured_vespa_index.py:257-269 | one field's summary line |
| StructuredSchema.SummariseFields | src/marqo/core/structured_vespa_index.py:252-269 | the summary lines of all fields |
| StructuredSchema.SummariseTensorFields | src/marqo/core/structured_vespa_index.py:271-278 | chunk summaries join the non-vector lines, embedding summaries the vector lines |
| StructuredSchema.GenerateSummaries | src/marqo/core/structured_vespa_index.py:247-288 | the two summaries, the vector one being the non-vector lines then the vector lines |
| StructuredSchema.RankProfileEmission | src/marqo/core/structured_vespa_index.py:319-362 | bm25 iff lexical fields; embedding_similarity iff tensor fields; modifiers iff score modifiers, plus bm25_modifiers and embedding_similarity_modifiers when their fields exist too; none twice |
| StructuredSchema.HeadersDistinct | src/marqo/core/structured_vespa_index.py:319-362 | the five rank-profile headers are pairwise distinct |
| StructuredSchema.HeaderLength | src/marqo/core/structured_vespa_index.py:319-362 | the length of each rank-profile header line |
| StructuredSchema.EmitProfile | src/marqo/core/structured_vespa_index.py:319-362 | one profile's lines |
| StructuredSchema.EmitSection | src/marqo/core/structured_vespa_index.py:319-334 | a profile's lines when it is present, nothing otherwise |
| StructuredSchema.EmitSimilarityProfile | src/marqo/core/structured_vespa_index.py:324-333 | the embedding_similarity profile's lines |
| StructuredSchema.DeclareQueryInputs | src/marqo/core/structured_vespa_index.py:328-329 | one `query(field): 1` input per tensor field |
| StructuredSchema.GenerateModifierProfiles | src/marqo/core/structured_vespa_index.py:336-362 | the modifiers profile followed by its bm25 and embedding_similarity variants where their fields exist |
| StructuredSchema.GenerateRankProfiles | src/marqo/core/structured_vespa_index.py:304-364 | the rank-profiles section |
| StructuredSchema.ValidateIndexType | src/marqo/core/structured_vespa_index.py:387-391 | passes iff the index is structured |
| StructuredSchema.GenerateSchema | src/marqo/core/structured_vespa_index.py:61-74 | a non-structured index fails and nothing changes; otherwise the schema's lines joined by newlines, generated names recorded |
| StructuredSchema.AssembleSchema | src/marqo/core/structured_vespa_index.py:65-72 | the schema lines, in order: header, document, rank profiles, fieldset, summaries |
| StructuredSchema.SchemaAround | src/marqo/core/structured_vespa_index.py:67-72 | the document section wrapped with the header, rank profiles, fieldset, summaries and closing brace |
| StructuredDocument.PythonType | src/marqo/core/structured_vespa_index.py:373-378 | defined on the eight mapped types; MultimodalCombination fails |
| StructuredDocument.CheckFieldType | src/marqo/core/structured_vespa_index.py:163-171 | passes iff the value has an accepted type (bools pass as int, ints pass as float); otherwise the type error |
| StructuredDocument.Route | src/marqo/core/structured_vespa_index.py:102-107 | the value goes under the lexical and/or filter name, else under the field name; other keys untouched |
| StructuredDocument.AddPlainField | src/marqo/core/structured_vespa_index.py:96-107 | unknown names fail; mistyped values fail; otherwise the routed write |
| StructuredDocument.EmbeddingMap | src/marqo/core/structured_vespa_index.py:123-124 | embeddings become a map with keys "0".."n-1", in order |
| Decimal.ParseNatToString | src/marqo/core/structured_vespa_index.py:123-124 | the key `f'{i}'` of an embedding reads back as i |
| Decimal.NatToStringInjective | src/marqo/core/structured_vespa_index.py:123-124 | distinct embedding positions get distinct keys |
| StructuredDocument.AddTensorField | src/marqo/core/structured_vespa_index.py:111-124 | an unknown tensor name fails with InvalidFieldName; a non-dict value fails, and a dict whose keys are not exactly chunks and embeddings fails with InvalidTensorField; it succeeds iff the name is known, the value well formed and the embeddings indexable; then the chunks field holds the chunks and the embeddings field holds the embeddings keyed "0".."n-1" |
| StructuredDocument.TensorFieldWritesOwnFields | src/marqo/core/structured_vespa_index.py:122-124 | a tensor field writes only its own two fields |
| StructuredDocument.PlainFieldsAccept | src/marqo/core/structured_vespa_index.py:92-98 | the field loop succeeds iff every plain field is known and well typed |
| StructuredDocument.PlainFieldsFirstError | src/marqo/core/structured_vespa_index.py:92-98 | it fails with the first bad field's error |
| StructuredDocument.PlainFieldsKeep | src/marqo/core/structured_vespa_index.py:92-107 | keys no field routes to are untouched |
| StructuredDocument.PlainValueLands | src/marqo/core/structured_vespa_index.py:92-107 | with disjoint routes, each plain value lands at each of its destinations |
| StructuredDocument.TensorFieldsAccept | src/marqo/core/structured_vespa_index.py:110-124 | a successful tensor loop saw only known, well-formed tensor fields |
| StructuredDocument.TensorValueLands | src/marqo/core/structured_vespa_index.py:110-124 | with distinct entry names and no Vespa name shared between tensor fields, the tensor loop leaves each entry's chunks and embeddings map under its two fields |
| StructuredDocument.TensorFieldsKeep | src/marqo/core/structured_vespa_index.py:110-124 | keys no tensor field writes are untouched |
| StructuredDocument.DocumentAccept | src/marqo/core/structured_vespa_index.py:77-133 | success needs a structured index and valid plain fields; without tensors that is also enough |
| StructuredDocument.DocumentTopLevelId | src/marqo/core/structured_vespa_index.py:86-89 | the top-level id is `_id` unless it is absent or None |
| StructuredDocument.DocumentIdField | src/marqo/core/structured_vespa_index.py:86-89 | fields['id'] is `_id` whenever it is given |
| StructuredDocument.DocumentPlainValue | src/marqo/core/structured_vespa_index.py:92-107 | each plain value reaches its destination in the document's fields |
| StructuredDocument.DocumentTensorValue | src/marqo/core/structured_vespa_index.py:109-124 | each accepted tensor entry's chunks and embeddings map end up in the converted document's fields under its chunks and embeddings names |
| StructuredDocument.MisroutedTensorName | src/marqo/core/structured_vespa_index.py:150-154 | a document whose tensor part names a plain field that is not a tensor field: as written the check passes and the conversion fails with a missing key; corrected, it fails with an invalid field name |
| StructuredDocument.WritePlainFields | src/marqo/core/structured_vespa_index.py:92-107 | the loop computes the plain fields |
| StructuredDocument.WriteTensorField | src/marqo/core/structured_vespa_index.py:112-124 | one tensor field, its name checked against the field map as written or against the tensor field map as intended |
| StructuredDocument.WriteTensorFields | src/marqo/core/structured_vespa_index.py:110-124 | the tensor loop, with either name check |
| StructuredDocument.ConvertDocument | src/marqo/core/structured_vespa_index.py:83-133 | the whole conversion, as written or with the corrected name check |
| StructuredDocument.ToVespaDocument | src/marqo/core/structured_vespa_index.py:76-133 | `to_vespa_document`: the index type check, then the conversion as written (`checkTensorMap` false) or corrected (true) |
| PyDict.Put | src/marqo/s2_inference/s2_inference.py:360-361 | `d[k] = v`: k maps to v, other keys unchanged, an existing key keeps its place, a new key is appended |
| PyDict.Remove | src/marqo/s2_inference/s2_inference.py:776 | `del d[k]`: k gone, other keys unchanged |
| PyDict.FilterKeys | src/marqo/tensor_search/models/index_info.py:24-28 | a dict comprehension with a key filter keeps exactly the entries whose keys pass |
| PyDict.PutKeepsUnique | src/marqo/s2_inference/s2_inference.py:360-361 | a put keeps keys unique |
| PyDict.MutableDict.Set | src/marqo/s2_inference/s2_inference.py:361 | the caller's dict becomes the put |
| ModelProperties.Joined | src/marqo/s2_inference/s2_inference.py:271-276 | `a + "\|\|" + b` starts with a and the separator and ends with the separator and b |
| ModelProperties.CacheKey | src/marqo/s2_inference/s2_inference.py:268-278 | the key starts with model_name and the separator and ends with the device; fails iff name or type is not a string |
| ModelProperties.CacheKeyWithoutProperties | src/marqo/s2_inference/s2_inference.py:268-276 | without properties the key is model\|\|\|\|\|\|\|\|\|\|device |
| ModelProperties.FillDefaults | src/marqo/s2_inference/s2_inference.py:355-361 | for sbert or untyped properties, a missing type becomes sbert and missing tokens the default; nothing else changes |
| ModelProperties.FillDefaultsKeepsKey | src/marqo/s2_inference/s2_inference.py:355-361 | filling defaults adds no keys except type and tokens |
| ModelProperties.FillDefaultsIdempotent | src/marqo/s2_inference/s2_inference.py:355-361 | filling defaults twice is filling once |
| ModelProperties.FirstMissing | src/marqo/s2_inference/s2_inference.py:384-390 | the first required key that is missing, if any |
| ModelProperties.CheckBranch | src/marqo/s2_inference/s2_inference.py:362-397 | a passing branch had all its required keys and a positive integer dimension |
| ModelProperties.CheckProperties | src/marqo/s2_inference/s2_inference.py:343-397 | success returns the filled properties with required keys and a valid dimension; an unknown type fails |
| ModelProperties.RegistryProperties | src/marqo/s2_inference/s2_inference.py:582-603 | an unknown model fails; registry properties pass the dimension check |
| ModelProperties.SbertRequiresNameAndDimensions | src/marqo/s2_inference/s2_inference.py:384-390 | sbert needs dimensions and name; missing dimensions is reported first |
| ModelProperties.SbertCheck | src/marqo/s2_inference/s2_inference.py:384-397 | the sbert outcome: missing dimensions, missing name, invalid dimensions, or the properties |
| ModelProperties.ClipCheck | src/marqo/s2_inference/s2_inference.py:384-397 | the clip outcome: missing name, missing dimensions, invalid dimensions, or the properties |
| ModelProperties.DimensionsOnlyCheck | src/marqo/s2_inference/s2_inference.py:384-397 | hf and no_model need only dimensions |
| ModelProperties.CheckPropertiesIdempotent | src/marqo/s2_inference/s2_inference.py:343-397 | validated properties validate to themselves |
| ModelProperties.NoModelNeedsItsName | src/marqo/s2_inference/s2_inference.py:366-371 | no_model passes only for the model name "no_model" with dimensions |
| ModelProperties.NameInfo | src/marqo/s2_inference/s2_inference.py:499 | the name info is in normal form: no '/' and no capital letter is left, and each character equals the input's up to case, with '/' turned into '-' |
| ModelProperties.NameInfoKeepsContains | src/marqo/s2_inference/s2_inference.py:499-501 | a name found in the raw model name is found, normalised, in the name info |
| ModelProperties.NormalNameFound | src/marqo/s2_inference/s2_inference.py:499-501 | a size-table name already in normal form that occurs in the raw model name is found by the `name in name_info` test |
| ModelProperties.FirstContained | src/marqo/s2_inference/s2_inference.py:500-502 | the first size-table name contained in the name info, if any |
| ModelProperties.ModelSize | src/marqo/s2_inference/s2_inference.py:491-505 | explicit model_size, else the first contained name, else the type table, else the default |
| ModelProperties.ValidateModelProperties | src/marqo/s2_inference/s2_inference.py:333-397 | writes the defaults into the caller's dict and returns its validation, or the registry's properties when none are given |
| ModelCache.MemoryCheck | src/marqo/s2_inference/s2_inference.py:465-488 | unknown devices and models above the threshold fail; otherwise room iff used + size < threshold |
| ModelCache.FirstEjectable | src/marqo/s2_inference/s2_inference.py:764-770 | the first key starting with the model name and ending with the device |
| ModelCache.CachedModelEjectable | src/marqo/s2_inference/s2_inference.py:764-770 | a model cached under its cache key can be ejected by its name and device |
| ModelCache.Delete | src/marqo/s2_inference/s2_inference.py:441 | the key is gone, the others unchanged |
| ModelCache.UsedAfterDelete | src/marqo/s2_inference/s2_inference.py:472-477 | deleting a key frees its size on its device |
| ModelCache.DeviceKeys | src/marqo/s2_inference/s2_inference.py:433 | exactly the keys ending with the device |
| ModelCache.EvictionOrder | src/marqo/s2_inference/s2_inference.py:434-436 | those keys by ascending last use |
| ModelCache.EvictCount | src/marqo/s2_inference/s2_inference.py:437-449 | eviction removes at most the device's candidates |
| ModelCache.DeleteAllGet | src/marqo/s2_inference/s2_inference.py:437-443 | after evicting some keys exactly those are gone and every other entry is unchanged |
| ModelCache.EvictDeletesPrefix | src/marqo/s2_inference/s2_inference.py:437-449 | eviction deletes a prefix of that order, stops at the first moment there is room, and fails only after deleting all of it |
| ModelCache.RefusedWithoutEviction | src/marqo/s2_inference/s2_inference.py:469-488 | an unknown device or an oversized model fails before anything is evicted |
| ModelCache.EvictsLeastRecentlyUsed | src/marqo/s2_inference/s2_inference.py:434-443 | an evicted model was used no later than a kept one on the same device |
| ModelCache.AvailableModels.Eject | src/marqo/s2_inference/s2_inference.py:757-781 | removes the first matching key and succeeds, or fails and changes nothing |
| ModelCache.AvailableModels.MakeRoom | src/marqo/s2_inference/s2_inference.py:429-449 | the cache and the outcome are those of the eviction specification |
| VectorCache.Uncached | src/marqo/s2_inference/s2_inference.py:89-97 | the items to encode: non-strings and cache misses, in order |
| VectorCache.Cached | src/marqo/s2_inference/s2_inference.py:89-95 | (position, vector) for each cache hit |
| VectorCache.CachedBound | src/marqo/s2_inference/s2_inference.py:89-97 | hits and misses partition the input; each hit's position can be inserted |
| VectorCache.MergeAt | src/marqo/s2_inference/s2_inference.py:106-107 | position i holds its cached vector on a hit, else the next encoded vector |
| VectorCache.InsertAt | src/marqo/s2_inference/s2_inference.py:107 | `list.insert(loc, v)`: v lands at loc with the rest shifted, or at the end when loc is past it |
| VectorCache.InsertAllMerges | src/marqo/s2_inference/s2_inference.py:106-107 | inserting the cached vectors at their positions yields that merge |
| VectorCache.ValuesMerge | src/marqo/s2_inference/s2_inference.py:108-109 | with nothing to encode, the cached vectors in order are that merge |
| VectorCache.VectorisedInOrder | src/marqo/s2_inference/s2_inference.py:84-111 | one vector per input item, each cached one at its original position |
| VectorCache.WritesAreMisses | src/marqo/s2_inference/s2_inference.py:102-104 | every cache write is a missed string with its encoded vector |
| VectorCache.Partition | src/marqo/s2_inference/s2_inference.py:85-97 | the first loop computes the misses and the hits |
| VectorCache.CacheWrites | src/marqo/s2_inference/s2_inference.py:102-104 | the write loop |
| VectorCache.InsertCached | src/marqo/s2_inference/s2_inference.py:106-107 | the insert loop |
| VectorCache.CachedValues | src/marqo/s2_inference/s2_inference.py:109 | the cached vectors in order |
| VectorCache.VectoriseListWithCache | src/marqo/s2_inference/s2_inference.py:84-111 | returns the merged vectors, and the cache writes when anything was encoded |

## Left out

- Asynchronous execution, timeouts and exception wrapping in both `search` methods: the backend is a function from a query to hits or a failure message. A timeout is a backend failure.
- Logging, `System.out.println`, `logIfVerbose`, `logHitGroup`, and the `print` in `get_text_properties` (index_info.py:38): output only.
- IEEE doubles: relevances, scores, alpha and model sizes are reals, so rounding is not modelled.
  - `Normalization.Normalized` reports `UndefinedScore` where Java would compute NaN (max == min, or no features).
  - `Double.MAX_VALUE` and `Double.MIN_VALUE` are exact constants.
- Fusion.Rrf: k is a `nat`, so a negative `hybrid.rrf_k` is not fused.
- MarqoSearcher.SearchResult: reports a negative `hybrid.rrf_k` as `NegativeRrfK`, where Java would compute with it (and divide by zero at rank = -k).
- MarqoSearcher.HybridSearcher.Search: returns `NegativeRrfK` for a negative `hybrid.rrf_k`, as `SearchResult` does.
- ExampleFusion.VariantRrf: k is a `nat` here too. The example searcher computes `1.0 / (rank + k)` with a negative k, giving a value or Infinity. The model's reals have no Infinity.
- ExampleSearcher.ExampleSearchResult: reports a negative `hybrid.rrf_k` as `NegativeRrfK` instead of fusing with it, for the same reason.
- ExampleSearcher.Search: returns `NegativeRrfK` for a negative `hybrid.rrf_k`, as `ExampleSearchResult` does.
- Queries.GetInteger, Queries.GetDouble, Queries.GetString, Queries.GetBoolean: property values are typed (string, boolean, integer, real). Vespa's conversion of a string value is not modelled: `getInteger`/`getDouble` parse it and throw `NumberFormatException` on a malformed one, and `getString` returns `toString()` of a non-string. The model returns the default for a value of another kind, so `hybrid.rrf_k = "abc"` runs with 60 where the Java search throws. `GetBoolean` reads a string as true only when it is exactly "true"; Vespa's conversion of other strings and other kinds of value is not part of this model.
- ModelCache.EvictionOrder: the order among models with equal last-use times is not stated. Python's `sorted` keeps their dictionary order; the model claims only ascending order and a permutation.
- StructuredDocument.AddTensorField, StructuredDocument.WriteTensorField, StructuredDocument.ConvertDocument, StructuredDocument.ToVespaDocument: an unset chunks or embeddings name of a tensor field is written under the string "None". Python uses the key `None`, so such a field can collide with a plain field named "None" here but not in Python. Document fields are keyed by strings in this model.
- StructuredDocument.ConvertDocument, StructuredDocument.ToVespaDocument: a tensors value that is not a dict (and not an empty list or string) fails with `NotAMapping`. Python raises a TypeError there, except for a non-empty list of small integers, where the lookup succeeds and the name check raises InvalidFieldNameError.
- Hits are values. `setRelevance` on the caller's hit objects, and the aliasing it causes between the input groups and the result, is not captured. `result.get(id).setRelevance` is modelled as a position update.
- Hits.HitGroup.Sort: `HitGroup.sort`'s tie order is not visible. Only "descending and a permutation" is claimed.
- Loop bodies are factored into step methods to keep each proof small:
  - the lexical iteration of `rrf` (`Fusion.AddLexicalHit`, `ExampleFusion.AddVariantLexicalHit`);
  - the two branches of `search` (`MarqoSearcher.SearchDisjunction`, `MarqoSearcher.SearchStandard`).
  The state changes are the same.
- MarqoSearcher.HybridSearcher.Search: the per-hit blended scores are stated for the fused list (`FusionProperties.RrfBlendedScores`) and connected to `search` by `MarqoSearcher.DisjunctionFuses`. They are not restated at the search level.
- Vespa `Query`, `Tensor` and `HitGroup` internals (query model, presentation, the `Result` wrapper), and the second `execution.search` of the standard branch, which is modelled as a second call to the same pure backend.
- `vespa_client.py`, `ServiceXml`, deployment and the file side of `VespaApplicationPackage`: network and filesystem. These include `save_to_files`, the query profile, the jar copy and `update_version` beyond recording the version.
- Semantic-version parsing is a parameter. Versions compare as (major, minor, patch) tuples.
- The `MarqoIndex`/`Field` models, the `TensorField` enum, `LUCENE_SPECIAL_CHARS`, `MODEL_NAME_SIZE_MAPPING`, `MODEL_TYPE_SIZE_MAPPING`, `DEFAULT_MODEL_SIZE`, the model-type names and the memory thresholds are not part of this model. They are abstract records or parameters.
- `_ensure_cache_enabled` (structured_vespa_index.py:393-397): a pydantic caching concern with no effect on the output.
- Python's `str()` of property values in the cache key is a parameter (`repr`).
- ModelProperties.NameInfo: `lower()` is ASCII-only here; capitals outside ASCII are kept.
- Filtering.InnerFieldPrefixed: stated for escaped names without spaces or parentheses and a chunks name without a parenthesis. Otherwise one replacement can overlap the other's result, and the lemma says nothing about that case.
- Filtering.Escaped, Filtering.Sanitised: the special characters are single characters (`Names.specials` is a `set<char>`). If the special-character constants hold the two-character operators `&&` and `||`, their `str.replace` is not modelled: Python escapes such a pair once, `\&&`, where the model escapes each character.
- Model loading, torch/CUDA calls, the loading lock and timestamps, `_update_available_models`, `_load_model`, and `MarqoInferenceCache`:
  - The inference cache is a lookup function.
  - The writes it would receive are returned, not performed.
  - Last-use times are values in the cache entries.
- `_vectorise_with_cache`'s single-string branch and `_encode_without_cache` (the encoder is a parameter).
- ModelCache.AvailableModels.Eject: the second membership test of `eject_model` (s2_inference.py:775) cannot fail without another thread, so its error path is not modelled.
- ModelCache.Delete skips an absent key where Python's `del` would raise. It is only reached for keys taken from the dictionary.
- StructuredSchema.DistanceMetricNamesDistinct: the `ValueError` of `_get_distance_metric` is unreachable because every metric is mapped.
- `LanguageBind` properties are checked by a parameter (`multimodalValid`) standing for `MultimodalModelProperties(**model_properties)`.
- avail_models.py, x_clip_utils.py, add_docs.py, semi_structured_vespa_index.py, vespa_index.py, marqo_query.py and the integration tests are not part of this model.
- Normalization.Normalize models `normalize` as written (maxima initialised to `Double.MIN_VALUE`). The intended initialisation is proved separately (see Findings), because no other modelled code calls `normalize`.

## Findings

| source | as written | input that shows it | evidently intended | confidence | as-written member | corrected member |
|---|---|---|---|---|---|---|
| scripts/vespa_local/src/main/java/com/yahoo/search/example/HybridSearcher.java:273 | running maxima start at `Double.MIN_VALUE`, which is 2^-1074 (positive) | two hits with bm25 scores -1 and -2: the better one gets 1/(1+2^-1074+1) instead of 1 | start at the most negative double, so the best hit gets 1 and the worst 0 | not executed | Normalization.AsWrittenCounterexample | Normalization.CorrectedOnNegativeHits |
| src/marqo/tensor_search/filtering.py:70 | the result of `replace("\\", "\\\\")` is discarded, so backslashes are not escaped | the attribute name `\a` is sanitised to `\a`, which Lucene reads as `a` | escape backslashes first, so every sanitised name reads back as itself | not executed | Filtering.AsWrittenLosesBackslash | Filtering.SanitisedRoundTrip |
| src/marqo/core/structured_vespa_index.py:150-154 | the tensor field name is checked against `field_map` instead of `tensor_field_map` | a document whose tensor part names a plain, non-tensor field of the index: the check passes, and the lookup `tensor_field_map[name]` at line 120 raises KeyError instead of InvalidFieldNameError | check against `tensor_field_map`, failing with InvalidFieldNameError | not executed | StructuredDocument.MisroutedTensorName | StructuredDocument.ToVespaDocument |
